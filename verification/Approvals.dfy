/** Single-use approval tokens (approvals.py): the in-memory registry, its file-backed form
    and the conditional SQL update. Token text is drawn outside; the JSON and ISO encodings
    are taken as invertible. */
module Approvals {
  import opened Tasks
  import AuthResults

  type Token = string

  datatype Approval = Approval(
    token: Token,
    taskId: Id,
    action: string,
    createdAt: Time,
    expiresAt: Time,
    usedAt: Option<Time>)

  predicate ExpiredAt(a: Approval, now: Time) { now >= a.expiresAt }

  type Store = map<Token, Approval>

  datatype RedeemResult = Redeemed(approval: Approval) | UnknownToken | AlreadyUsed | Expired

  function Issued(token: Token, taskId: Id, action: string, now: Time, ttl: Time): Approval {
    Approval(token, taskId, action, now, now + ttl, None)
  }

  /** What a redemption may do. `check` is the clock reading compared with the expiry,
      `stamp` the one recorded as the time of use. */
  function RedeemSpec(s: Store, token: Token, check: Time, stamp: Time): (Store, RedeemResult) {
    if token !in s then (s, UnknownToken)
    else if s[token].usedAt.Some? then (s, AlreadyUsed)
    else if ExpiredAt(s[token], check) then (s, Expired)
    else
      var used := s[token].(usedAt := Some(stamp));
      (s[token := used], Redeemed(used))
  }

  predicate Differs(given: Option<string>, stored: Option<string>) {
    given.Some? && stored.Some? && given != stored
  }

  function LowerOption(s: Option<string>): Option<string> {
    if s.None? then None else Some(AuthResults.Lower(s.value))
  }

  /** A reply may decide a task: where both name a sender (in any letter case) or a thread, they
      name the same one. */
  predicate Fits(fromSender: Option<string>, fromThread: Option<string>,
                 sender: Option<string>, threadId: Option<string>) {
    !Differs(LowerOption(fromSender), LowerOption(sender)) && !Differs(fromThread, threadId)
  }

  /** A redemption in the fields of the stored token: unknown, used and expired tokens are refused
      in that order, and nothing changes; otherwise exactly its time of use is set. */
  lemma RedeemMeans(s: Store, token: Token, check: Time, stamp: Time)
    ensures var (s', r) := RedeemSpec(s, token, check, stamp);
      && (r == UnknownToken <==> token !in s)
      && (r == AlreadyUsed <==> token in s && s[token].usedAt.Some?)
      && (r == Expired <==> token in s && s[token].usedAt.None? && s[token].expiresAt <= check)
      && (r.Redeemed? <==> token in s && s[token].usedAt.None? && check < s[token].expiresAt)
      && (!r.Redeemed? ==> s' == s)
      && (r.Redeemed? ==>
        r.approval == s[token].(usedAt := Some(stamp)) && s' == s[token := r.approval])
  {}

  /** A reply fits unless both name a sender and the two differ by more than letter case, or both
      name a thread and the two differ. */
  lemma FitsMeans(fromSender: Option<string>, fromThread: Option<string>, sender: Option<string>, threadId: Option<string>)
    ensures Fits(fromSender, fromThread, sender, threadId) <==>
      && (fromSender.Some? && sender.Some? ==>
        var a, b := fromSender.value, sender.value;
        |a| == |b| && forall i :: 0 <= i < |a| ==> AuthResults.SameLetter(a[i], b[i]))
      && (fromThread.Some? && threadId.Some? ==> fromThread.value == threadId.value)
  {
    if fromSender.Some? && sender.Some? { AuthResults.LowerMeans(fromSender.value, sender.value); }
  }

  class ApprovalRegistry {
    var byToken: Store

    ghost predicate Valid()
      reads this
    {
      forall k :: k in byToken ==> byToken[k].token == k
    }

    constructor ()
      ensures Valid() && byToken == map[]
    {
      byToken := map[];
    }

    method Issue(token: Token, taskId: Id, action: string, now: Time, ttl: Time) returns (a: Approval)
      requires Valid()
      modifies this
      ensures Valid() && a == Issued(token, taskId, action, now, ttl)
      ensures a == Approval(token, taskId, action, now, now + ttl, None)
      ensures byToken == old(byToken)[token := a]
    {
      a := Approval(token, taskId, action, now, now + ttl, None);
      byToken := byToken[token := a];
    }

    method Redeem(token: Token, check: Time, stamp: Time) returns (r: RedeemResult)
      requires Valid()
      modifies this
      ensures Valid()
      ensures (byToken, r) == RedeemSpec(old(byToken), token, check, stamp)
    {
      if token !in byToken { return UnknownToken; }
      var a := byToken[token];
      if a.usedAt.Some? { return AlreadyUsed; }
      if ExpiredAt(a, check) { return Expired; }
      a := a.(usedAt := Some(stamp));
      byToken := byToken[token := a];
      return Redeemed(a);
    }
  }

  /** One file entry; the token is the key it is stored under. */
  datatype Entry = Entry(
    taskId: Id, action: string, createdAt: Time, expiresAt: Time, usedAt: Option<Time>)

  function Payload(s: Store): map<Token, Entry> {
    map k | k in s :: Entry(s[k].taskId, s[k].action, s[k].createdAt, s[k].expiresAt, s[k].usedAt)
  }

  function FromEntry(token: Token, e: Entry): Approval {
    Approval(token, e.taskId, e.action, e.createdAt, e.expiresAt, e.usedAt)
  }

  class FileApprovalStore {
    const registry: ApprovalRegistry
    var file: Option<map<Token, Entry>>

    /** The file always holds the whole map; before the first write there is no file. */
    ghost predicate Valid()
      reads this, registry
    {
      registry.Valid() &&
      (if file.None? then registry.byToken == map[] else file.value == Payload(registry.byToken))
    }

    /** Opens a store on a path's contents, loading every entry. */
    constructor (contents: Option<map<Token, Entry>>)
      ensures Valid() && fresh(registry) && file == contents
      ensures contents.None? ==> registry.byToken == map[]
      ensures contents.Some? ==> Payload(registry.byToken) == contents.value
    {
      var r := new ApprovalRegistry();
      registry := r;
      file := contents;
      new;
      if contents.Some? {
        var raw := contents.value;
        var todo := raw.Keys;
        while todo != {}
          invariant todo <= raw.Keys
          invariant r.Valid() && fresh(r) && r == registry
          invariant r.byToken == map k | k in raw && k !in todo :: FromEntry(k, raw[k])
          modifies r
          decreases todo
        {
          var k :| k in todo;
          r.byToken := r.byToken[k := FromEntry(k, raw[k])];
          todo := todo - {k};
        }
        assert Payload(r.byToken) == raw;
      }
    }

    method Issue(token: Token, taskId: Id, action: string, now: Time, ttl: Time) returns (a: Approval)
      requires Valid()
      modifies this`file, registry
      ensures Valid() && a == Issued(token, taskId, action, now, ttl)
      ensures registry.byToken == old(registry.byToken)[token := a]
    {
      a := registry.Issue(token, taskId, action, now, ttl);
      file := Some(Payload(registry.byToken));
    }

    method Redeem(token: Token, check: Time, stamp: Time) returns (r: RedeemResult)
      requires Valid()
      modifies this`file, registry
      ensures Valid()
      ensures (registry.byToken, r) == RedeemSpec(old(registry.byToken), token, check, stamp)
    {
      r := registry.Redeem(token, check, stamp);
      if r.Redeemed? { file := Some(Payload(registry.byToken)); }
    }

    /** Reopening the path after any operations yields the same token map. */
    method Reopen() returns (again: FileApprovalStore)
      requires Valid()
      ensures fresh(again) && again.Valid() && again.registry.byToken == registry.byToken
    {
      again := new FileApprovalStore(file);
      PayloadIsInjective(again.registry.byToken, registry.byToken);
    }
  }

  lemma PayloadIsInjective(s: Store, s': Store)
    requires forall k :: k in s ==> s[k].token == k
    requires forall k :: k in s' ==> s'[k].token == k
    ensures Payload(s) == Payload(s') ==> s == s'
  {
    if Payload(s) == Payload(s') {
      assert s.Keys == Payload(s).Keys == Payload(s').Keys == s'.Keys;
      forall k | k in s ensures s[k] == s'[k] {
        assert FromEntry(k, Payload(s)[k]) == s[k];
        assert FromEntry(k, Payload(s')[k]) == s'[k];
      }
    }
  }

  class PostgresApprovalStore {
    var rows: Store

    /** `UPDATE ... WHERE token AND used_at IS NULL AND expires_at > now RETURNING`, then a
        SELECT to classify a miss. */
    method Redeem(token: Token, now: Time) returns (r: RedeemResult)
      modifies this
      ensures (rows, r) == RedeemSpec(old(rows), token, now, now)
    {
      var hits := set k | k in rows && k == token && rows[k].usedAt.None? && rows[k].expiresAt > now;
      if token in hits {
        rows := rows[token := rows[token].(usedAt := Some(now))];
        return Redeemed(rows[token]);
      }
      if token !in rows { return UnknownToken; }
      if rows[token].usedAt.Some? { return AlreadyUsed; }
      return Expired;
    }
  }

  /** Any interleaving of issuers and redeemers is a sequence of these calls. */
  datatype Op =
    | Issue(token: Token, taskId: Id, action: string, now: Time, ttl: Time)
    | Redeem(token: Token, check: Time, stamp: Time)

  ghost function After(ops: seq<Op>): Store {
    if ops == [] then map[]
    else
      var s := After(ops[..|ops| - 1]);
      match ops[|ops| - 1]
      case Issue(token, id, action, now, ttl) => s[token := Issued(token, id, action, now, ttl)]
      case Redeem(token, check, stamp) => RedeemSpec(s, token, check, stamp).0
  }

  ghost predicate RedeemsAt(ops: seq<Op>, i: nat, token: Token) {
    && i < |ops| && ops[i].Redeem? && ops[i].token == token
    && RedeemSpec(After(ops[..i]), token, ops[i].check, ops[i].stamp).1.Redeemed?
  }

  /** No two draws of a random token collide. */
  predicate TokensAreFresh(ops: seq<Op>) {
    forall i, j :: 0 <= i < j < |ops| && ops[i].Issue? && ops[j].Issue? ==> ops[i].token != ops[j].token
  }

  /** A row in the store comes from one issuing call, and its expiry is that call's. */
  lemma {:induction false} RowsAreIssued(ops: seq<Op>, token: Token) returns (i: nat)
    requires token in After(ops)
    ensures i < |ops| && ops[i].Issue? && ops[i].token == token
    ensures After(ops)[token].taskId == ops[i].taskId && After(ops)[token].action == ops[i].action
    ensures After(ops)[token].expiresAt == ops[i].now + ops[i].ttl
  {
    var last := |ops| - 1;
    if ops[last].Issue? && ops[last].token == token {
      i := last;
    } else {
      i := RowsAreIssued(ops[..last], token);
    }
  }

  /** Once used, a token stays used. */
  lemma {:induction false} UsedStaysUsed(ops: seq<Op>, n: nat, token: Token)
    requires n <= |ops| && TokensAreFresh(ops)
    requires token in After(ops[..n]) && After(ops[..n])[token].usedAt.Some?
    ensures token in After(ops) && After(ops)[token].usedAt.Some?
  {
    var last := |ops| - 1;
    if n == |ops| {
      assert ops[..n] == ops;
    } else {
      assert ops[..last][..n] == ops[..n];
      UsedStaysUsed(ops[..last], n, token);
      if ops[last].Issue? && ops[last].token == token {
        var i := RowsAreIssued(ops[..n], token);
        assert false;
      }
    }
  }

  /** In every interleaving a token is redeemed at most once, only before the expiry set when
      it was issued, and for the task and action it was issued for. */
  lemma TokensAreSingleUse(ops: seq<Op>, i: nat, j: nat, token: Token)
    requires TokensAreFresh(ops) && RedeemsAt(ops, i, token)
    ensures RedeemsAt(ops, j, token) ==> i == j
    ensures var a := RedeemSpec(After(ops[..i]), token, ops[i].check, ops[i].stamp).1.approval;
      exists k :: 0 <= k < i && ops[k].Issue? && ops[k].token == token
                  && a.taskId == ops[k].taskId && a.action == ops[k].action
                  && ops[i].check < ops[k].now + ops[k].ttl
  {
    var k := RowsAreIssued(ops[..i], token);
    assert ops[..i][k] == ops[k];
    if RedeemsAt(ops, j, token) && i != j {
      var (a, b) := if i < j then (i, j) else (j, i);
      assert ops[..b][..a + 1] == ops[..a + 1] && ops[..a + 1][..a] == ops[..a];
      assert After(ops[..a + 1])[token].usedAt.Some?;
      UsedStaysUsed(ops[..b], a + 1, token);
      assert false;
    }
  }
}

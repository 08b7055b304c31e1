/** The tokens of JSON with comments, in the characters of the text. */
module JsoncMeaning {
  import opened Jsonc

  // ---- String literals

  /** Backslashes directly before position `i`; `escape` counts for one before the start. */
  function Backslashes(s: string, i: nat, escape: bool): nat
    requires i <= |s|
  {
    if i == 0 then (if escape then 1 else 0) else if s[i - 1] == '\\' then 1 + Backslashes(s, i - 1, escape) else 0
  }

  /** A quote that no backslash escapes: an even number of them stands before it. */
  predicate Closes(s: string, i: nat, escape: bool) { i < |s| && s[i] == '"' && Backslashes(s, i, escape) % 2 == 0 }

  lemma {:induction false} BackslashesShift(s: string, i: nat, escape: bool)
    requires 0 < i <= |s|
    ensures Backslashes(s, i, escape) % 2 == Backslashes(s[1..], i - 1, !escape && s[0] == '\\') % 2
  {
    if i > 1 {
      BackslashesShift(s, i - 1, escape);
      assert s[1..][i - 2] == s[i - 1];
    }
  }

  lemma ClosesShift(s: string, i: nat, escape: bool)
    requires s != [] && i + 1 < |s|
    ensures Closes(s, i + 1, escape) <==> Closes(s[1..], i, !escape && s[0] == '\\')
  {
    BackslashesShift(s, i + 1, escape);
  }

  /** A literal's body runs up to and including the first unescaped quote, or to the end. */
  lemma {:induction false} BodyMeans(s: string, escape: bool)
    ensures var n := BodyLength(s, escape);
      && (forall i :: 0 <= i < n - 1 ==> !Closes(s, i, escape))
      && ((n > 0 && Closes(s, n - 1, escape)) || (n == |s| && forall i: nat :: !Closes(s, i, escape)))
  {
    if s != [] {
      var e, n := !escape && s[0] == '\\', BodyLength(s, escape);
      if escape || s[0] != '"' {
        BodyMeans(s[1..], e);
        forall i | 0 <= i < |s| - 1 ensures Closes(s, i + 1, escape) <==> Closes(s[1..], i, e) {
          ClosesShift(s, i, escape);
        }
        forall i | 0 <= i < n - 1 ensures !Closes(s, i, escape) {
          if i > 0 { assert !Closes(s[1..], i - 1, e); }
        }
        if n - 1 > 0 && Closes(s[1..], n - 2, e) {
          assert Closes(s, n - 1, escape);
        } else {
          forall i: nat ensures !Closes(s, i, escape) {
            if 0 < i < |s| { assert !Closes(s[1..], i - 1, e); }
          }
        }
      }
    }
  }

  // ---- Comments

  /** A line comment runs up to the first line break, which it leaves. */
  lemma {:induction false} LineMeans(s: string)
    ensures var n := LineLength(s);
      && (forall i :: 0 <= i < n ==> s[i] != '\r' && s[i] != '\n')
      && (n < |s| ==> s[n] == '\r' || s[n] == '\n')
  {
    if s != [] && s[0] != '\r' && s[0] != '\n' { LineMeans(s[1..]); }
  }

  predicate Ends(s: string, i: nat) { i + 1 < |s| && s[i] == '*' && s[i + 1] == '/' }

  /** A block comment runs up to and including the first closing mark, or to the end. */
  lemma {:induction false} BlockMeans(s: string)
    ensures var n := BlockLength(s);
      && (forall i :: 0 <= i < n - 2 ==> !Ends(s, i))
      && ((n >= 2 && Ends(s, n - 2)) || (n == |s| && forall i: nat :: !Ends(s, i)))
  {
    if |s| >= 2 && !Ends(s, 0) {
      BlockMeans(s[1..]);
      var n := BlockLength(s);
      forall i | 0 <= i < n - 2 ensures !Ends(s, i) {
        if i > 0 { assert !Ends(s[1..], i - 1); }
      }
      if n >= 3 && Ends(s[1..], n - 3) {
        assert Ends(s, n - 2);
      } else {
        forall i: nat ensures !Ends(s, i) {
          if i > 0 { assert !Ends(s[1..], i - 1); }
        }
      }
    }
  }

  // ---- Tokens

  /** What the first token of a text is, by its first two characters. */
  lemma HeadMeans(s: string)
    requires s != []
    ensures Head(s).Literal? <==> s[0] == '"'
    ensures Head(s).Comment? <==> |s| > 1 && s[0] == '/' && (s[1] == '/' || s[1] == '*')
    ensures Head(s).Literal? ==> |Text(Head(s))| == 1 + BodyLength(s[1..], false)
    ensures Head(s).Comment? ==>
      |Text(Head(s))| == 2 + if s[1] == '/' then LineLength(s[2..]) else BlockLength(s[2..])
    ensures Head(s).Other? ==> Text(Head(s)) == [s[0]]
  {}

  /** Dropping comments drops those and nothing else, and keeps the order. */
  lemma {:induction false} KeptMeans(a: seq<Token>, t: Token, b: seq<Token>)
    ensures Kept(a + [t] + b) == Kept(a) + (if t.Comment? then [] else [t]) + Kept(b)
  {
    var all := a + [t] + b;
    if a == [] {
      assert all == [t] + b && all[1..] == b;
    } else {
      assert all[0] == a[0] && all[1..] == a[1..] + [t] + b;
      KeptMeans(a[1..], t, b);
    }
  }

  function CommentLength(ts: seq<Token>): nat {
    if ts == [] then 0 else (if ts[0].Comment? then |ts[0].text| else 0) + CommentLength(ts[1..])
  }

  lemma {:induction false} KeptLength(ts: seq<Token>)
    ensures |Join(Kept(ts))| + CommentLength(ts) == |Join(ts)|
  {
    if ts != [] {
      KeptLength(ts[1..]);
      var k := Kept(ts[1..]);
      assert ts[0].Comment? ==> Kept(ts) == k;
      assert !ts[0].Comment? ==> Kept(ts) == [ts[0]] + k && Kept(ts)[1..] == k;
    }
  }

  lemma {:induction false} NoneToDrop(ts: seq<Token>)
    ensures (forall t :: t in ts ==> !t.Comment?) ==> Kept(ts) == ts
    ensures (forall t :: t in ts ==> Text(t) != []) && CommentLength(ts) == 0 ==> forall t :: t in ts ==> !t.Comment?
  {
    if ts != [] {
      NoneToDrop(ts[1..]);
      assert ts == [ts[0]] + ts[1..] && ts[0] in ts;
    }
  }

  lemma {:induction false} TokensHaveText(s: string, t: Token)
    requires t in Tokens(s)
    ensures Text(t) != []
    decreases |s|
  {
    if t != Head(s) { TokensHaveText(s[|Text(Head(s))|..], t); }
  }

  /** Stripping removes exactly the characters of the comments, so it changes a text if and only
      if the text holds one. */
  lemma StripShortens(s: string)
    ensures |Strip(s)| == |s| - CommentLength(Tokens(s))
    ensures Strip(s) == s <==> forall t :: t in Tokens(s) ==> !t.Comment?
  {
    TokensCoverText(s);
    KeptLength(Tokens(s));
    NoneToDrop(Tokens(s));
    forall t | t in Tokens(s) ensures Text(t) != [] { TokensHaveText(s, t); }
  }
}

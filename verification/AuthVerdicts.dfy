/** What the verdict parser reports, in the characters of the text. */
module AuthVerdicts {
  import opened Tasks
  import opened AuthResults
  import opened AuthMeaning

  predicate IsName(s: string) { s == "header.from" || s == "header.d" || s == "smtp.mailfrom" }

  /** Letters, digits and hyphens. */
  predicate Word(s: string) { s != [] && forall i :: 0 <= i < |s| ==> IsLetterOrDigit(s[i]) || s[i] == '-' }

  lemma WordIsUnbroken(s: string)
    requires Word(s)
    ensures NoneOf(s, EndsWord)
  {
    forall i | 0 <= i < |s| ensures !EndsWord(s[i]) { ClassesMean(s[i]); }
  }

  /** A property value: not empty, up to a space, ';' or ')'. */
  predicate Value(s: string) { s != [] && NoneOf(s, EndsValue) }

  /** A value that is a plain host: no brackets, no '@', no capitals. */
  predicate Plain(s: string) { Value(s) && NoneOf(s, IsAngle) && NoneOf(s, IsAt) && NoneOf(s, IsCapital) }

  // ---- Occurrences of a property

  /** `s` begins with `name` (in any case), '=' between spaces, and the value `v`, ended by `rest`. */
  predicate Begins(s: string, name: string, b: string, d: string, v: string, rest: string) {
    s == name + b + "=" + d + v + rest && IsName(Lower(name)) && Spaces(b) && Spaces(d) && Value(v)
    && (rest == [] || EndsValue(rest[0]))
  }

  lemma ValueIsTight(v: string)
    requires Value(v)
    ensures !IsSpace(v[0]) && !IsSpace(v[|v| - 1])
  {
    assert !EndsValue(v[0]) && !EndsValue(v[|v| - 1]);
  }

  lemma LowerPrefix(s: string, n: nat)
    requires n <= |s|
    ensures Lower(s[..n]) == Lower(s)[..n]
  {}

  /** A name at the head of the text is found. */
  lemma NameOver(name: string, rest: string)
    requires IsName(Lower(name))
    ensures PropertyName(name + rest) == Some(Lower(name))
  {
    var s := name + rest;
    assert s[..|name|] == name;
    if Lower(name) != "header.from" && |s| >= 11 {
      assert Lower(s[..11])[..8] == Lower(s[..8]) by { LowerPrefix(s[..11], 8); assert s[..11][..8] == s[..8]; }
      if Lower(name) == "header.d" { assert Lower(s[..8]) == "header.d"; assert "header.from"[..8] == "header.f"; }
      else { assert Lower(s[..11])[0] == Lower(name)[0]; }
    }
    if Lower(name) == "smtp.mailfrom" {
      assert Lower(s[..8])[0] == Lower(name)[0];
    }
  }

  lemma NameSplits(s: string)
    requires PropertyName(s).Some?
    ensures var n := |PropertyName(s).value|; n <= |s| && Lower(s[..n]) == PropertyName(s).value && IsName(PropertyName(s).value)
  {}

  lemma BeginsIsRead(s: string, name: string, b: string, d: string, v: string, rest: string)
    requires Begins(s, name, b, d, v, rest)
    ensures PropertyAt(s) == Some((Bind(Lower(name), v), rest))
  {
    RegroupBegins(name, b, d, v, rest);
    var tail := b + ("=" + (d + (v + rest)));
    NameOver(name, tail);
    assert s[|name|..] == tail;
    TailIsRead(b, d, v, rest);
  }

  lemma TailIsRead(b: string, d: string, v: string, rest: string)
    requires Spaces(b) && Spaces(d) && Value(v) && (rest == [] || EndsValue(rest[0]))
    ensures SkipSpace(b + ("=" + (d + (v + rest)))) == "=" + (d + (v + rest))
    ensures ("=" + (d + (v + rest)))[1..] == d + (v + rest) && SkipSpace(d + (v + rest)) == v + rest
    ensures Until(v + rest, EndsValue) == v && (v + rest)[|v|..] == rest
  {
    SkipSpaceOver(b, "=" + (d + (v + rest)));
    ValueIsTight(v);
    SkipSpaceOver(d, v + rest);
    UntilOver(v, rest, EndsValue);
  }

  lemma ReadBegins(s: string) returns (name: string, b: string, d: string, v: string, rest: string)
    requires PropertyAt(s).Some?
    ensures Begins(s, name, b, d, v, rest) && PropertyAt(s) == Some((Bind(Lower(name), v), rest))
  {
    NameSplits(s);
    var n := |PropertyName(s).value|;
    name := s[..n];
    var eq := SkipSpace(s[n..]);
    b := SkipSpaceSplits(s[n..]);
    d, v, rest := ReadTail(eq);
    Rejoin(s, n, b, eq);
    RegroupBegins(name, b, d, v, rest);
    NotEmpty(s, v);
  }

  lemma Rejoin(s: string, n: nat, b: string, eq: string)
    requires n <= |s| && s[n..] == b + eq
    ensures s == s[..n] + (b + eq)
  {}

  lemma NotEmpty(s: string, v: string)
    requires NoneOf(v, EndsValue) && v != []
    ensures Value(v)
  {}

  lemma ReadTail(eq: string) returns (d: string, v: string, rest: string)
    requires StartsWith(eq, '=')
    ensures var tail := SkipSpace(eq[1..]);
      && v == Until(tail, EndsValue) && rest == tail[|v|..] && eq == "=" + (d + (v + rest)) && Spaces(d)
      && NoneOf(v, EndsValue) && (rest == [] || EndsValue(rest[0])) && v + rest == tail
  {
    var tail := SkipSpace(eq[1..]);
    d := SkipSpaceSplits(eq[1..]);
    UntilSplits(tail, EndsValue);
    v, rest := Until(tail, EndsValue), tail[|Until(tail, EndsValue)|..];
    HeadOf(eq, '=');
    assert tail == v + rest && eq[1..] == d + (v + rest);
  }

  lemma RegroupBegins(name: string, b: string, d: string, v: string, rest: string)
    ensures name + (b + ("=" + (d + (v + rest)))) == name + b + "=" + d + v + rest
  {}

  /** Every property reported comes from an occurrence in the text of its own name, '=' and its
      value. */
  lemma {:induction false} PropertySource(s: string, x: Binding)
    returns (before: string, name: string, b: string, d: string, v: string, rest: string)
    requires x in Properties(s)
    ensures before <= s && Begins(s[|before|..], name, b, d, v, rest)
    ensures x == Bind(Lower(name), v)
    decreases |s|
  {
    var p := PropertyAt(s);
    if p.None? {
      before, name, b, d, v, rest := PropertySource(s[1..], x);
      before := Deeper([s[0]], s[1..], before);
      assert s == [s[0]] + s[1..];
    } else {
      name, b, d, v, rest := ReadBegins(s);
      if x == p.value.0 {
        before := [];
        assert s[0..] == s;
      } else {
        var head := name + b + "=" + d + v;
        before, name, b, d, v, rest := PropertySource(p.value.1, x);
        before := Deeper(head, p.value.1, before);
      }
    }
  }

  lemma Deeper(head: string, tail: string, before: string) returns (r: string)
    requires before <= tail
    ensures r <= head + tail && (head + tail)[|r|..] == tail[|before|..]
  {
    r := head + before;
    assert head + tail == r + tail[|before|..];
  }

  // ---- What a name and a value are reported as

  lemma AngleFree(l: string, w: string, r: string)
    requires Every(l, IsAngle) && Every(r, IsAngle) && w != [] && !IsAngle(w[0]) && !IsAngle(w[|w| - 1])
    ensures TrimRight(TrimLeft(l + w + r, IsAngle), IsAngle) == w
  {
    assert l + w + r == l + (w + r);
    TrimLeftOver(l, w + r, IsAngle);
    TrimRightOver(w, r, IsAngle);
  }

  lemma {:induction false} AfterLastAtOver(a: string, host: string)
    requires NoneOf(host, IsAt) && (a == [] || IsAt(a[|a| - 1]))
    ensures AfterLastAt(a + host) == host
  {
    if host == [] {
      assert a + host == a;
    } else {
      assert (a + host)[..|a + host| - 1] == a + host[..|host| - 1];
      AfterLastAtOver(a, host[..|host| - 1]);
    }
  }

  /** The domain of `<local@host>`, with or without brackets and local part: the host in small
      letters, reported for header.from as the DMARC domain and for smtp.mailfrom as the SPF one. */
  lemma AddressMeans(l: string, local: string, host: string, r: string)
    requires Every(l, IsAngle) && Every(r, IsAngle) && (local == [] || IsAt(local[|local| - 1]))
    requires host != [] && NoneOf(host, IsAt) && NoneOf(host, IsSpace)
    requires !IsAngle((local + host)[0]) && !IsAngle(host[|host| - 1])
    ensures var v := l + (local + host) + r;
      && Bind("header.from", v) == ("dmarc_from", Lower(host))
      && Bind("smtp.mailfrom", v) == ("spf_domain", Lower(host))
  {
    AngleFree(l, local + host, r);
    LowerSplits(local, host);
    AddressHost(local, host);
  }

  lemma AddressHost(local: string, host: string)
    requires local == [] || IsAt(local[|local| - 1])
    requires host != [] && NoneOf(host, IsAt) && NoneOf(host, IsSpace)
    ensures AddressDomain(Lower(local) + Lower(host)) == Lower(host)
  {
    var low := Lower(host);
    LowerHasNoAt(host);
    AfterLastAtOver(Lower(local), low);
    LowerKeepsSpaces(host);
    TrimTight(low);
    LowerTwice(host);
  }

  lemma LowerHasNoAt(s: string)
    requires NoneOf(s, IsAt)
    ensures NoneOf(Lower(s), IsAt)
  {
    forall i | 0 <= i < |s| ensures !IsAt(Lower(s)[i]) { assert !IsAt(s[i]); }
  }

  lemma LowerTwice(s: string)
    ensures Lower(Lower(s)) == Lower(s)
  {}

  lemma TrimTight(s: string)
    requires Tight(s)
    ensures Trim(s) == s
  {
    TrimOver([], s, []);
    assert [] + s + [] == s;
  }

  /** A `header.d` value is reported as the DKIM domain, without brackets and leading '@'. */
  lemma SignerMeans(l: string, ats: string, host: string, r: string)
    requires Every(l, IsAngle) && Every(r, IsAngle) && Every(ats, IsAt)
    requires host != [] && !IsAt(host[0]) && !IsAngle((ats + host)[0]) && !IsAngle(host[|host| - 1])
    ensures Bind("header.d", l + (ats + host) + r) == ("dkim_domain", Lower(host))
  {
    AngleFree(l, ats + host, r);
    LowerSplits(ats, host);
    assert Lower(ats) == ats by { assert NoneOf(ats, IsCapital); LowerIsIdentity(ats); }
    TrimLeftOver(ats, Lower(host), IsAt);
  }

  // ---- Whole clauses

  lemma {:induction false} OneClause(raw: string)
    requires forall i :: 0 <= i < |raw| ==> raw[i] != ';' && raw[i] != '\n'
    ensures Clauses(raw) == [raw]
  {
    if raw != [] {
      OneClause(raw[1..]);
      assert raw == [raw[0]] + raw[1..];
    }
  }

  /** No separator, and no space at the ends. */
  predicate IsClause(raw: string) { Tight(raw) && forall i :: 0 <= i < |raw| ==> raw[i] != ';' && raw[i] != '\n' }

  /** A text that is one tight clause reports that clause's bindings. */
  lemma ClauseVerdicts(raw: string)
    requires IsClause(raw)
    ensures Bindings(raw) == Mechanism(raw) + Properties(raw)
  {
    OneClause(raw);
    TrimOver([], raw, []);
    assert [] + raw + [] == raw;
    assert [raw][..0] == ([raw][1..]);
    assert ReadAll([raw]) == ReadClause(raw);
  }

  lemma OneBinding(b: Binding)
    ensures FirstWins([b]) == map[b.0 := b.1]
  {
    var none: seq<Binding> := [];
    assert [b][..0] == none;
  }

  lemma TwoBindings(a: Binding, b: Binding)
    requires a.0 != b.0
    ensures FirstWins([a, b]) == map[a.0 := a.1, b.0 := b.1]
  {
    OneBinding(a);
    assert [a, b][..1] == [a];
  }

  lemma NamePrefix(name: string) returns (n: nat)
    requires IsName(name)
    ensures 0 < n < |name| && name[n] == '.' && NoneOf(name[..n], EndsWord)
  {
    n := if name == "smtp.mailfrom" then 4 else 6;
    if name == "smtp.mailfrom" { assert name[..n] == "smtp"; } else { assert name[..n] == "header"; }
    forall i | 0 <= i < n ensures !EndsWord(name[..n][i]) {}
  }

  lemma NameIsNoMechanism(name: string, rest: string)
    requires IsName(name)
    ensures Mechanism(name + rest) == []
  {
    var n := NamePrefix(name);
    Rejoin3(name, n, rest);
    UntilOver(name[..n], name[n..] + rest, EndsWord);
  }

  lemma Rejoin3(name: string, n: nat, rest: string)
    requires n <= |name|
    ensures name + rest == name[..n] + (name[n..] + rest) && (name + rest)[n..] == name[n..] + rest
  {}

  lemma PlainBind(name: string, v: string)
    requires IsName(name) && Plain(v)
    ensures Bind(name, v) == (KeyFor(name), v)
  {
    ValueIsTight(v);
    PlainHasNoSpace(v);
    LowerIsIdentity(v);
    assert [] + ([] + v) + [] == v && [] + v == v;
    if name == "header.d" { SignerMeans([], [], v, []); } else { AddressMeans([], [], v, []); }
  }

  function KeyFor(name: string): string {
    if name == "header.from" then "dmarc_from" else if name == "header.d" then "dkim_domain" else "spf_domain"
  }

  lemma {:induction false} NoNameNoProperty(s: string)
    requires NoneOf(s, IsDot)
    ensures Properties(s) == []
  {
    if s != [] {
      NoDotNoName(s);
      NoNameNoProperty(s[1..]);
    }
  }

  lemma NoDotNoName(s: string)
    requires NoneOf(s, IsDot)
    ensures PropertyName(s) == None
  {
    if PropertyName(s).Some? {
      NameSplits(s);
      DotInName(s, |PropertyName(s).value|);
    }
  }

  lemma DotInName(s: string, n: nat)
    requires n <= |s| && IsName(Lower(s[..n]))
    ensures exists k :: 0 <= k < n && IsDot(s[k])
  {
    var low := Lower(s[..n]);
    var k := if low == "smtp.mailfrom" then 4 else 6;
    assert low[k] == '.' && IsDot(s[k]);
  }

  /** Text without dots that ends in a space hides no property and cuts none off. */
  lemma {:induction false} PropertiesAfter(before: string, s: string)
    requires NoneOf(before, IsDot) && (before == [] || before[|before| - 1] == ' ')
    ensures Properties(before + s) == Properties(s)
  {
    if before == [] {
      assert before + s == s;
    } else {
      NoNameAcross(before, s);
      assert (before + s)[1..] == before[1..] + s;
      PropertiesAfter(before[1..], s);
    }
  }

  lemma NoNameAcross(before: string, s: string)
    requires NoneOf(before, IsDot) && before != [] && before[|before| - 1] == ' '
    ensures PropertyName(before + s) == None
  {
    forall j | 0 <= j < |before| ensures (before + s)[j] != '.' { assert !IsDot(before[j]); }
    SpaceBeforeDot(before + s, |before|);
  }

  lemma SpaceBeforeDot(x: string, m: nat)
    requires 0 < m <= |x| && x[m - 1] == ' ' && forall j :: 0 <= j < m ==> x[j] != '.'
    ensures PropertyName(x) == None
  {
    if PropertyName(x).Some? { NameShape(x); }
  }

  /** A name holds a dot and no space. */
  lemma NameShape(x: string)
    requires PropertyName(x).Some?
    ensures var n := |PropertyName(x).value|;
      n <= |x| && (exists k :: 0 <= k < n && x[k] == '.') && forall j :: 0 <= j < n ==> x[j] != ' '
  {
    NameSplits(x);
    var name := PropertyName(x).value;
    var low := Lower(x[..|name|]);
    var k := if name == "smtp.mailfrom" then 4 else 6;
    assert low[k] == '.' && x[k] == '.';
    forall j | 0 <= j < |name| ensures x[j] != ' ' { assert low[j] == name[j] != ' '; }
  }

  /** The verdicts of `name=value`, for each of the three names and every plain value. */
  lemma PropertyVerdict(name: string, v: string)
    requires IsName(name) && Plain(v)
    ensures Verdicts(name + "=" + v) ==
      map[(if name == "header.from" then "dmarc_from" else if name == "header.d" then "dkim_domain" else "spf_domain") := v]
  {
    PlainBind(name, v);
    NamedVerdict(name, v, v);
  }

  /** The same for addresses: the part after the last '@' counts. */
  lemma AddressVerdict(name: string, local: string, v: string)
    requires name == "header.from" || name == "smtp.mailfrom"
    requires Value(local) && NoneOf(local, IsAngle) && Plain(v)
    ensures Verdicts(name + "=" + (local + "@" + v)) ==
      map[(if name == "header.from" then "dmarc_from" else "spf_domain") := v]
  {
    AddressIsValue(local, v);
    AddressBind(name, local + "@", v);
    NamedVerdict(name, local + "@" + v, v);
  }

  lemma AddressIsValue(local: string, v: string)
    requires Value(local) && Plain(v)
    ensures Value(local + "@" + v)
  {}

  lemma AddressBind(name: string, a: string, v: string)
    requires name == "header.from" || name == "smtp.mailfrom"
    requires a != [] && IsAt(a[|a| - 1]) && !IsAngle(a[0]) && Plain(v)
    ensures Bind(name, a + v) == (KeyFor(name), v)
  {
    PlainHasNoSpace(v);
    LowerIsIdentity(v);
    assert [] + (a + v) + [] == a + v;
    AddressMeans([], a, v, []);
  }

  lemma PlainHasNoSpace(v: string)
    requires Value(v)
    ensures NoneOf(v, IsSpace)
  {
    forall i | 0 <= i < |v| ensures !IsSpace(v[i]) { assert !EndsValue(v[i]); }
  }

  lemma NamedProperty(name: string, w: string)
    requires IsName(name) && Value(w)
    ensures Properties(name + "=" + w) == [Bind(name, w)]
  {
    LowerIsIdentity(name);
    assert name + "=" + w == name + [] + "=" + [] + w + [];
    BeginsIsRead(name + "=" + w, name, [], [], w, []);
  }

  lemma NamedVerdict(name: string, w: string, v: string)
    requires IsName(name) && Value(w) && Bind(name, w) == (KeyFor(name), v)
    ensures Verdicts(name + "=" + w) == map[KeyFor(name) := v]
  {
    NamedBindings(name, w);
    OneBinding(Bind(name, w));
  }

  lemma NamedBindings(name: string, w: string)
    requires IsName(name) && Value(w)
    ensures Bindings(name + "=" + w) == [Bind(name, w)]
  {
    NamedIsClause(name, w);
    NamedProperty(name, w);
    NamedHasNoMechanism(name, w);
    ClauseBindings(name + "=" + w, [], [Bind(name, w)]);
  }

  lemma NamedIsClause(name: string, w: string)
    requires IsName(name) && Value(w)
    ensures IsClause(name + "=" + w)
  {
    NameIsPlain(name);
    ValueIsClause(name + "=", w);
  }

  lemma NamedHasNoMechanism(name: string, w: string)
    requires IsName(name)
    ensures Mechanism(name + "=" + w) == []
  {
    NameIsNoMechanism(name, "=" + w);
    TextAssoc(name, "=", w);
  }

  lemma ClauseBindings(raw: string, a: seq<Binding>, b: seq<Binding>)
    requires IsClause(raw) && Mechanism(raw) == a && Properties(raw) == b
    ensures Bindings(raw) == a + b
  {
    ClauseVerdicts(raw);
  }

  lemma NameIsPlain(name: string)
    requires IsName(name)
    ensures name != [] && !IsSpace(name[0]) && forall i :: 0 <= i < |name| ==> name[i] != ';' && name[i] != '\n'
  {}

  lemma ValueIsClause(before: string, w: string)
    requires Value(w) && forall i :: 0 <= i < |before| ==> before[i] != ';' && before[i] != '\n'
    requires before != [] && !IsSpace(before[0])
    ensures IsClause(before + w)
  {
    ValueIsTight(w);
    forall i | 0 <= i < |w| ensures w[i] != ';' && w[i] != '\n' { assert !EndsValue(w[i]); }
  }

  lemma WordIsValue(w: string)
    requires Word(w)
    ensures Value(w) && NoneOf(w, IsDot)
  {
    WordIsUnbroken(w);
    forall i | 0 <= i < |w| ensures !EndsValue(w[i]) && !IsDot(w[i]) { assert !EndsWord(w[i]); }
  }

  lemma MechanismOver(m: string, w: string, rest: string)
    requires IsMechanism(Lower(m)) && Word(w) && (rest == [] || EndsWord(rest[0]))
    ensures Mechanism(m + "=" + w + rest) == [(Lower(m), Lower(w))]
  {
    MechanismIsWord(m);
    WordIsTight(w);
    assert m + "=" + w + rest == m + ("=" + (w + rest));
    MechanismParts(m, w, rest);
  }

  lemma MechanismIsWord(m: string)
    requires IsMechanism(Lower(m))
    ensures Word(m)
  {
    forall i | 0 <= i < |m| ensures IsLetterOrDigit(m[i]) { assert IsLetterOrDigit(Lower(m)[i]); }
  }

  lemma WordIsTight(w: string)
    requires Word(w)
    ensures !IsSpace(w[0])
  {
    ClassesMean(w[0]);
  }

  lemma MechanismParts(m: string, w: string, rest: string)
    requires Word(m) && Word(w) && !IsSpace(w[0]) && (rest == [] || EndsWord(rest[0]))
    ensures var s := m + ("=" + (w + rest));
      && Until(s, EndsWord) == m && SkipSpace(s[|m|..]) == "=" + (w + rest)
      && Until(SkipSpace(("=" + (w + rest))[1..]), EndsWord) == w
  {
    var tail := "=" + (w + rest);
    WordIsUnbroken(m);
    WordIsUnbroken(w);
    UntilOver(m, tail, EndsWord);
    assert (m + tail)[|m|..] == tail && tail[1..] == w + rest;
    UntilOver(w, rest, EndsWord);
  }

  lemma MechanismIsPlain(m: string)
    requires IsMechanism(Lower(m))
    ensures m != [] && NoneOf(m, IsDot) && !IsSpace(m[0]) && forall i :: 0 <= i < |m| ==> m[i] != ';' && m[i] != '\n'
  {
    MechanismIsWord(m);
    WordIsTight(m);
  }

  /** `mechanism=word`, in any letter case, reports exactly that verdict, in small letters. */
  lemma MechanismVerdict(m: string, w: string)
    requires Lower(m) == "dmarc" || Lower(m) == "dkim" || Lower(m) == "spf" || Lower(m) == "arc"
    requires Word(w)
    ensures Verdicts(m + "=" + w) == map[Lower(m) := Lower(w)]
  {
    var raw := m + "=" + w;
    WordIsValue(w);
    MechanismIsPlain(m);
    ValueIsClause(m + "=", w);
    ClauseVerdicts(raw);
    MechanismOver(m, w, []);
    assert raw + [] == raw;
    NoNameNoProperty(raw);
    OneBinding((Lower(m), Lower(w)));
  }

  /** The usual clause, `mechanism=word name=value`, reports both. */
  lemma UsualClause(m: string, w: string, name: string, v: string)
    requires Lower(m) == "dmarc" || Lower(m) == "dkim" || Lower(m) == "spf" || Lower(m) == "arc"
    requires Word(w) && IsName(name) && Plain(v)
    ensures Verdicts(m + "=" + w + " " + name + "=" + v) ==
      map[Lower(m) := Lower(w),
          (if name == "header.from" then "dmarc_from" else if name == "header.d" then "dkim_domain" else "spf_domain") := v]
  {
    var before, property := m + "=" + w + " ", name + "=" + v;
    UsualMechanism(m, w, property);
    UsualProperties(m, w, name, v);
    UsualClauseIs(m, w, name, v);
    PlainBind(name, v);
    ClauseBindings(before + property, [(Lower(m), Lower(w))], [(KeyFor(name), v)]);
    UsualText(m, w, name, v);
    BothBindings(before + property, (Lower(m), Lower(w)), (KeyFor(name), v));
  }

  lemma UsualText(m: string, w: string, name: string, v: string)
    ensures m + "=" + w + " " + name + "=" + v == (m + "=" + w + " ") + (name + "=" + v)
  {}

  lemma UsualMechanism(m: string, w: string, property: string)
    requires IsMechanism(Lower(m)) && Word(w)
    ensures Mechanism(m + "=" + w + " " + property) == [(Lower(m), Lower(w))]
  {
    MechanismOver(m, w, " " + property);
    TextAssoc(m + "=" + w, " ", property);
  }

  lemma UsualProperties(m: string, w: string, name: string, v: string)
    requires IsMechanism(Lower(m)) && Word(w) && IsName(name) && Value(v)
    ensures Properties((m + "=" + w + " ") + (name + "=" + v)) == [Bind(name, v)]
  {
    WordIsValue(w);
    MechanismIsPlain(m);
    PropertiesAfter(m + "=" + w + " ", name + "=" + v);
    NamedProperty(name, v);
  }

  lemma UsualClauseIs(m: string, w: string, name: string, v: string)
    requires IsMechanism(Lower(m)) && Word(w) && IsName(name) && Value(v)
    ensures IsClause((m + "=" + w + " ") + (name + "=" + v))
  {
    MechanismIsPlain(m);
    WordIsValue(w);
    ValueIsClause(m + "=", w);
    UsualIsClause(m + "=" + w + " ", name, v);
  }

  lemma BothBindings(raw: string, a: Binding, b: Binding)
    requires Bindings(raw) == [a] + [b] && a.0 != b.0
    ensures Verdicts(raw) == map[a.0 := a.1, b.0 := b.1]
  {
    assert [a] + [b] == [a, b];
    TwoBindings(a, b);
  }

  lemma UsualIsClause(before: string, name: string, v: string)
    requires before != [] && !IsSpace(before[0]) && IsName(name) && Value(v)
    requires forall i :: 0 <= i < |before| ==> before[i] != ';' && before[i] != '\n'
    ensures IsClause(before + (name + "=" + v))
  {
    assert before + (name + "=" + v) == (before + name + "=") + v;
    ValueIsClause(before + name + "=", v);
  }
}

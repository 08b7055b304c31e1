/** Splitting and reading `Authentication-Results` fields (auth.py; sections 2.2 and 2.5 of
    RFC 8601). Letter case is ASCII. */
module AuthResults {
  import opened Tasks

  // ---- Field starts and authserv-ids

  /** Python's whitespace, for `strip`, `split` and the pattern class alike. */
  predicate IsSpace(c: char) {
    var n := c as int;
    9 <= n <= 13 || 28 <= n <= 32 || n == 0x85 || n == 0xA0 || n == 0x1680 || 0x2000 <= n <= 0x200A
    || n == 0x2028 || n == 0x2029 || n == 0x202F || n == 0x205F || n == 0x3000
  }

  predicate IsIdChar(c: char) {
    'A' <= c <= 'Z' || 'a' <= c <= 'z' || '0' <= c <= '9' || c in "._-"
  }

  predicate IsSemicolon(c: char) { c == ';' }

  predicate IsDot(c: char) { c == '.' }

  function SkipSpace(s: string): (r: string)
    ensures |r| <= |s|
  {
    if s != [] && IsSpace(s[0]) then SkipSpace(s[1..]) else s
  }

  function SkipId(s: string): string { if s != [] && IsIdChar(s[0]) then SkipId(s[1..]) else s }

  /** What follows the next ')', if there is one. */
  function AfterParen(s: string): Option<string> {
    if s == [] then None else if s[0] == ')' then Some(s[1..]) else AfterParen(s[1..])
  }

  predicate StartsWith(s: string, c: char) { s != [] && s[0] == c }

  /** A new field: an authserv-id, an optional comment in parentheses, and ';'. */
  predicate FieldStart(line: string) {
    var a := SkipSpace(line);
    var b := SkipId(a);
    var d := SkipSpace(b);
    |b| < |a| &&
    (StartsWith(d, ';') ||
     (|d| < |b| && StartsWith(d, '(') && AfterParen(d[1..]).Some?
      && StartsWith(SkipSpace(AfterParen(d[1..]).value), ';')))
  }

  function Until(s: string, p: char -> bool): (r: string)
    ensures |r| <= |s|
  {
    if s == [] || p(s[0]) then [] else [s[0]] + Until(s[1..], p)
  }

  function TrimRight(s: string, p: char -> bool): string {
    if s != [] && p(s[|s| - 1]) then TrimRight(s[..|s| - 1], p) else s
  }

  function Trim(s: string): string { TrimRight(SkipSpace(s), IsSpace) }

  function Lower(s: string): string {
    seq(|s|, i requires 0 <= i < |s| => if 'A' <= s[i] <= 'Z' then (s[i] as int + 32) as char else s[i])
  }

  /** Lower-casing identifies exactly the texts that differ in the case of ASCII letters only. */
  lemma LowerMeans(a: string, b: string)
    ensures Lower(a) == Lower(b) <==> |a| == |b| && forall i :: 0 <= i < |a| ==> SameLetter(a[i], b[i])
  {
    if Lower(a) == Lower(b) {
      forall i | 0 <= i < |a| ensures SameLetter(a[i], b[i]) { assert Lower(a)[i] == Lower(b)[i]; }
    }
  }

  /** Equal, or the small and the capital form of one ASCII letter. */
  predicate SameLetter(x: char, y: char) {
    x == y || ('A' <= x <= 'Z' && y as int == x as int + 32) || ('A' <= y <= 'Z' && x as int == y as int + 32)
  }

  /** The first word before the first ';'. */
  function AuthServId(block: string): string {
    Until(Trim(Until(block, IsSemicolon)), IsSpace)
  }

  function Domain(s: string): string { TrimRight(Lower(Trim(s)), IsDot) }

  /** The configured domain itself or a subdomain of it. */
  predicate Matches(servId: string, configured: string) {
    var s, d := Domain(servId), Domain(configured);
    d != [] && (s == d || (|s| > |d| && s[|s| - |d| - 1..] == "." + d))
  }

  // ---- Lines

  /** The characters at which `splitlines` breaks. */
  predicate IsBreak(c: char) {
    var n := c as int;
    10 <= n <= 13 || 28 <= n <= 30 || n == 0x85 || n == 0x2028 || n == 0x2029
  }

  function Line(s: string): (r: string)
    ensures |r| <= |s| && (|r| < |s| ==> IsBreak(s[|r|]))
  {
    if s == [] || IsBreak(s[0]) then [] else [s[0]] + Line(s[1..])
  }

  /** The length of the line break at the head of `s`. */
  function BreakLength(s: string): (n: nat)
    requires s != [] && IsBreak(s[0])
    ensures 0 < n <= |s|
  {
    if |s| > 1 && s[0] == '\r' && s[1] == '\n' then 2 else 1
  }

  /** `raw.splitlines()`. */
  function Lines(raw: string): seq<string>
    decreases |raw|
  {
    if raw == [] then []
    else
      var rest := raw[|Line(raw)|..];
      [Line(raw)] + if rest == [] then [] else Lines(rest[BreakLength(rest)..])
  }

  /** Nothing, or whole lines up to a line feed. */
  predicate WholeLines(s: string) { s == [] || s[|s| - 1] == '\n' }

  lemma {:induction false} LineStops(a: string, b: string)
    requires a != [] && a[|a| - 1] == '\n'
    ensures Line(a + b) == Line(a) && |Line(a)| < |a|
  {
    if !IsBreak(a[0]) {
      assert (a + b)[1..] == a[1..] + b;
      LineStops(a[1..], b);
    }
  }

  lemma BreakStops(rest: string, b: string)
    requires rest != [] && IsBreak(rest[0]) && rest[|rest| - 1] == '\n'
    ensures BreakLength(rest + b) == BreakLength(rest) && WholeLines(rest[BreakLength(rest)..])
    ensures (rest + b)[BreakLength(rest)..] == rest[BreakLength(rest)..] + b
  {}

  /** Text after a line feed is split on its own. */
  lemma {:induction false} LinesAppend(a: string, b: string)
    requires WholeLines(a)
    ensures Lines(a + b) == Lines(a) + Lines(b)
    decreases |a|
  {
    if a == [] {
      assert a + b == b;
    } else {
      LineStops(a, b);
      var rest := a[|Line(a)|..];
      var n := BreakLength(rest);
      assert (a + b)[|Line(a)|..] == rest + b;
      BreakStops(rest, b);
      LinesAppend(rest[n..], b);
      LinesAssoc([Line(a)], Lines(rest[n..]), Lines(b));
    }
  }

  lemma LinesAssoc(x: seq<string>, y: seq<string>, z: seq<string>)
    ensures x + (y + z) == (x + y) + z
  {}

  // ---- Splitting

  type Field = seq<string>

  predicate Blank(line: string) { SkipSpace(line) == [] }

  /** The finished fields and the one being collected, after reading all the lines. */
  function Split(lines: seq<string>): (seq<Field>, Field) {
    if lines == [] then ([], [])
    else
      var (done, current) := Split(lines[..|lines| - 1]);
      var line := lines[|lines| - 1];
      if FieldStart(line) then (Closed(done, current), [line])
      else if current != [] then (done, current + [line])
      else if !Blank(line) then (done, [line])
      else (done, current)
  }

  function Closed(done: seq<Field>, current: Field): seq<Field> {
    if current == [] then done else done + [current]
  }

  function Fields(lines: seq<string>): seq<Field> { Closed(Split(lines).0, Split(lines).1) }

  /** `_auth_results_blocks`. */
  method AuthResultsBlocks(raw: string) returns (blocks: seq<Field>)
    ensures blocks == Fields(Lines(raw))
  {
    var lines := Lines(raw);
    blocks := [];
    var current: Field := [];
    for n := 0 to |lines|
      invariant (blocks, current) == Split(lines[..n])
    {
      assert lines[..n + 1][..n] == lines[..n];
      var line := lines[n];
      if FieldStart(line) {
        if current != [] { blocks := blocks + [current]; }
        current := [line];
      } else if current != [] {
        current := current + [line];
      } else if !Blank(line) {
        current := [line];
      }
    }
    assert lines[..|lines|] == lines;
    if current != [] { blocks := blocks + [current]; }
  }

  predicate OpensField(lines: seq<string>) { lines == [] || FieldStart(lines[0]) }

  /** Lines that open a field never join what came before them. */
  lemma {:induction false} SplitAppends(x: seq<string>, y: seq<string>)
    requires y != [] && FieldStart(y[0])
    ensures Split(x + y) == (Fields(x) + Split(y).0, Split(y).1) && Split(y).1 != []
  {
    var last := |y| - 1;
    assert (x + y)[..|x + y| - 1] == x + y[..last] && (x + y)[|x + y| - 1] == y[last];
    if last == 0 {
      assert x + y[..0] == x && Split(y[..0]) == ([], []);
      assert Split(y) == ([], [y[0]]) && Fields(x) + [] == Fields(x);
    } else {
      SplitAppends(x, y[..last]);
      var (done, current) := Split(y[..last]);
      assert Fields(x) + done + [current] == Fields(x) + (done + [current]);
    }
  }

  lemma FieldsAppend(x: seq<string>, y: seq<string>)
    requires OpensField(y)
    ensures Fields(x + y) == Fields(x) + Fields(y)
  {
    if y == [] {
      assert x + y == x && Fields(y) == [];
    } else {
      SplitAppends(x, y);
    }
  }

  function Flatten(fs: seq<Field>): seq<string> {
    if fs == [] then [] else Flatten(fs[..|fs| - 1]) + fs[|fs| - 1]
  }

  function DropBlank(lines: seq<string>): seq<string> {
    if lines == [] then []
    else
      var front := DropBlank(lines[..|lines| - 1]);
      if front == [] && Blank(lines[|lines| - 1]) then [] else front + [lines[|lines| - 1]]
  }

  predicate WholeField(f: Field) { f != [] && forall k :: 0 < k < |f| ==> !FieldStart(f[k]) }

  lemma FlattenClosed(done: seq<Field>, current: Field)
    ensures Flatten(Closed(done, current)) == Flatten(done) + current
  {
    if current != [] { assert (done + [current])[..|done|] == done; }
  }

  lemma {:induction false} SplitCovers(lines: seq<string>)
    ensures var (done, current) := Split(lines);
      && Flatten(done) + current == DropBlank(lines)
      && (current == [] ==> done == [] && DropBlank(lines) == [])
      && (forall f :: f in done ==> WholeField(f))
      && (current != [] ==> WholeField(current))
  {
    if lines != [] {
      SplitCovers(lines[..|lines| - 1]);
      var (done, current) := Split(lines[..|lines| - 1]);
      var line := lines[|lines| - 1];
      FlattenClosed(done, current);
      assert Blank(line) ==> !FieldStart(line);
      assert Flatten(done) + (current + [line]) == (Flatten(done) + current) + [line];
    }
  }

  predicate Opens(f: Field) { f != [] && FieldStart(f[0]) }

  /** Every field but the first begins with a field start. */
  lemma {:induction false} SplitStarts(lines: seq<string>)
    ensures var (done, current) := Split(lines);
      && (forall k :: 0 < k < |done| ==> Opens(done[k]))
      && (done != [] ==> Opens(current))
  {
    if lines != [] {
      SplitStarts(lines[..|lines| - 1]);
    }
  }

  /** The fields are the lines themselves, cut exactly at the field starts; only leading blank
      lines are lost. */
  lemma FieldsCover(lines: seq<string>)
    ensures Flatten(Fields(lines)) == DropBlank(lines)
    ensures forall f :: f in Fields(lines) ==> WholeField(f)
    ensures forall k :: 0 < k < |Fields(lines)| ==> Opens(Fields(lines)[k])
  {
    SplitCovers(lines);
    SplitStarts(lines);
    FlattenClosed(Split(lines).0, Split(lines).1);
  }

  /** Whole fields, each but the first beginning with a field start. */
  predicate CutAtStarts(fs: seq<Field>) {
    (forall f :: f in fs ==> WholeField(f)) && forall k :: 0 < k < |fs| ==> Opens(fs[k])
  }

  lemma InnerLine(p: seq<string>, f: Field, q: seq<string>, g: Field)
    requires p + f == q + g && 0 < |f| < |g|
    ensures f[0] == g[|g| - |f|]
  {
    assert (p + f)[|p|] == f[0] && (q + g)[|q| + (|g| - |f|)] == g[|g| - |f|];
  }

  /** A field start is never inside the last field. */
  lemma LastFieldsAgree(fs: seq<Field>, gs: seq<Field>)
    requires CutAtStarts(fs) && CutAtStarts(gs) && Flatten(fs) == Flatten(gs) && fs != [] && gs != []
    ensures |fs[|fs| - 1]| >= |gs[|gs| - 1]|
  {
    var f, g := fs[|fs| - 1], gs[|gs| - 1];
    assert f in fs && g in gs;
    if |f| < |g| { InnerLine(Flatten(fs[..|fs| - 1]), f, Flatten(gs[..|gs| - 1]), g); }
  }

  lemma FlattenEmpty(fs: seq<Field>)
    requires CutAtStarts(fs)
    ensures Flatten(fs) == [] <==> fs == []
  {
    if fs != [] { assert fs[|fs| - 1] in fs; }
  }

  lemma {:induction false} CutIsUnique(fs: seq<Field>, gs: seq<Field>)
    requires CutAtStarts(fs) && CutAtStarts(gs) && Flatten(fs) == Flatten(gs)
    ensures fs == gs
  {
    FlattenEmpty(fs);
    FlattenEmpty(gs);
    if fs != [] {
      LastFieldsAgree(fs, gs);
      LastFieldsAgree(gs, fs);
      SplitTail(Flatten(fs[..|fs| - 1]), fs[|fs| - 1], Flatten(gs[..|gs| - 1]), gs[|gs| - 1]);
      CutIsUnique(fs[..|fs| - 1], gs[..|gs| - 1]);
      assert fs == fs[..|fs| - 1] + [fs[|fs| - 1]] && gs == gs[..|gs| - 1] + [gs[|gs| - 1]];
    }
  }

  lemma SplitTail(p: seq<string>, f: Field, q: seq<string>, g: Field)
    requires p + f == q + g && |f| == |g|
    ensures p == q && f == g
  {
    assert p == (p + f)[..|p|] && q == (q + g)[..|q|];
    assert f == (p + f)[|p|..] && g == (q + g)[|q|..];
  }

  /** There is no other way to cut the lines into whole fields at the field starts. */
  lemma FieldsAreTheCut(lines: seq<string>, fs: seq<Field>)
    ensures fs == Fields(lines) <==> CutAtStarts(fs) && Flatten(fs) == DropBlank(lines)
  {
    FieldsCover(lines);
    if CutAtStarts(fs) && Flatten(fs) == DropBlank(lines) { CutIsUnique(fs, Fields(lines)); }
  }

  // ---- Trust

  function JoinLines(q: seq<string>): string {
    if q == [] then [] else if |q| == 1 then q[0] else q[0] + "\n" + JoinLines(q[1..])
  }

  predicate Trusts(configured: string, f: Field) { configured == [] || Matches(AuthServId(JoinLines(f)), configured) }

  function TrustedFields(configured: string, fs: seq<Field>): seq<Field> {
    if fs == [] then []
    else (if Trusts(configured, fs[0]) then [fs[0]] else []) + TrustedFields(configured, fs[1..])
  }

  function Blocks(fs: seq<Field>): seq<string> {
    if fs == [] then [] else [JoinLines(fs[0])] + Blocks(fs[1..])
  }

  /** `_trusted_authentication_results`: None when nothing is trusted. */
  function TrustedText(configured: string, raw: string): Option<string> {
    var fs := TrustedFields(configured, Fields(Lines(raw)));
    if fs == [] then None else Some(JoinLines(Blocks(fs)))
  }

  lemma {:induction false} TrustedAppend(configured: string, x: seq<Field>, y: seq<Field>)
    ensures TrustedFields(configured, x + y) == TrustedFields(configured, x) + TrustedFields(configured, y)
  {
    if x == [] {
      assert x + y == y;
    } else {
      assert (x + y)[0] == x[0] && (x + y)[1..] == x[1..] + y;
      TrustedAppend(configured, x[1..], y);
      var first := if Trusts(configured, x[0]) then [x[0]] else [];
      JoinAssoc(first, TrustedFields(configured, x[1..]), TrustedFields(configured, y));
    }
  }

  lemma JoinAssoc(a: seq<Field>, b: seq<Field>, c: seq<Field>)
    ensures a + (b + c) == (a + b) + c
  {}

  lemma {:induction false} UntrustedVanish(configured: string, fs: seq<Field>)
    requires forall f :: f in fs ==> !Trusts(configured, f)
    ensures TrustedFields(configured, fs) == []
  {
    if fs != [] {
      assert fs[0] in fs;
      UntrustedVanish(configured, fs[1..]);
    }
  }

  lemma InsertedLinesAreDiscarded(configured: string, x: seq<string>, forged: seq<string>, y: seq<string>)
    requires OpensField(forged) && OpensField(y)
    requires forall f :: f in Fields(forged) ==> !Trusts(configured, f)
    ensures TrustedFields(configured, Fields(x + forged + y)) == TrustedFields(configured, Fields(x + y))
  {
    FieldsAppend(x + forged, y);
    FieldsAppend(x, forged);
    FieldsAppend(x, y);
    TrustedAppend(configured, Fields(x) + Fields(forged), Fields(y));
    TrustedAppend(configured, Fields(x), Fields(forged));
    TrustedAppend(configured, Fields(x), Fields(y));
    UntrustedVanish(configured, Fields(forged));
    assert TrustedFields(configured, Fields(x)) + [] == TrustedFields(configured, Fields(x));
  }

  lemma LinesOfThree(x: string, forged: string, y: string)
    requires WholeLines(x) && (WholeLines(forged) || y == [])
    ensures Lines(x + forged + y) == Lines(x) + Lines(forged) + Lines(y)
  {
    LinesAppend(x, forged + y);
    if y == [] {
      assert x + forged + y == x + forged && forged + y == forged && Lines(y) == [];
    } else {
      LinesAppend(forged, y);
      TextAssoc(x, forged, y);
      LinesAssoc(Lines(x), Lines(forged), Lines(y));
    }
  }

  lemma TextAssoc(x: string, y: string, z: string)
    ensures x + (y + z) == (x + y) + z
  {}

  /** Whole fields of other authserv-ids, inserted before, between or after the genuine ones,
      leave the trusted text unchanged. */
  lemma InsertedFieldsAreDiscarded(configured: string, x: string, forged: string, y: string)
    requires WholeLines(x) && (WholeLines(forged) || y == [])
    requires OpensField(Lines(forged)) && OpensField(Lines(y))
    requires forall f :: f in Fields(Lines(forged)) ==> !Trusts(configured, f)
    ensures TrustedText(configured, x + forged + y) == TrustedText(configured, x + y)
  {
    LinesOfThree(x, forged, y);
    LinesAppend(x, y);
    InsertedLinesAreDiscarded(configured, Lines(x), Lines(forged), Lines(y));
  }

  // ---- Verdicts

  /** `re.split(r"[;\n]", raw)`. */
  function Clauses(raw: string): (q: seq<string>)
    ensures q != []
  {
    if raw == [] then [[]]
    else if raw[0] == ';' || raw[0] == '\n' then [[]] + Clauses(raw[1..])
    else var rest := Clauses(raw[1..]); [[raw[0]] + rest[0]] + rest[1..]
  }

  lemma ClausesStep(c: char, s: string)
    ensures Clauses([c] + s) == if c == ';' || c == '\n' then [[]] + Clauses(s)
                                else [[c] + Clauses(s)[0]] + Clauses(s)[1..]
  {
    assert ([c] + s)[1..] == s;
  }

  lemma ClausesCons(c: char, t: string, z: string, more: seq<string>)
    requires Clauses(z) == Clauses(t) + more
    ensures Clauses([c] + z) == Clauses([c] + t) + more
  {
    ClausesStep(c, t);
    ClausesStep(c, z);
    FirstGrows(c, Clauses(t), more);
    LinesAssoc([[]], Clauses(t), more);
  }

  lemma Cons(x: string, y: string)
    requires x != []
    ensures x == [x[0]] + x[1..] && x + y == [x[0]] + (x[1..] + y)
  {}

  lemma {:induction false} ClausesSplit(x: string, y: string)
    requires y != [] && (y[0] == ';' || y[0] == '\n')
    ensures Clauses(x + y) == Clauses(x) + Clauses(y[1..])
  {
    if x == [] {
      Cons(y, []);
      ClausesStep(y[0], y[1..]);
      assert x + y == y;
    } else {
      ClausesSplit(x[1..], y);
      ClausesCons(x[0], x[1..], x[1..] + y, Clauses(y[1..]));
      Cons(x, y);
    }
  }

  lemma FirstGrows(c: char, a: seq<string>, b: seq<string>)
    requires a != []
    ensures [[c] + (a + b)[0]] + (a + b)[1..] == ([[c] + a[0]] + a[1..]) + b
  {}

  // ---- Reading one clause

  type Binding = (string, string)

  predicate IsWordChar(c: char) { 'A' <= c <= 'Z' || 'a' <= c <= 'z' || '0' <= c <= '9' || c == '-' }

  predicate EndsWord(c: char) { !IsWordChar(c) }

  predicate EndsValue(c: char) { IsSpace(c) || c == ';' || c == ')' }

  predicate IsAngle(c: char) { c == '<' || c == '>' }

  predicate IsAt(c: char) { c == '@' }

  predicate IsMechanism(s: string) { s == "dmarc" || s == "dkim" || s == "spf" || s == "arc" }

  /** The clause's own "mechanism = verdict", if it begins with one that is known. */
  function Mechanism(clause: string): seq<Binding> {
    var name := Until(clause, EndsWord);
    var rest := SkipSpace(clause[|name|..]);
    if name == [] || !StartsWith(rest, '=') then []
    else
      var verdict := Until(SkipSpace(rest[1..]), EndsWord);
      if verdict != [] && IsMechanism(Lower(name)) then [(Lower(name), Lower(verdict))] else []
  }

  function TrimLeft(s: string, p: char -> bool): string {
    if s != [] && p(s[0]) then TrimLeft(s[1..], p) else s
  }

  /** What follows the last '@', or everything. */
  function AfterLastAt(s: string): string {
    if s == [] || s[|s| - 1] == '@' then [] else AfterLastAt(s[..|s| - 1]) + [s[|s| - 1]]
  }

  function AddressDomain(s: string): string { Lower(Trim(AfterLastAt(s))) }

  /** The name of the property at the head of `s`, if any. */
  function PropertyName(s: string): Option<string> {
    if |s| >= 11 && Lower(s[..11]) == "header.from" then Some("header.from")
    else if |s| >= 8 && Lower(s[..8]) == "header.d" then Some("header.d")
    else if |s| >= 13 && Lower(s[..13]) == "smtp.mailfrom" then Some("smtp.mailfrom")
    else None
  }

  function Bind(name: string, raw: string): Binding {
    var value := Lower(TrimRight(TrimLeft(raw, IsAngle), IsAngle));
    if name == "header.from" then ("dmarc_from", AddressDomain(value))
    else if name == "header.d" then ("dkim_domain", TrimLeft(value, IsAt))
    else ("spf_domain", AddressDomain(value))
  }

  /** The property at the head of `s`, with what follows it. */
  function PropertyAt(s: string): (r: Option<(Binding, string)>)
    ensures r.Some? ==> |r.value.1| < |s|
  {
    var name := PropertyName(s);
    if name.None? || |name.value| > |s| then None
    else
      var a := SkipSpace(s[|name.value|..]);
      if !StartsWith(a, '=') then None
      else
        var b := SkipSpace(a[1..]);
        var value := Until(b, EndsValue);
        if value == [] then None else Some((Bind(name.value, value), b[|value|..]))
  }

  /** Every property of the clause, left to right. */
  function Properties(s: string): seq<Binding>
    decreases |s|
  {
    if s == [] then []
    else
      var p := PropertyAt(s);
      if p.Some? then [p.value.0] + Properties(p.value.1) else Properties(s[1..])
  }

  function ReadClause(clause: string): seq<Binding> { Mechanism(Trim(clause)) + Properties(Trim(clause)) }

  predicate KnownKey(k: string) {
    k == "dmarc" || k == "dkim" || k == "spf" || k == "arc"
    || k == "dmarc_from" || k == "dkim_domain" || k == "spf_domain"
  }

  lemma {:induction false} PropertiesAreKnown(s: string, b: Binding)
    requires b in Properties(s)
    ensures KnownKey(b.0)
    decreases |s|
  {
    var p := PropertyAt(s);
    if p.None? {
      PropertiesAreKnown(s[1..], b);
    } else if b != p.value.0 {
      PropertiesAreKnown(p.value.1, b);
    }
  }

  /** Dictionary entries set with `setdefault`, first one wins. */
  function FirstWins(bs: seq<(string, string)>): map<string, string> {
    if bs == [] then map[]
    else
      var m, (k, v) := FirstWins(bs[..|bs| - 1]), bs[|bs| - 1];
      if k in m then m else m[k := v]
  }

  function ReadAll(cs: seq<string>): seq<(string, string)> {
    if cs == [] then [] else ReadAll(cs[..|cs| - 1]) + ReadClause(cs[|cs| - 1])
  }

  function Bindings(raw: string): seq<Binding> { ReadAll(Clauses(raw)) }

  function Verdicts(raw: string): map<string, string> { FirstWins(Bindings(raw)) }

  /** The `setdefault` calls for one clause. */
  method SetDefaults(m: map<string, string>, bs: seq<(string, string)>, ghost seen: seq<(string, string)>)
    returns (r: map<string, string>)
    requires m == FirstWins(seen)
    ensures r == FirstWins(seen + bs)
  {
    r := m;
    assert seen + bs[..0] == seen;
    for i := 0 to |bs|
      invariant r == FirstWins(seen + bs[..i])
    {
      assert (seen + bs[..i + 1])[..|seen| + i] == seen + bs[..i];
      if bs[i].0 !in r { r := r[bs[i].0 := bs[i].1]; }
    }
    assert bs[..|bs|] == bs;
  }

  /** `parse_authentication_results`. */
  method ParseAuthenticationResults(raw: string) returns (verdicts: map<string, string>)
    ensures verdicts == Verdicts(raw)
  {
    verdicts := map[];
    var cs := Clauses(raw);
    for n := 0 to |cs|
      invariant verdicts == FirstWins(ReadAll(cs[..n]))
    {
      assert cs[..n + 1][..n] == cs[..n];
      verdicts := SetDefaults(verdicts, ReadClause(cs[n]), ReadAll(cs[..n]));
    }
    assert cs[..|cs|] == cs;
  }

  lemma {:induction false} FirstWinsOverlays(x: seq<(string, string)>, y: seq<(string, string)>)
    ensures FirstWins(x + y) == FirstWins(y) + FirstWins(x)
  {
    if y == [] {
      assert x + y == x;
    } else {
      assert (x + y)[..|x + y| - 1] == x + y[..|y| - 1];
      FirstWinsOverlays(x, y[..|y| - 1]);
    }
  }

  lemma {:induction false} ReadAllAppends(x: seq<string>, y: seq<string>)
    ensures ReadAll(x + y) == ReadAll(x) + ReadAll(y)
  {
    if y == [] {
      assert x + y == x;
    } else {
      var front, last := y[..|y| - 1], y[|y| - 1];
      assert (x + y)[..|x + y| - 1] == x + front;
      ReadAllAppends(x, front);
      BindingsAssoc(ReadAll(x), ReadAll(front), ReadClause(last));
    }
  }

  lemma BindingsAssoc(x: seq<Binding>, y: seq<Binding>, z: seq<Binding>)
    ensures x + (y + z) == (x + y) + z
  {}

  /** Parsing two texts joined by a line break is the second's verdicts overlaid with the
      first's: a later clause never changes an earlier verdict. */
  lemma LaterClausesNeverOverride(x: string, y: string)
    ensures Verdicts(x + ['\n'] + y) == Verdicts(y) + Verdicts(x)
  {
    var z := ['\n'] + y;
    assert x + ['\n'] + y == x + z && z[1..] == y;
    ClausesSplit(x, z);
    ReadAllAppends(Clauses(x), Clauses(y));
    FirstWinsOverlays(ReadAll(Clauses(x)), ReadAll(Clauses(y)));
  }

  /** A binding is the first one for its key. */
  predicate FirstFor(bs: seq<Binding>, k: string, i: int) {
    0 <= i < |bs| && bs[i].0 == k && forall j :: 0 <= j < i ==> bs[j].0 != k
  }

  /** Each key that is bound at all has the value of its first binding. */
  lemma {:induction false} FirstWinsMeans(bs: seq<Binding>, k: string)
    ensures k in FirstWins(bs) <==> exists i :: 0 <= i < |bs| && bs[i].0 == k
    ensures k in FirstWins(bs) ==> exists i :: FirstFor(bs, k, i) && FirstWins(bs)[k] == bs[i].1
  {
    if bs != [] {
      var front := bs[..|bs| - 1];
      FirstWinsMeans(front, k);
      if k in FirstWins(front) {
        var i :| FirstFor(front, k, i) && FirstWins(front)[k] == front[i].1;
        assert FirstFor(bs, k, i);
      } else if bs[|bs| - 1].0 == k {
        assert forall j :: 0 <= j < |front| ==> front[j] == bs[j];
        assert FirstFor(bs, k, |bs| - 1);
      }
    }
  }

  lemma {:induction false} ReadAllIsKnown(cs: seq<string>, b: Binding)
    requires b in ReadAll(cs)
    ensures KnownKey(b.0)
  {
    var clause := cs[|cs| - 1];
    if b in ReadAll(cs[..|cs| - 1]) {
      ReadAllIsKnown(cs[..|cs| - 1], b);
    } else if b !in Mechanism(Trim(clause)) {
      PropertiesAreKnown(Trim(clause), b);
    }
  }

  lemma FirstBinding(bs: seq<Binding>, k: string) returns (i: nat)
    requires k in FirstWins(bs)
    ensures FirstFor(bs, k, i) && FirstWins(bs)[k] == bs[i].1 && bs[i] in bs
  {
    FirstWinsMeans(bs, k);
    i :| FirstFor(bs, k, i) && FirstWins(bs)[k] == bs[i].1;
  }

  /** The parser reports only the four mechanisms and the three domains, and for each the value
      that the first clause naming it gives. */
  lemma VerdictsAreFirst(raw: string, k: string) returns (i: nat)
    requires k in Verdicts(raw)
    ensures KnownKey(k) && FirstFor(Bindings(raw), k, i) && Verdicts(raw)[k] == Bindings(raw)[i].1
  {
    i := FirstBinding(Bindings(raw), k);
    ReadAllIsKnown(Clauses(raw), Bindings(raw)[i]);
  }
}

/** What the Authentication-Results functions mean, in the characters of the text. */
module AuthMeaning {
  import opened Tasks
  import opened AuthResults

  predicate Spaces(s: string) { forall i :: 0 <= i < |s| ==> IsSpace(s[i]) }

  predicate Ids(s: string) { forall i :: 0 <= i < |s| ==> IsIdChar(s[i]) }

  predicate Lacks(s: string, c: char) { forall i :: 0 <= i < |s| ==> s[i] != c }

  // ---- Characters

  /** The character classes, listed: white space, line boundaries, and what an authserv-id and a
      mechanism or verdict may hold. */
  lemma ClassesMean(c: char)
    ensures IsSpace(c) <==> c as int in WhiteSpace
    ensures IsBreak(c) <==> c as int in Boundaries
    ensures IsIdChar(c) <==> IsLetterOrDigit(c) || c == '.' || c == '_' || c == '-'
    ensures IsWordChar(c) <==> IsLetterOrDigit(c) || c == '-'
  {}

  const WhiteSpace: set<int> :=
    {0x09, 0x0A, 0x0B, 0x0C, 0x0D, 0x1C, 0x1D, 0x1E, 0x1F, 0x20, 0x85, 0xA0, 0x1680, 0x2000, 0x2001, 0x2002, 0x2003,
     0x2004, 0x2005, 0x2006, 0x2007, 0x2008, 0x2009, 0x200A, 0x2028, 0x2029, 0x202F, 0x205F, 0x3000}

  const Boundaries: set<int> := {0x0A, 0x0B, 0x0C, 0x0D, 0x1C, 0x1D, 0x1E, 0x85, 0x2028, 0x2029}

  predicate IsLetterOrDigit(c: char) {
    var n := c as int; 0x30 <= n <= 0x39 || 0x41 <= n <= 0x5A || 0x61 <= n <= 0x7A
  }

  // ---- Prefixes

  lemma {:induction false} SkipSpaceSplits(s: string) returns (sp: string)
    ensures s == sp + SkipSpace(s) && Spaces(sp)
    ensures SkipSpace(s) == [] || !IsSpace(SkipSpace(s)[0])
  {
    sp := [];
    if s != [] && IsSpace(s[0]) {
      var rest := SkipSpaceSplits(s[1..]);
      sp := [s[0]] + rest;
      assert s == [s[0]] + s[1..];
    }
  }

  lemma {:induction false} SkipSpaceOver(sp: string, rest: string)
    requires Spaces(sp) && (rest == [] || !IsSpace(rest[0]))
    ensures SkipSpace(sp + rest) == rest
  {
    if sp == [] {
      assert sp + rest == rest;
    } else {
      assert (sp + rest)[1..] == sp[1..] + rest;
      SkipSpaceOver(sp[1..], rest);
    }
  }

  lemma {:induction false} SkipIdSplits(s: string) returns (id: string)
    ensures s == id + SkipId(s) && Ids(id)
    ensures SkipId(s) == [] || !IsIdChar(SkipId(s)[0])
  {
    id := [];
    if s != [] && IsIdChar(s[0]) {
      var rest := SkipIdSplits(s[1..]);
      id := [s[0]] + rest;
      assert s == [s[0]] + s[1..];
    }
  }

  lemma {:induction false} SkipIdOver(id: string, rest: string)
    requires Ids(id) && (rest == [] || !IsIdChar(rest[0]))
    ensures SkipId(id + rest) == rest
  {
    if id == [] {
      assert id + rest == rest;
    } else {
      assert (id + rest)[1..] == id[1..] + rest;
      SkipIdOver(id[1..], rest);
    }
  }

  lemma {:induction false} AfterParenSplits(s: string) returns (comment: string)
    requires AfterParen(s).Some?
    ensures s == comment + ")" + AfterParen(s).value && Lacks(comment, ')')
  {
    comment := [];
    if s[0] != ')' {
      var rest := AfterParenSplits(s[1..]);
      comment := [s[0]] + rest;
      assert s == [s[0]] + s[1..];
    } else {
      assert s == [] + ")" + s[1..];
    }
  }

  lemma {:induction false} AfterParenOver(comment: string, rest: string)
    requires Lacks(comment, ')')
    ensures AfterParen(comment + ")" + rest) == Some(rest)
  {
    var s := comment + ")" + rest;
    if comment == [] {
      assert s == ")" + rest && s[1..] == rest;
    } else {
      assert s[1..] == comment[1..] + ")" + rest;
      AfterParenOver(comment[1..], rest);
    }
  }

  // ---- Field starts

  /** space, authserv-id, space, ";" */
  predicate PlainStart(line: string, a: string, id: string, b: string, rest: string) {
    line == a + id + b + ";" + rest && Spaces(a) && Ids(id) && id != [] && Spaces(b)
  }

  /** space, authserv-id, space, "(comment)", space, ";" */
  predicate CommentStart(line: string, a: string, id: string, b: string, comment: string, d: string, rest: string) {
    line == a + id + b + "(" + comment + ")" + d + ";" + rest
    && Spaces(a) && Ids(id) && id != [] && Spaces(b) && b != [] && Lacks(comment, ')') && Spaces(d)
  }

  lemma HeadOf(s: string, c: char)
    requires StartsWith(s, c)
    ensures s == [c] + s[1..]
  {}

  lemma RegroupStart(a: string, id: string, b: string, t: string)
    ensures a + (id + (b + t)) == a + id + b + t
  {}

  lemma Regroup(x: string, comment: string, d: string, rest: string)
    ensures x + ("(" + (comment + ")" + (d + (";" + rest)))) == x + "(" + comment + ")" + d + ";" + rest
  {}

  lemma PlainSplits(line: string, a: string, id: string, b: string, t: string)
    requires line == a + id + b + t && Spaces(a) && Ids(id) && id != [] && Spaces(b) && StartsWith(t, ';')
    ensures PlainStart(line, a, id, b, t[1..])
  {
    HeadOf(t, ';');
    TextAssoc(a + id + b, ";", t[1..]);
  }

  lemma CommentSplits(line: string, a: string, id: string, b: string, t: string) returns (comment: string, d: string, rest: string)
    requires line == a + id + b + t && Spaces(a) && Ids(id) && id != [] && Spaces(b) && b != []
    requires StartsWith(t, '(') && AfterParen(t[1..]).Some? && StartsWith(SkipSpace(AfterParen(t[1..]).value), ';')
    ensures CommentStart(line, a, id, b, comment, d, rest)
  {
    var u := AfterParen(t[1..]).value;
    comment := AfterParenSplits(t[1..]);
    d := SkipSpaceSplits(u);
    rest := SkipSpace(u)[1..];
    HeadOf(t, '(');
    HeadOf(SkipSpace(u), ';');
    TextAssoc(comment, ")", u);
    Regroup(a + id + b, comment, d, rest);
  }

  lemma FieldStartSplits(line: string)
    requires FieldStart(line)
    ensures (exists a, id, b, rest :: PlainStart(line, a, id, b, rest))
         || (exists a, id, b, comment, d, rest :: CommentStart(line, a, id, b, comment, d, rest))
  {
    var s1 := SkipSpace(line);
    var s2 := SkipId(s1);
    var s3 := SkipSpace(s2);
    var a := SkipSpaceSplits(line);
    var id := SkipIdSplits(s1);
    var b := SkipSpaceSplits(s2);
    RegroupStart(a, id, b, s3);
    if StartsWith(s3, ';') {
      PlainSplits(line, a, id, b, s3);
    } else {
      var comment, d, rest := CommentSplits(line, a, id, b, s3);
    }
  }

  lemma IdsAreNotSpaces(id: string)
    requires Ids(id) && id != []
    ensures !IsSpace(id[0])
  {}

  lemma BeforeMark(sp: string, mark: string)
    requires Spaces(sp) && mark != [] && !IsIdChar(mark[0])
    ensures sp + mark != [] && !IsIdChar((sp + mark)[0])
  {}

  lemma StartsField(line: string, a: string, id: string, b: string, mark: string)
    requires line == a + (id + (b + mark)) && Spaces(a) && Ids(id) && id != [] && Spaces(b)
    requires mark != [] && !IsIdChar(mark[0]) && !IsSpace(mark[0])
    ensures SkipSpace(line) == id + (b + mark) && SkipId(SkipSpace(line)) == b + mark
    ensures SkipSpace(SkipId(SkipSpace(line))) == mark
  {
    SkipSpaceOver(a, id + (b + mark));
    BeforeMark(b, mark);
    SkipIdOver(id, b + mark);
    SkipSpaceOver(b, mark);
  }

  lemma PlainIsStart(line: string, a: string, id: string, b: string, rest: string)
    requires PlainStart(line, a, id, b, rest)
    ensures FieldStart(line)
  {
    assert line == a + (id + (b + (";" + rest)));
    StartsField(line, a, id, b, ";" + rest);
  }

  lemma CommentIsStart(line: string, a: string, id: string, b: string, comment: string, d: string, rest: string)
    requires CommentStart(line, a, id, b, comment, d, rest)
    ensures FieldStart(line)
  {
    var tail := d + (";" + rest);
    var mark := "(" + (comment + ")" + tail);
    assert line == a + (id + (b + mark));
    StartsField(line, a, id, b, mark);
    AfterParenOver(comment, tail);
    assert mark[1..] == comment + ")" + tail;
    SkipSpaceOver(d, ";" + rest);
  }

  /** A field start is an authserv-id between spaces, perhaps with a comment after at least one
      space, and a semicolon. */
  lemma FieldStartMeans(line: string)
    ensures FieldStart(line) <==>
      || (exists a, id, b, rest :: PlainStart(line, a, id, b, rest))
      || (exists a, id, b, comment, d, rest :: CommentStart(line, a, id, b, comment, d, rest))
  {
    if FieldStart(line) { FieldStartSplits(line); }
    if a, id, b, rest :| PlainStart(line, a, id, b, rest) { PlainIsStart(line, a, id, b, rest); }
    if a, id, b, comment, d, rest :| CommentStart(line, a, id, b, comment, d, rest) {
      CommentIsStart(line, a, id, b, comment, d, rest);
    }
  }

  // ---- Cutting and trimming

  predicate NoneOf(s: string, p: char -> bool) { forall i :: 0 <= i < |s| ==> !p(s[i]) }

  predicate Every(s: string, p: char -> bool) { forall i :: 0 <= i < |s| ==> p(s[i]) }

  lemma {:induction false} UntilOver(x: string, y: string, p: char -> bool)
    requires NoneOf(x, p) && (y == [] || p(y[0]))
    ensures Until(x + y, p) == x
  {
    if x == [] {
      assert x + y == y;
    } else {
      assert (x + y)[1..] == x[1..] + y;
      UntilOver(x[1..], y, p);
    }
  }

  lemma {:induction false} UntilSplits(s: string, p: char -> bool)
    ensures var x := Until(s, p); x <= s && NoneOf(x, p) && (|x| == |s| || p(s[|x|]))
  {
    if s != [] && !p(s[0]) { UntilSplits(s[1..], p); }
  }

  lemma {:induction false} TrimRightOver(x: string, y: string, p: char -> bool)
    requires Every(y, p) && (x == [] || !p(x[|x| - 1]))
    ensures TrimRight(x + y, p) == x
  {
    if y == [] {
      assert x + y == x;
    } else {
      assert (x + y)[..|x + y| - 1] == x + y[..|y| - 1];
      TrimRightOver(x, y[..|y| - 1], p);
    }
  }

  lemma {:induction false} TrimLeftOver(x: string, y: string, p: char -> bool)
    requires Every(x, p) && (y == [] || !p(y[0]))
    ensures TrimLeft(x + y, p) == y
  {
    if x == [] {
      assert x + y == y;
    } else {
      assert (x + y)[1..] == x[1..] + y;
      TrimLeftOver(x[1..], y, p);
    }
  }

  predicate Tight(s: string) { s == [] || (!IsSpace(s[0]) && !IsSpace(s[|s| - 1])) }

  /** `strip` takes the spaces off both ends, and nothing else. */
  lemma TrimOver(a: string, m: string, b: string)
    requires Spaces(a) && Spaces(b) && Tight(m)
    ensures Trim(a + m + b) == m
  {
    if m == [] {
      SkipSpaceOver(a + b, []);
      assert a + m + b == a + b + [];
    } else {
      assert a + m + b == a + (m + b);
      SkipSpaceOver(a, m + b);
      TrimRightOver(m, b, IsSpace);
    }
  }

  /** The authserv-id of a field is its first word before the semicolon. */
  lemma AuthServIdMeans(a: string, w: string, rest: string)
    requires Spaces(a) && w != [] && NoneOf(w, IsSpace) && NoneOf(w, IsSemicolon)
    requires rest == [] || IsSemicolon(rest[0]) || IsSpace(rest[0])
    ensures AuthServId(a + w + rest) == w
  {
    var r := Until(rest, IsSemicolon);
    HeadOfBlock(a, w, rest);
    var m := TrimRight(w + r, IsSpace);
    FirstIsNoSpace(w, r);
    SkipSpaceOver(a, w + r);
    TrimKeepsWord(w, r);
    UntilOver(w, m[|w|..], IsSpace);
  }

  lemma FirstIsNoSpace(w: string, r: string)
    requires w != [] && NoneOf(w, IsSpace)
    ensures w + r != [] && !IsSpace((w + r)[0])
  {}

  lemma RegroupHead(a: string, w: string, r: string, t: string)
    ensures a + w + (r + t) == (a + (w + r)) + t
  {}

  lemma HeadOfBlock(a: string, w: string, rest: string)
    requires Spaces(a) && NoneOf(w, IsSemicolon) && (rest == [] || IsSemicolon(rest[0]) || IsSpace(rest[0]))
    ensures var r := Until(rest, IsSemicolon); Until(a + w + rest, IsSemicolon) == a + (w + r) && (r == [] || IsSpace(r[0]))
  {
    var r := Until(rest, IsSemicolon);
    UntilSplits(rest, IsSemicolon);
    SpacesHaveNoSemicolon(a);
    assert rest == r + rest[|r|..];
    RegroupHead(a, w, r, rest[|r|..]);
    UntilOver(a + (w + r), rest[|r|..], IsSemicolon);
  }

  lemma SpacesHaveNoSemicolon(a: string)
    requires Spaces(a)
    ensures NoneOf(a, IsSemicolon)
  {}

  /** Trimming on the right stops at the word. */
  lemma {:induction false} TrimKeepsWord(w: string, r: string)
    requires w != [] && NoneOf(w, IsSpace) && (r == [] || IsSpace(r[0]))
    ensures var m := TrimRight(w + r, IsSpace); w <= m && m == w + m[|w|..] && (|m| == |w| || IsSpace(m[|w|]))
  {
    if r == [] {
      assert w + r == w;
    } else if IsSpace(r[|r| - 1]) {
      assert (w + r)[..|w + r| - 1] == w + r[..|r| - 1];
      TrimKeepsWord(w, r[..|r| - 1]);
    }
  }

  // ---- Hosts

  /** A host name as the comparison sees it: trimmed, small letters, no final dot. */
  predicate Host(s: string) {
    s != [] && NoneOf(s, IsSpace) && NoneOf(s, IsCapital) && !IsDot(s[|s| - 1])
  }

  predicate IsCapital(c: char) { 'A' <= c <= 'Z' }

  lemma LowerIsIdentity(s: string)
    requires NoneOf(s, IsCapital)
    ensures Lower(s) == s
  {}

  lemma LowerSplits(x: string, y: string)
    ensures Lower(x + y) == Lower(x) + Lower(y)
  {}

  lemma LowerKeepsSpaces(s: string)
    ensures NoneOf(s, IsSpace) <==> NoneOf(Lower(s), IsSpace)
    ensures Every(s, IsDot) ==> Lower(s) == s
  {
    forall i | 0 <= i < |s| ensures IsSpace(s[i]) <==> IsSpace(Lower(s)[i]) {}
  }

  /** Surrounding space, letter case and final dots make no difference to a host. */
  lemma DomainMeans(a: string, s: string, dots: string, b: string, host: string)
    requires Spaces(a) && Spaces(b) && Every(dots, IsDot) && Lower(s) == host && Host(host)
    ensures Domain(a + (s + dots) + b) == host
  {
    LowerKeepsSpaces(s);
    assert NoneOf(s + dots, IsSpace);
    TrimOver(a, s + dots, b);
    LowerSplits(s, dots);
    LowerKeepsSpaces(dots);
    TrimRightOver(host, dots, IsDot);
  }

  lemma DomainOfHost(host: string)
    requires Host(host)
    ensures Domain(host) == host
  {
    LowerIsIdentity(host);
    DomainMeans([], host, [], [], host);
    assert [] + (host + []) + [] == host;
  }

  /** An authserv-id is trusted exactly when it is the configured host or a subdomain of it. */
  lemma MatchesMeans(s: string, d: string)
    requires Host(s) && Host(d)
    ensures Matches(s, d) <==> s == d || exists p :: s == p + "." + d
  {
    DomainOfHost(s);
    DomainOfHost(d);
    if p :| s == p + "." + d { assert s[|s| - |d| - 1..] == "." + d; }
    if Matches(s, d) && s != d { assert s == s[..|s| - |d| - 1] + "." + d; }
  }

  // ---- Which fields are kept, and how they are joined

  /** Without a configured host every field is trusted; with one, those whose authserv-id matches. */
  lemma TrustsMeans(configured: string, f: Field)
    ensures Trusts(configured, f) <==> configured == "" || Matches(AuthServId(JoinLines(f)), configured)
  {}

  /** A field is kept exactly when it is trusted; trusted fields are all kept, in order. */
  lemma {:induction false} TrustedMeans(configured: string, fs: seq<Field>, f: Field)
    ensures f in TrustedFields(configured, fs) <==> f in fs && Trusts(configured, f)
    ensures (forall g :: g in fs ==> Trusts(configured, g)) ==> TrustedFields(configured, fs) == fs
  {
    if fs != [] {
      TrustedMeans(configured, fs[1..], f);
      assert fs == [fs[0]] + fs[1..];
    }
  }

  lemma {:induction false} LineOver(x: string, y: string)
    requires NoneOf(x, IsBreak) && y != [] && IsBreak(y[0])
    ensures Line(x + y) == x
  {
    if x == [] {
      assert x + y == y;
    } else {
      assert (x + y)[1..] == x[1..] + y;
      LineOver(x[1..], y);
    }
  }

  /** The first line ends at the first line boundary, a carriage return taking a line feed along. */
  lemma FirstLineMeans(x: string, mark: string, y: string)
    requires NoneOf(x, IsBreak) && (mark == "\r\n" || (|mark| == 1 && IsBreak(mark[0])))
    requires mark == "\r" ==> y == [] || y[0] != '\n'
    ensures Lines(x + mark + y) == [x] + Lines(y)
  {
    MarkMeans(mark, y);
    LineOver(x, mark + y);
    LinesOfRest(x, mark, y);
    TextAssoc(x, mark, y);
  }

  lemma MarkMeans(mark: string, y: string)
    requires mark == "\r\n" || (|mark| == 1 && IsBreak(mark[0]))
    requires mark == "\r" ==> y == [] || y[0] != '\n'
    ensures mark != [] && IsBreak((mark + y)[0]) && BreakLength(mark + y) == |mark| && (mark + y)[|mark|..] == y
  {
    assert |mark| == 1 && mark[0] == '\r' ==> mark == "\r";
  }

  lemma LinesOfRest(x: string, mark: string, y: string)
    requires mark != [] && IsBreak((mark + y)[0]) && BreakLength(mark + y) == |mark| && (mark + y)[|mark|..] == y
    requires Line(x + (mark + y)) == x
    ensures Lines(x + (mark + y)) == [x] + Lines(y)
  {
    assert (x + (mark + y))[|x|..] == mark + y;
    assert y == [] ==> Lines(y) == [];
  }

  lemma LinesOfFirst(x: string, y: string)
    requires NoneOf(x, IsBreak)
    ensures Lines(x + "\n" + y) == [x] + Lines(y)
  {
    var z := x + "\n" + y;
    assert z == x + ("\n" + y);
    LineOver(x, "\n" + y);
    assert z[|x|..] == "\n" + y && z[|x|..][1..] == y;
    assert y == [] ==> Lines(y) == [];
  }

  /** Joining lines with line feeds is undone by splitting. */
  lemma {:induction false} JoinSplits(q: seq<string>)
    requires q != [] && forall x :: x in q ==> NoneOf(x, IsBreak)
    ensures Lines(JoinLines(q) + "\n") == q
  {
    if |q| == 1 {
      LinesOfFirst(q[0], []);
      assert q[0] + "\n" + [] == q[0] + "\n";
      assert q == [q[0]];
    } else {
      JoinSplits(q[1..]);
      LinesOfFirst(q[0], JoinLines(q[1..]) + "\n");
      TextAssoc(q[0] + "\n", JoinLines(q[1..]), "\n");
      assert q == [q[0]] + q[1..];
    }
  }

  lemma {:induction false} LinesLackBreaks(raw: string, x: string)
    requires x in Lines(raw)
    ensures NoneOf(x, IsBreak)
    decreases |raw|
  {
    var rest := raw[|Line(raw)|..];
    LineLacksBreaks(raw);
    if x != Line(raw) { LinesLackBreaks(rest[BreakLength(rest)..], x); }
  }

  lemma {:induction false} LineLacksBreaks(s: string)
    ensures NoneOf(Line(s), IsBreak)
  {
    if s != [] && !IsBreak(s[0]) { LineLacksBreaks(s[1..]); }
  }

  /** All the lines of some fields, in order. */
  function LinesOf(fs: seq<Field>): seq<string> { if fs == [] then [] else fs[0] + LinesOf(fs[1..]) }

  predicate Printable(f: Field) { f != [] && forall x :: x in f ==> NoneOf(x, IsBreak) }

  lemma {:induction false} BlocksSplit(fs: seq<Field>)
    requires fs != [] && forall f :: f in fs ==> Printable(f)
    ensures Lines(JoinLines(Blocks(fs)) + "\n") == LinesOf(fs)
  {
    assert fs[0] in fs;
    JoinSplits(fs[0]);
    if |fs| == 1 {
      var none: seq<Field> := [];
      assert fs[1..] == none && LinesOf(none) == [] && Blocks(none) == [];
      assert fs[0] + [] == fs[0] && [JoinLines(fs[0])] + [] == [JoinLines(fs[0])];
    } else {
      BlocksSplit(fs[1..]);
      var first, more := JoinLines(fs[0]) + "\n", JoinLines(Blocks(fs[1..])) + "\n";
      LinesAppend(first, more);
      assert Blocks(fs)[1..] == Blocks(fs[1..]);
      TextAssoc(first, JoinLines(Blocks(fs[1..])), "\n");
    }
  }

  lemma {:induction false} MemberLines(fs: seq<Field>, f: Field, x: string)
    requires f in fs && x in f
    ensures x in Flatten(fs)
  {
    if f == fs[|fs| - 1] {} else { MemberLines(fs[..|fs| - 1], f, x); }
  }

  lemma {:induction false} KeptLines(lines: seq<string>, x: string)
    requires x in DropBlank(lines)
    ensures x in lines
  {
    if x != lines[|lines| - 1] { KeptLines(lines[..|lines| - 1], x); }
  }

  lemma FieldsArePrintable(raw: string, f: Field)
    requires f in Fields(Lines(raw))
    ensures Printable(f)
  {
    FieldsCover(Lines(raw));
    forall x | x in f ensures NoneOf(x, IsBreak) {
      MemberLines(Fields(Lines(raw)), f, x);
      KeptLines(Lines(raw), x);
      LinesLackBreaks(raw, x);
    }
  }

  /** The trusted text is, line by line, the trusted fields of the raw text and nothing else; there
      is none when no field is trusted. */
  lemma TrustedTextMeans(configured: string, raw: string)
    ensures var fs := TrustedFields(configured, Fields(Lines(raw))); var text := TrustedText(configured, raw);
      && (text.None? <==> forall f :: f in Fields(Lines(raw)) ==> !Trusts(configured, f))
      && (text.Some? ==> Lines(text.value + "\n") == LinesOf(fs))
  {
    var all := Fields(Lines(raw));
    var fs := TrustedFields(configured, all);
    forall f ensures f in fs <==> f in all && Trusts(configured, f) { TrustedMeans(configured, all, f); }
    if fs != [] {
      assert fs[0] in fs;
      forall f | f in fs ensures Printable(f) { FieldsArePrintable(raw, f); }
      BlocksSplit(fs);
    }
  }
}

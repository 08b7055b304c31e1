/** Comment stripping for JSON with comments (environment/descriptor.py). */
module Jsonc {

  datatype Token = Literal(text: string) | Comment(text: string) | Other(c: char)

  /** Length of the string literal that starts at the head of `s` (up to the end if unclosed);
      `escape` says whether the previous character was an unescaped backslash. */
  function BodyLength(s: string, escape: bool): (n: nat)
    ensures n <= |s|
  {
    if s == [] then 0
    else if escape then 1 + BodyLength(s[1..], false)
    else if s[0] == '\\' then 1 + BodyLength(s[1..], true)
    else if s[0] == '"' then 1
    else 1 + BodyLength(s[1..], false)
  }

  function LineLength(s: string): (n: nat)
    ensures n <= |s|
  {
    if s == [] || s[0] == '\r' || s[0] == '\n' then 0 else 1 + LineLength(s[1..])
  }

  /** Up to and including the first "*" followed by "/", else everything. */
  function BlockLength(s: string): (n: nat)
    ensures n <= |s|
  {
    if |s| < 2 then |s| else if s[0] == '*' && s[1] == '/' then 2 else 1 + BlockLength(s[1..])
  }

  /** The token at the head of a non-empty text. */
  function Head(s: string): (t: Token)
    requires s != []
    ensures Text(t) != [] && Text(t) <= s
  {
    if s[0] == '"' then Literal(s[..1 + BodyLength(s[1..], false)])
    else if |s| > 1 && s[0] == '/' && s[1] == '/' then Comment(s[..2 + LineLength(s[2..])])
    else if |s| > 1 && s[0] == '/' && s[1] == '*' then Comment(s[..2 + BlockLength(s[2..])])
    else Other(s[0])
  }

  function Text(t: Token): string {
    match t case Literal(x) => x case Comment(x) => x case Other(c) => [c]
  }

  function Tokens(s: string): seq<Token> {
    if s == [] then [] else [Head(s)] + Tokens(s[|Text(Head(s))|..])
  }

  function Join(ts: seq<Token>): string {
    if ts == [] then [] else Text(ts[0]) + Join(ts[1..])
  }

  function Kept(ts: seq<Token>): seq<Token> {
    if ts == [] then [] else (if ts[0].Comment? then [] else [ts[0]]) + Kept(ts[1..])
  }

  function Literals(ts: seq<Token>): seq<string> {
    if ts == [] then [] else (if ts[0].Literal? then [ts[0].text] else []) + Literals(ts[1..])
  }

  /** Tokenise, drop the comments, and write the rest back. */
  function Strip(s: string): string { Join(Kept(Tokens(s))) }

  lemma TokensStep(s: string)
    requires s != []
    ensures Tokens(s)[0] == Head(s) && Tokens(s)[1..] == Tokens(s[|Text(Head(s))|..])
  {}

  /** Tokenising loses nothing. */
  lemma {:induction false} TokensCoverText(s: string)
    ensures Join(Tokens(s)) == s
    decreases |s|
  {
    if s != [] {
      var t := Text(Head(s));
      TokensStep(s);
      TokensCoverText(s[|t|..]);
      assert Join(Tokens(s)) == t + s[|t|..];
    }
  }

  lemma StripStep(s: string)
    requires s != []
    ensures var rest := Strip(s[|Text(Head(s))|..]);
      Strip(s) == if Head(s).Comment? then rest else Text(Head(s)) + rest
  {
    var h, rest := Head(s), Tokens(s[|Text(Head(s))|..]);
    assert Tokens(s)[1..] == rest;
    if h.Comment? {
      assert Kept(Tokens(s)) == Kept(rest);
    } else {
      assert Kept(Tokens(s)) == [h] + Kept(rest);
      assert ([h] + Kept(rest))[1..] == Kept(rest);
    }
  }

  /** A closed literal's length does not depend on what follows it. */
  lemma {:induction false} BodyThenMore(s: string, escape: bool, more: string)
    ensures var n := BodyLength(s, escape);
      n < |s| ==> BodyLength(s[..n] + more, escape) == n
    ensures BodyLength(s[..BodyLength(s, escape)], escape) == BodyLength(s, escape)
    decreases |s|
  {
    var n := BodyLength(s, escape);
    if s != [] && n > 1 {
      var e := !escape && s[0] == '\\';
      BodyThenMore(s[1..], e, more);
      assert s[..n][1..] == s[1..][..n - 1];
      assert (s[..n] + more)[1..] == s[1..][..n - 1] + more;
    }
  }

  /** A literal reads back in front of any text if it was closed, and of nothing otherwise. */
  lemma LiteralReadsBack(s: string, rest: string)
    requires s != [] && s[0] == '"'
    requires |Text(Head(s))| == |s| ==> rest == []
    ensures Head(Text(Head(s)) + rest) == Head(s)
  {
    var n := BodyLength(s[1..], false);
    var text := s[..1 + n];
    BodyThenMore(s[1..], false, rest);
    assert text[1..] == s[1..][..n];
    assert (text + rest)[1..] == s[1..][..n] + rest;
    assert n == |s[1..]| ==> s[1..][..n] + rest == s[1..][..n];
    assert (text + rest)[..1 + n] == text;
  }

  /** Stripping never moves a new second character behind a kept '/'. */
  lemma SlashReadsBack(s: string)
    requires s != [] && s[0] != '"' && !Head(s).Comment?
    ensures Head([s[0]] + Strip(s[1..])) == Head(s)
  {
    var tail := s[1..];
    if s[0] == '/' && tail != [] {
      assert tail[0] == s[1] && tail[0] != '/' && !Head(tail).Comment?;
      StripStep(tail);
      assert Strip(tail)[0] == tail[0];
    }
  }

  /** What stripping keeps is a fixed point of the tokeniser: each kept token reads back as
      itself in front of the stripped rest. */
  lemma HeadReadsBack(s: string)
    requires s != [] && !Head(s).Comment?
    ensures var h := Head(s); var rest := Strip(s[|Text(h)|..]);
      Head(Text(h) + rest) == h
  {
    if s[0] == '"' {
      LiteralReadsBack(s, Strip(s[|Text(Head(s))|..]));
    } else {
      SlashReadsBack(s);
    }
  }

  lemma {:induction false} StripIsIdempotent(s: string)
    ensures Strip(Strip(s)) == Strip(s)
    decreases |s|
  {
    if s != [] {
      var h := Head(s);
      var tail := s[|Text(h)|..];
      StripStep(s);
      StripIsIdempotent(tail);
      if !h.Comment? {
        HeadReadsBack(s);
        var out := Text(h) + Strip(tail);
        StripStep(out);
        assert out[|Text(h)|..] == Strip(tail);
      }
    }
  }

  /** Every string literal survives, character for character and in order. */
  lemma {:induction false} StripKeepsLiterals(s: string)
    ensures Literals(Tokens(Strip(s))) == Literals(Tokens(s))
    decreases |s|
  {
    if s != [] {
      var h := Head(s);
      var tail := s[|Text(h)|..];
      StripStep(s);
      StripKeepsLiterals(tail);
      assert Tokens(s)[1..] == Tokens(tail);
      if !h.Comment? {
        HeadReadsBack(s);
        var out := Text(h) + Strip(tail);
        assert out[|Text(h)|..] == Strip(tail);
        assert Tokens(out)[1..] == Tokens(Strip(tail));
      }
    }
  }

  /** What is left holds no comment. */
  lemma {:induction false} NoCommentLeft(s: string, t: Token)
    ensures t in Tokens(Strip(s)) ==> !t.Comment?
    decreases |s|
  {
    if s != [] {
      var h := Head(s);
      var tail := s[|Text(h)|..];
      StripStep(s);
      NoCommentLeft(tail, t);
      if !h.Comment? {
        HeadReadsBack(s);
        var out := Text(h) + Strip(tail);
        assert out[|Text(h)|..] == Strip(tail);
        assert Tokens(out) == [h] + Tokens(Strip(tail));
      }
    }
  }

  /** What the scanner still has to output from `s`, given where it stands. */
  function Rest(s: string, inString: bool, escape: bool): string {
    if inString then var n := BodyLength(s, escape); s[..n] + Strip(s[n..]) else Strip(s)
  }

  function From(text: string, index: nat): string { if index <= |text| then text[index..] else [] }

  lemma Assoc(a: string, b: string, c: string)
    ensures (a + b) + c == a + (b + c)
  {}

  lemma FirstThenSlice(s: string, n: nat)
    requires 0 < n <= |s|
    ensures s[..n] == [s[0]] + s[1..][..n - 1] && s[1..][n - 1..] == s[n..]
  {}

  lemma RestInString(s: string, escape: bool)
    requires s != []
    ensures var escape' := !escape && s[0] == '\\'; var inside := escape || s[0] != '"';
      Rest(s, true, escape) == [s[0]] + Rest(s[1..], inside, escape')
  {
    var n := BodyLength(s, escape);
    FirstThenSlice(s, n);
    Assoc([s[0]], s[1..][..n - 1], Strip(s[n..]));
  }

  lemma LiteralSplits(s: string)
    requires s != [] && s[0] == '"'
    ensures var n := BodyLength(s[1..], false);
      Text(Head(s)) == [s[0]] + s[1..][..n] && s[1..][n..] == s[|Text(Head(s))|..]
  {}

  lemma RestOfLiteral(s: string)
    requires s != [] && s[0] == '"'
    ensures Strip(s) == [s[0]] + Rest(s[1..], true, false)
  {
    StripStep(s);
    LiteralSplits(s);
    var n := BodyLength(s[1..], false);
    Assoc([s[0]], s[1..][..n], Strip(s[1..][n..]));
  }

  lemma RestOutside(s: string)
    requires s != [] && s[0] != '"'
    ensures Head(s).Other? ==> Strip(s) == [s[0]] + Strip(s[1..])
    ensures Head(s).Comment? ==> Strip(s) == Strip(s[|Text(Head(s))|..])
  {
    StripStep(s);
  }

  /** The inner loop of a line comment. */
  method SkipLine(text: string, start: nat) returns (index: nat)
    requires start <= |text|
    ensures index == start + LineLength(text[start..])
  {
    index := start;
    while index < |text| && text[index] != '\r' && text[index] != '\n'
      invariant start <= index <= |text|
      invariant index + LineLength(text[index..]) == start + LineLength(text[start..])
    {
      assert text[index..][1..] == text[index + 1..];
      index := index + 1;
    }
  }

  /** The inner loop of a block comment; an unclosed one runs past the end. */
  method SkipBlock(text: string, start: nat) returns (index: nat)
    requires start <= |text|
    ensures start <= index && From(text, index) == text[start + BlockLength(text[start..])..]
  {
    index := start;
    while index + 1 < |text| && !(text[index] == '*' && text[index + 1] == '/')
      invariant start <= index <= |text|
      invariant index + BlockLength(text[index..]) == start + BlockLength(text[start..])
    {
      assert text[index..][1..] == text[index + 1..];
      index := index + 1;
    }
    index := index + 2;
  }

  /** The two-character openers, and where the scan resumes after the comment. */
  method SkipComment(text: string, index: nat) returns (next: nat)
    requires index < |text|
    ensures Head(text[index..]).Comment? <==> next > index
    ensures next > index ==> From(text, next) == text[index..][|Text(Head(text[index..]))|..]
    ensures next >= index
  {
    next := index;
    if text[index] == '/' && index + 1 < |text| {
      assert text[index..][2..] == text[index + 2..];
      if text[index + 1] == '/' { next := SkipLine(text, index + 2); }
      else if text[index + 1] == '*' { next := SkipBlock(text, index + 2); }
    }
  }

  /** One turn of the scanner outside a string: what it outputs, where it goes next, and
      whether a string begins. */
  method Outside(text: string, index: nat) returns (add: string, next: nat, inString: bool)
    requires index < |text|
    ensures index < next
    ensures Strip(text[index..]) == add + Rest(From(text, next), inString, false)
  {
    var c := text[index];
    if c == '"' {
      RestOfLiteral(text[index..]);
      return [c], index + 1, true;
    }
    RestOutside(text[index..]);
    next := SkipComment(text, index);
    if next > index { return [], next, false; }
    return [c], index + 1, false;
  }

  /** `_strip_jsonc`, character by character. */
  method StripJsonc(text: string) returns (out: string)
    ensures out == Strip(text)
  {
    out := [];
    var index, inString, escape := 0, false, false;
    while index < |text|
      invariant inString || !escape
      invariant out + Rest(From(text, index), inString, escape) == Strip(text)
      decreases |text| - index
    {
      var add: string;
      if inString {
        var c := text[index];
        RestInString(text[index..], escape);
        add, index := [c], index + 1;
        inString, escape := escape || c != '"', !escape && c == '\\';
      } else {
        add, index, inString := Outside(text, index);
      }
      ghost var rest := Rest(From(text, index), inString, escape);
      Assoc(out, add, rest);
      out := out + add;
    }
  }
}

/** Removal of line and block comments from JSON text, string literals left alone. */
module Jsonc {
  import opened Seqs

  // ---- The reference: the text as a list of literals, comments and other characters ----

  datatype Kind = Literal | Comment | Other
  datatype Token = Token(kind: Kind, text: string)

  function Flat(ts: seq<Token>): string {
    if ts == [] then [] else ts[0].text + Flat(ts[1..])
  }

  function Kept(ts: seq<Token>): seq<Token> {
    if ts == [] then []
    else if ts[0].kind.Comment? then Kept(ts[1..])
    else [ts[0]] + Kept(ts[1..])
  }

  /** Just behind the literal that position i stands in, or the end of the text. */
  function StringEnd(s: string, i: nat): (e: nat)
    requires i <= |s|
    ensures i <= e <= |s|
    decreases |s| - i
  {
    if i == |s| then i
    else if s[i] == '\\' && i + 1 < |s| then StringEnd(s, i + 2)
    else if s[i] == '"' then i + 1
    else StringEnd(s, i + 1)
  }

  /** The first line break from position i on, or the end of the text. */
  function LineEnd(s: string, i: nat): (e: nat)
    requires i <= |s|
    ensures i <= e <= |s|
    decreases |s| - i
  {
    if i == |s| || s[i] == '\n' then i else LineEnd(s, i + 1)
  }

  /** Just behind the first end of a block comment from position i on, or the end of the text. */
  function BlockEnd(s: string, i: nat): (e: nat)
    requires i <= |s|
    ensures i <= e <= |s|
    decreases |s| - i
  {
    if i + 2 > |s| then |s|
    else if s[i] == '*' && s[i + 1] == '/' then i + 2
    else BlockEnd(s, i + 1)
  }

  function FirstKind(s: string): Kind
    requires s != []
  {
    if s[0] == '"' then Literal
    else if |s| > 1 && s[0] == '/' && (s[1] == '/' || s[1] == '*') then Comment
    else Other
  }

  function FirstLen(s: string): (n: nat)
    requires s != []
    ensures 0 < n <= |s|
  {
    if s[0] == '"' then StringEnd(s, 1)
    else if |s| > 1 && s[0] == '/' && s[1] == '/' then LineEnd(s, 2)
    else if |s| > 1 && s[0] == '/' && s[1] == '*' then BlockEnd(s, 2)
    else 1
  }

  function FirstToken(s: string): Token
    requires s != []
  {
    Token(FirstKind(s), s[..FirstLen(s)])
  }

  function Tokens(s: string): seq<Token> {
    if s == [] then [] else [FirstToken(s)] + Tokens(s[FirstLen(s)..])
  }

  /** The text without its comments. */
  function Strip(s: string): string {
    if s == [] then []
    else (if FirstKind(s).Comment? then [] else s[..FirstLen(s)]) + Strip(s[FirstLen(s)..])
  }

  /** Reading loses nothing. */
  lemma {:induction false} TokensAreTheText(s: string)
    ensures Flat(Tokens(s)) == s
    decreases |s|
  {
    if s != [] {
      var k := FirstLen(s);
      TokensAreTheText(s[k..]);
      FlatCons(FirstToken(s), Tokens(s[k..]));
      SliceSplits(s, 0, k);
    }
  }

  /** Stripping drops the comments among the tokens and nothing else. */
  lemma {:induction false} StripKeepsTheRest(s: string)
    ensures Strip(s) == Flat(Kept(Tokens(s)))
    decreases |s|
  {
    if s != [] {
      var t, rest := FirstToken(s), s[FirstLen(s)..];
      StripKeepsTheRest(rest);
      KeptCons(t, Tokens(rest));
      FlatCons(t, Kept(Tokens(rest)));
    }
  }

  lemma FlatCons(t: Token, ts: seq<Token>)
    ensures Flat([t] + ts) == t.text + Flat(ts)
  {
  }

  lemma KeptCons(t: Token, ts: seq<Token>)
    ensures Kept([t] + ts) == if t.kind.Comment? then Kept(ts) else [t] + Kept(ts)
  {
  }

  lemma StripStep(s: string)
    requires s != []
    ensures var rest := s[FirstLen(s)..];
            Strip(s) == if FirstKind(s).Comment? then Strip(rest) else s[..FirstLen(s)] + Strip(rest)
  {
    assert [] + Strip(s[FirstLen(s)..]) == Strip(s[FirstLen(s)..]);
  }

  // ---- Stripping yields text whose tokens are the kept tokens ----

  /** A literal ends where it did, whatever comes to stand behind it. */
  lemma {:induction false} StringEndLocal(s: string, u: string, i: nat)
    requires i <= |s| && StringEnd(s, i) <= |u|
    requires forall j | i <= j < StringEnd(s, i) :: u[j] == s[j]
    requires StringEnd(s, i) < |s| || |u| == |s|
    ensures StringEnd(u, i) == StringEnd(s, i)
    decreases |s| - i
  {
    if i < |s| {
      if s[i] == '\\' && i + 1 < |s| {
        StringEndLocal(s, u, i + 2);
      } else if s[i] != '"' {
        StringEndLocal(s, u, i + 1);
      }
    }
  }

  lemma LiteralStaysFirst(s: string, after: string)
    requires s != [] && s[0] == '"'
    requires FirstLen(s) < |s| || after == []
    ensures var u := s[..FirstLen(s)] + after; FirstKind(u) == FirstKind(s) && FirstLen(u) == FirstLen(s)
  {
    StringEndLocal(s, s[..FirstLen(s)] + after, 1);
  }

  lemma HeadSurvives(s: string)
    requires s != [] && s[0] != '/'
    ensures Strip(s) != [] && Strip(s)[0] == s[0]
  {
    StripStep(s);
  }

  /** What stands first in s and is kept also stands first in the stripped text. */
  lemma KeptStaysFirst(s: string)
    requires s != [] && !FirstKind(s).Comment?
    ensures var u := s[..FirstLen(s)] + Strip(s[FirstLen(s)..]);
            FirstKind(u) == FirstKind(s) && FirstLen(u) == FirstLen(s)
  {
    var rest := s[FirstLen(s)..];
    if FirstKind(s).Literal? {
      LiteralStaysFirst(s, Strip(rest));
    } else if rest != [] && s[0] == '/' {
      HeadSurvives(rest);
    }
  }

  /** Stripped text reads as the same literals and other characters, and no comments. */
  lemma {:induction false} TokensOfStripped(s: string)
    ensures Tokens(Strip(s)) == Kept(Tokens(s))
    decreases |s|
  {
    if s != [] {
      var n := FirstLen(s);
      var t, rest := FirstToken(s), s[n..];
      StripStep(s);
      KeptCons(t, Tokens(rest));
      TokensOfStripped(rest);
      if !t.kind.Comment? {
        KeptStaysFirst(s);
        var u := s[..n] + Strip(rest);
        assert u[..n] == s[..n] && u[n..] == Strip(rest);
      }
    }
  }

  lemma {:induction false} KeptHasNoComments(ts: seq<Token>)
    ensures forall t | t in Kept(ts) :: !t.kind.Comment?
    ensures (forall t | t in ts :: !t.kind.Comment?) ==> Kept(ts) == ts
    ensures |Flat(Kept(ts))| <= |Flat(ts)|
  {
    if ts != [] {
      KeptHasNoComments(ts[1..]);
    }
  }

  predicate HasComment(s: string) {
    exists t :: t in Tokens(s) && t.kind.Comment?
  }

  /** The output holds no comment, and stripping it again changes nothing. */
  lemma StripIsIdempotent(s: string)
    ensures !HasComment(Strip(s))
    ensures Strip(Strip(s)) == Strip(s)
  {
    TokensOfStripped(s);
    KeptHasNoComments(Tokens(s));
    KeptHasNoComments(Kept(Tokens(s)));
    StripKeepsTheRest(s);
    StripKeepsTheRest(Strip(s));
  }

  /** The text is left alone exactly when it holds no comment. */
  lemma StripIsIdentityIffNoComment(s: string)
    ensures Strip(s) == s <==> !HasComment(s)
  {
    KeptHasNoComments(Tokens(s));
    StripKeepsTheRest(s);
    TokensAreTheText(s);
    if Strip(s) == s {
      StripIsIdempotent(s);
    }
  }

  function Literals(ts: seq<Token>): seq<string> {
    if ts == [] then []
    else if ts[0].kind.Literal? then [ts[0].text] + Literals(ts[1..])
    else Literals(ts[1..])
  }

  lemma {:induction false} LiteralsOfKept(ts: seq<Token>)
    ensures Literals(Kept(ts)) == Literals(ts)
  {
    if ts != [] {
      LiteralsOfKept(ts[1..]);
      KeptCons(ts[0], ts[1..]);
      assert ts == [ts[0]] + ts[1..];
    }
  }

  /** Every literal comes through verbatim, in order, and none is added. */
  lemma LiteralsSurvive(s: string)
    ensures Literals(Tokens(Strip(s))) == Literals(Tokens(s))
  {
    TokensOfStripped(s);
    LiteralsOfKept(Tokens(s));
  }

  // ---- The scanner ----

  /** One turn of the scanner: where it moves to, what it outputs, its next state. */
  datatype Turn = Turn(next: nat, output: string, inStr: bool)

  function TurnAt(text: string, i: nat, inStr: bool): (t: Turn)
    requires i < |text|
    ensures i < t.next <= |text|
  {
    var c, last := text[i], i + 1 == |text|;
    if inStr then
      if c == '\\' && !last then Turn(i + 2, [c] + [text[i + 1]], true) else Turn(i + 1, [c], c != '"')
    else if c == '"' then Turn(i + 1, [c], true)
    else if c == '/' && !last && text[i + 1] == '/' then Turn(LineEnd(text, i + 2), [], false)
    else if c == '/' && !last && text[i + 1] == '*' then Turn(BlockEnd(text, i + 2), [], false)
    else Turn(i + 1, [c], false)
  }

  /** What the scanner outputs from position i on. */
  function ScanFrom(text: string, i: nat, inStr: bool): string
    decreases |text| - i
  {
    if i >= |text| then []
    else
      var t := TurnAt(text, i, inStr);
      t.output + ScanFrom(text, t.next, t.inStr)
  }

  lemma {:induction false} StringEndShift(text: string, i: nat, j: nat)
    requires i + j <= |text|
    ensures StringEnd(text, i + j) == i + StringEnd(text[i..], j)
    decreases |text| - j
  {
    if i + j < |text| {
      if text[i + j] == '\\' && i + j + 1 < |text| {
        StringEndShift(text, i, j + 2);
      } else if text[i + j] != '"' {
        StringEndShift(text, i, j + 1);
      }
    }
  }

  lemma {:induction false} LineEndShift(text: string, i: nat, j: nat)
    requires i + j <= |text|
    ensures LineEnd(text, i + j) == i + LineEnd(text[i..], j)
    decreases |text| - j
  {
    if i + j < |text| {
      LineEndShift(text, i, j + 1);
    }
  }

  lemma {:induction false} BlockEndShift(text: string, i: nat, j: nat)
    requires i + j <= |text|
    ensures BlockEnd(text, i + j) == i + BlockEnd(text[i..], j)
    decreases |text| - j
  {
    if i + j < |text| {
      BlockEndShift(text, i, j + 1);
    }
  }

  /** Inside a literal the scanner copies up to the literal's end. */
  lemma {:induction false} ScanCopiesLiteral(text: string, i: nat)
    requires i <= |text|
    ensures ScanFrom(text, i, true) == text[i..StringEnd(text, i)] + ScanFrom(text, StringEnd(text, i), false)
    decreases |text| - i
  {
    if i < |text| {
      var t, e := TurnAt(text, i, true), StringEnd(text, i);
      if t.inStr {
        ScanCopiesLiteral(text, t.next);
      }
      assert text[i..e] == t.output + text[t.next..e];
      ConcatAssociative(t.output, text[t.next..e], ScanFrom(text, e, false));
    }
  }

  /** Outside literals a turn handles the next token, the quote of a literal first. */
  lemma FirstTokenAt(text: string, i: nat)
    requires i < |text|
    ensures var s := text[i..];
            && FirstKind(s) == (if text[i] == '"' then Literal else if TurnAt(text, i, false).output == [] then Comment else Other)
            && i + FirstLen(s) == (if text[i] == '"' then StringEnd(text, i + 1) else TurnAt(text, i, false).next)
  {
    var s := text[i..];
    assert s[0] == text[i];
    StringEndShift(text, i, 1);
    if |s| > 1 {
      assert s[1] == text[i + 1];
      LineEndShift(text, i, 2);
      BlockEndShift(text, i, 2);
    }
  }

  lemma ScanTakesLiteral(text: string, i: nat)
    requires i < |text| && text[i] == '"'
    ensures var e := StringEnd(text, i + 1); ScanFrom(text, i, false) == text[i..e] + ScanFrom(text, e, false)
  {
    var e := StringEnd(text, i + 1);
    ScanCopiesLiteral(text, i + 1);
    ConcatAssociative([text[i]], text[i + 1..e], ScanFrom(text, e, false));
    assert text[i..e] == [text[i]] + text[i + 1..e];
  }

  /** Outside literals the scanner drops the next token or copies it. */
  lemma ScanTakesFirstToken(text: string, i: nat, n: nat, kind: Kind)
    requires i < |text| && n == FirstLen(text[i..]) && kind == FirstKind(text[i..])
    ensures ScanFrom(text, i, false) == (if kind.Comment? then [] else text[i..][..n]) + ScanFrom(text, i + n, false)
  {
    FirstTokenAt(text, i);
    PrefixOfSuffix(text, i, n);
    if text[i] == '"' {
      ScanTakesLiteral(text, i);
    } else if kind.Other? {
      assert text[i..i + 1] == [text[i]];
    }
  }

  /** The scanner outputs the stripped text. */
  lemma {:induction false} ScanFromIsStrip(text: string, i: nat, s: string)
    requires i <= |text| && s == text[i..]
    ensures ScanFrom(text, i, false) == Strip(s)
    decreases |s|
  {
    if s != [] {
      var n := FirstLen(s);
      ScanTakesFirstToken(text, i, n, FirstKind(s));
      SuffixOfSuffix(text, i, n);
      ScanFromIsStrip(text, i + n, s[n..]);
    }
  }

  method StripJsoncComments(text: string) returns (out: string)
    ensures out == Strip(text)
  {
    ScanFromIsStrip(text, 0, text);
    out := [];
    var i, n := 0, |text|;
    var inStr := false;
    while i < n
      invariant 0 <= i <= n
      invariant out + ScanFrom(text, i, inStr) == Strip(text)
      decreases n - i
    {
      var t := ScanOne(text, i, inStr);
      ConcatAssociative(out, t.output, ScanFrom(text, t.next, t.inStr));
      out, i, inStr := out + t.output, t.next, t.inStr;
    }
  }

  /** The body of the scanning loop. */
  method ScanOne(text: string, i: nat, inStr: bool) returns (t: Turn)
    requires i < |text|
    ensures t == TurnAt(text, i, inStr)
  {
    var c, n := text[i], |text|;
    if inStr {
      if c == '\\' && i + 1 < n {
        return Turn(i + 2, [c] + [text[i + 1]], true);
      }
      return Turn(i + 1, [c], c != '"');
    }
    if c == '"' {
      return Turn(i + 1, [c], true);
    }
    if c == '/' && i + 1 < n && text[i + 1] == '/' {
      var next := SkipLine(text, i);
      return Turn(next, [], false);
    }
    if c == '/' && i + 1 < n && text[i + 1] == '*' {
      var next := SkipBlock(text, i);
      return Turn(next, [], false);
    }
    return Turn(i + 1, [c], false);
  }

  /** The inner loop: on to the line break, or to the end. */
  method SkipLine(text: string, start: nat) returns (i: nat)
    requires start + 1 < |text| && text[start] == '/' && text[start + 1] == '/'
    ensures i == LineEnd(text, start + 2)
  {
    i := start;
    while i < |text| && text[i] != '\n'
      invariant start <= i <= |text|
      invariant i <= start + 2 || LineEnd(text, i) == LineEnd(text, start + 2)
    {
      i := i + 1;
    }
  }

  /** The search for the end of a block comment; without one the rest of the text goes. */
  method SkipBlock(text: string, start: nat) returns (i: nat)
    requires start + 1 < |text|
    ensures i == BlockEnd(text, start + 2)
  {
    i := start + 2;
    while i + 2 <= |text|
      invariant start + 2 <= i <= |text|
      invariant BlockEnd(text, i) == BlockEnd(text, start + 2)
    {
      if text[i] == '*' && text[i + 1] == '/' {
        return i + 2;
      }
      i := i + 1;
    }
    return |text|;
  }
}

/**
 * The tokenizer: a single left-to-right scan with maximal munch over five
 * character classes, a line counter bumped at every '\n', `//` comments up
 * to the end of the line, and an EOF token appended unconditionally.
 *
 * `Scan` is the specification (one recursive step per iteration of the
 * scanner's outer loop, each token paired with the offset it starts at);
 * `Tokenize` is the scanner itself, a loop proved to compute `Lex`.
 */
module Lexer {
  import opened Types
  import opened Numeric

  /** The reserved words; `print` is deliberately not one of them. */
  const Keywords: set<string> := {"let", "const"}

  /** ECMAScript's `\s`: the white-space and line-terminator characters. */
  predicate IsSpace(c: char)
  {
    || c == ' ' || c == '\t' || c == '\n' || c == '\r' || c == '\U{000B}' || c == '\U{000C}'
    || c == '\U{00A0}' || c == '\U{1680}' || ('\U{2000}' <= c <= '\U{200A}')
    || c == '\U{2028}' || c == '\U{2029}' || c == '\U{202F}' || c == '\U{205F}'
    || c == '\U{3000}' || c == '\U{FEFF}'
  }

  /** `[a-zA-Z_]` */
  predicate IsWordStart(c: char)
  {
    ('a' <= c <= 'z') || ('A' <= c <= 'Z') || c == '_'
  }

  /** `[a-zA-Z0-9_]` */
  predicate IsWordChar(c: char)
  {
    IsWordStart(c) || IsDigit(c)
  }

  /** `[+\-*\/=]` */
  predicate IsOperatorChar(c: char)
  {
    c == '+' || c == '-' || c == '*' || c == '/' || c == '='
  }

  /** `[();]` */
  predicate IsPunctuationChar(c: char)
  {
    c == '(' || c == ')' || c == ';'
  }

  /** A character that some rule of the scanner accepts where a token may start. */
  predicate Recognized(c: char)
  {
    IsSpace(c) || IsDigit(c) || IsWordStart(c) || IsOperatorChar(c) || IsPunctuationChar(c)
  }

  predicate StartsComment(s: string, i: nat)
  {
    i + 1 < |s| && s[i] == '/' && s[i + 1] == '/'
  }

  /** The end of the longest run of digits that starts at `i`. */
  function DigitsEnd(s: string, i: nat): (j: nat)
    requires i <= |s|
    ensures i <= j <= |s|
    ensures forall k :: i <= k < j ==> IsDigit(s[k])
    ensures j == |s| || !IsDigit(s[j])
    decreases |s| - i
  {
    if i < |s| && IsDigit(s[i]) then DigitsEnd(s, i + 1) else i
  }

  /** The end of the longest run of word characters that starts at `i`. */
  function WordEnd(s: string, i: nat): (j: nat)
    requires i <= |s|
    ensures i <= j <= |s|
    ensures forall k :: i <= k < j ==> IsWordChar(s[k])
    ensures j == |s| || !IsWordChar(s[j])
    decreases |s| - i
  {
    if i < |s| && IsWordChar(s[i]) then WordEnd(s, i + 1) else i
  }

  /** The offset of the first line feed at or after `i`, or the end of `s`. */
  function LineEnd(s: string, i: nat): (j: nat)
    requires i <= |s|
    ensures i <= j <= |s|
    ensures forall k :: i <= k < j ==> s[k] != '\n'
    ensures j == |s| || s[j] == '\n'
    decreases |s| - i
  {
    if i < |s| && s[i] != '\n' then LineEnd(s, i + 1) else i
  }

  /** Number of line feeds in `t`. */
  function Newlines(t: string): nat
  {
    if t == [] then 0 else Newlines(t[..|t| - 1]) + (if t[|t| - 1] == '\n' then 1 else 0)
  }

  /** A token together with the offset in the source where its text starts. */
  datatype Located = Located(token: Token, start: nat)

  function Prepend(l: Located, r: Result<seq<Located>, LexError>): Result<seq<Located>, LexError>
  {
    match r
    case Ok(ls) => Ok([l] + ls)
    case Err(e) => Err(e)
  }

  /**
   * The token that starts at offset `i` (which holds neither white space nor
   * the start of a comment): the longest run of digits, the longest word,
   * or a single operator or punctuation character; any other character is
   * an error.
   */
  function NextToken(s: string, i: nat, line: nat): (r: Result<Token, LexError>)
    requires i < |s|
    ensures r.Ok? ==> 0 < |r.value.value| <= |s| - i && r.value.line == line
    ensures r.Ok? ==> s[i..i + |r.value.value|] == r.value.value
    ensures r.Err? <==> !(IsDigit(s[i]) || IsWordStart(s[i]) || IsOperatorChar(s[i]) || IsPunctuationChar(s[i]))
    ensures r.Err? ==> r.error == UnexpectedChar(s[i], line)
  {
    if IsDigit(s[i]) then
      Ok(Token(Number, s[i..DigitsEnd(s, i)], line))
    else if IsWordStart(s[i]) then
      var w := s[i..WordEnd(s, i)];
      Ok(Token(if w in Keywords then Keyword else Ident, w, line))
    else if IsOperatorChar(s[i]) then
      Ok(Token(Operator, [s[i]], line))
    else if IsPunctuationChar(s[i]) then
      Ok(Token(Punctuation, [s[i]], line))
    else
      Err(UnexpectedChar(s[i], line))
  }

  /**
   * The scanner from offset `i` on, `line` being the current line number:
   * the tokens found there, or the first unexpected character.
   */
  function Scan(s: string, i: nat, line: nat): Result<seq<Located>, LexError>
    requires i <= |s|
    decreases |s| - i
  {
    if i == |s| then
      Ok([Located(Token(EOF, "EOF", line), i)])
    else if IsSpace(s[i]) then
      Scan(s, i + 1, if s[i] == '\n' then line + 1 else line)
    else if StartsComment(s, i) then
      Scan(s, LineEnd(s, i), line)
    else
      match NextToken(s, i, line)
      case Err(e) => Err(e)
      case Ok(t) => Prepend(Located(t, i), Scan(s, i + |t.value|, line))
  }

  function Tokens(ls: seq<Located>): (ts: seq<Token>)
    ensures |ts| == |ls|
    ensures forall k :: 0 <= k < |ls| ==> ts[k] == ls[k].token
  {
    if ls == [] then [] else [ls[0].token] + Tokens(ls[1..])
  }

  /** What `tokenize` returns or throws. */
  function Lex(s: string): Result<seq<Token>, LexError>
  {
    match Scan(s, 0, 1)
    case Ok(ls) => Ok(Tokens(ls))
    case Err(e) => Err(e)
  }

  /** Appends the scan of the rest to the tokens found so far. */
  function Continue(done: seq<Located>, r: Result<seq<Located>, LexError>): Result<seq<Located>, LexError>
  {
    match r
    case Ok(ls) => Ok(done + ls)
    case Err(e) => Err(e)
  }

  lemma ContinuePrepend(done: seq<Located>, l: Located, r: Result<seq<Located>, LexError>)
    ensures Continue(done, Prepend(l, r)) == Continue(done + [l], r)
  {
    if r.Ok? {
      assert done + ([l] + r.value) == (done + [l]) + r.value;
    }
  }

  lemma ContinueNothing(r: Result<seq<Located>, LexError>)
    ensures Continue([], r) == r
  {
    if r.Ok? {
      assert [] + r.value == r.value;
    }
  }

  /** The invariant of the scanner's loop: what is found so far, then the scan of the rest. */
  ghost predicate ScannedUpTo(s: string, found: seq<Located>, i: nat, line: nat)
    requires i <= |s|
  {
    Scan(s, 0, 1) == Continue(found, Scan(s, i, line))
  }

  lemma SkipSpace(s: string, found: seq<Located>, i: nat, line: nat)
    requires i < |s| && IsSpace(s[i]) && ScannedUpTo(s, found, i, line)
    ensures ScannedUpTo(s, found, i + 1, if s[i] == '\n' then line + 1 else line)
  {
  }

  lemma SkipComment(s: string, found: seq<Located>, i: nat, line: nat)
    requires i < |s| && !IsSpace(s[i]) && StartsComment(s, i) && ScannedUpTo(s, found, i, line)
    ensures ScannedUpTo(s, found, LineEnd(s, i), line)
  {
  }

  lemma EmitToken(s: string, found: seq<Located>, i: nat, line: nat, t: Token)
    requires i < |s| && !IsSpace(s[i]) && !StartsComment(s, i) && ScannedUpTo(s, found, i, line)
    requires NextToken(s, i, line) == Ok(t)
    ensures i + |t.value| <= |s|
    ensures ScannedUpTo(s, found + [Located(t, i)], i + |t.value|, line)
  {
    ContinuePrepend(found, Located(t, i), Scan(s, i + |t.value|, line));
  }

  /** The inner loop of the scanner that collects a run of digits. */
  method ReadDigits(source: string, from: nat) returns (value: string, current: nat)
    requires from <= |source|
    ensures current == DigitsEnd(source, from) && value == source[from..current]
  {
    current := from;
    value := "";
    while current < |source| && IsDigit(source[current])
      invariant from <= current <= |source|
      invariant value == source[from..current]
      invariant DigitsEnd(source, from) == DigitsEnd(source, current)
      decreases |source| - current
    {
      value := value + [source[current]];
      current := current + 1;
    }
  }

  /** The inner loop of the scanner that collects a word. */
  method ReadWord(source: string, from: nat) returns (value: string, current: nat)
    requires from <= |source|
    ensures current == WordEnd(source, from) && value == source[from..current]
  {
    current := from;
    value := "";
    while current < |source| && IsWordChar(source[current])
      invariant from <= current <= |source|
      invariant value == source[from..current]
      invariant WordEnd(source, from) == WordEnd(source, current)
      decreases |source| - current
    {
      value := value + [source[current]];
      current := current + 1;
    }
  }

  /** The inner loop of the scanner that skips a comment, stopping at the line feed. */
  method SkipCommentText(source: string, from: nat) returns (current: nat)
    requires from <= |source|
    ensures current == LineEnd(source, from)
  {
    current := from;
    while current < |source| && source[current] != '\n'
      invariant from <= current <= |source|
      invariant LineEnd(source, from) == LineEnd(source, current)
      decreases |source| - current
    {
      current := current + 1;
    }
  }

  /** The scanner: consumes `source` left to right, building the token list. */
  method Tokenize(source: string) returns (r: Result<seq<Token>, LexError>)
    ensures r == Lex(source)
  {
    var tokens: seq<Token> := [];
    ghost var found: seq<Located> := [];
    var current := 0;
    var line := 1;
    ContinueNothing(Scan(source, 0, 1));

    while current < |source|
      invariant 0 <= current <= |source|
      invariant |tokens| == |found|
      invariant forall k :: 0 <= k < |found| ==> tokens[k] == found[k].token
      invariant ScannedUpTo(source, found, current, line)
      decreases |source| - current
    {
      var c := source[current];

      if IsSpace(c) {
        SkipSpace(source, found, current, line);
        if c == '\n' {
          line := line + 1;
        }
        current := current + 1;
        continue;
      }

      if c == '/' && current + 1 < |source| && source[current + 1] == '/' {
        SkipComment(source, found, current, line);
        current := SkipCommentText(source, current);
        continue;
      }

      var t: Token;
      ghost var from := current;
      if IsDigit(c) {
        var value;
        value, current := ReadDigits(source, current);
        t := Token(Number, value, line);
      } else if IsWordStart(c) {
        var value;
        value, current := ReadWord(source, current);
        t := Token(if value in Keywords then Keyword else Ident, value, line);
      } else if IsOperatorChar(c) {
        t := Token(Operator, [c], line);
        current := current + 1;
      } else if IsPunctuationChar(c) {
        t := Token(Punctuation, [c], line);
        current := current + 1;
      } else {
        return Err(UnexpectedChar(c, line));
      }
      assert NextToken(source, from, line) == Ok(t) && current == from + |t.value|;
      EmitToken(source, found, from, line, t);
      tokens := tokens + [t];
      found := found + [Located(t, from)];
    }

    var eof := Token(EOF, "EOF", line);
    assert Tokens(found + [Located(eof, current)]) == tokens + [eof];
    r := Ok(tokens + [eof]);
  }
}

/**
 * What the scanner promises: every token is a maximal slice of the source
 * at the offset recorded for it, on the line the line feeds before it
 * determine; the list ends with a single EOF token; the token texts spell
 * the source without its layout; and it fails exactly at an unexpected
 * character.
 */
module LexerProperties {
  import opened Types
  import opened Numeric
  import opened Lexer

  // -------------------------------------------------------- line counting

  lemma NewlinesStep(s: string, i: nat)
    requires i < |s|
    ensures Newlines(s[..i + 1]) == Newlines(s[..i]) + (if s[i] == '\n' then 1 else 0)
  {
    assert s[..i + 1][..i] == s[..i];
  }

  /** Crossing text without a line feed keeps the line number. */
  lemma {:induction false} NewlinesFlat(s: string, i: nat, j: nat)
    requires i <= j <= |s|
    requires forall k :: i <= k < j ==> s[k] != '\n'
    ensures Newlines(s[..j]) == Newlines(s[..i])
    decreases j
  {
    if i < j {
      NewlinesFlat(s, i, j - 1);
      NewlinesStep(s, j - 1);
    }
  }

  lemma {:induction false} NewlinesMonotone(s: string, i: nat, j: nat)
    requires i <= j <= |s|
    ensures Newlines(s[..i]) <= Newlines(s[..j])
    decreases j
  {
    if i < j {
      NewlinesMonotone(s, i, j - 1);
      NewlinesStep(s, j - 1);
    }
  }

  // ------------------------------------------------------ token placement

  predicate IsWord(v: string)
  {
    |v| > 0 && IsWordStart(v[0]) && forall k :: 0 <= k < |v| ==> IsWordChar(v[k])
  }

  /**
   * The token `l.token` is the text of `s` at `l.start`, on the line given by
   * the line feeds before it, and obeys the rule of its class: a maximal
   * run of digits, a maximal word (a Keyword exactly when it is `let` or
   * `const`), a single operator character that does not open a comment, or
   * a single punctuation character. No token but the last is EOF.
   */
  ghost predicate WellLocated(s: string, l: Located)
  {
    var v := l.token.value;
    var p := l.start;
    var e := p + |v|;
    && 0 < |v| && e <= |s| && s[p..e] == v
    && l.token.line == 1 + Newlines(s[..p])
    && match l.token.kind
       case Number => AllDigits(v) && (e == |s| || !IsDigit(s[e]))
       case Keyword => IsWord(v) && (e == |s| || !IsWordChar(s[e])) && v in Keywords
       case Ident => IsWord(v) && (e == |s| || !IsWordChar(s[e])) && v !in Keywords
       case Operator => |v| == 1 && IsOperatorChar(v[0]) && !StartsComment(s, p)
       case Punctuation => |v| == 1 && IsPunctuationChar(v[0])
       case EOF => false
  }

  /** The token `NextToken` finds at `i` is well located there. */
  lemma NextTokenWellLocated(s: string, i: nat, line: nat)
    requires i < |s| && !IsSpace(s[i]) && !StartsComment(s, i)
    requires line == 1 + Newlines(s[..i])
    requires NextToken(s, i, line).Ok?
    ensures WellLocated(s, Located(NextToken(s, i, line).value, i))
    ensures forall k :: i <= k < i + |NextToken(s, i, line).value.value| ==> s[k] != '\n'
  {
    var t := NextToken(s, i, line).value;
    var e := i + |t.value|;
    if IsDigit(s[i]) {
      assert AllDigits(t.value) by {
        forall k | 0 <= k < |t.value| ensures IsDigit(t.value[k]) {
          assert t.value[k] == s[i + k];
        }
      }
    } else if IsWordStart(s[i]) {
      assert IsWord(t.value) by {
        forall k | 0 <= k < |t.value| ensures IsWordChar(t.value[k]) {
          assert t.value[k] == s[i + k];
        }
      }
    }
  }

  /**
   * What a scan from offset `i` yields: every token but the last is well
   * located at or after `i`, tokens do not overlap and come in source
   * order, and the last is the EOF token at the end of the source, on its
   * last line.
   */
  ghost predicate GoodScan(s: string, i: nat, ls: seq<Located>)
  {
    && |ls| > 0
    && ls[|ls| - 1] == Located(Token(EOF, "EOF", 1 + Newlines(s)), |s|)
    && (forall k :: 0 <= k < |ls| ==> i <= ls[k].start)
    && (forall k :: 0 <= k < |ls| - 1 ==> WellLocated(s, ls[k]))
    && (forall j, k :: 0 <= j < k < |ls| ==> ls[j].start + |ls[j].token.value| <= ls[k].start)
  }

  lemma GoodScanCons(s: string, l: Located, rest: seq<Located>)
    requires WellLocated(s, l)
    requires GoodScan(s, l.start + |l.token.value|, rest)
    ensures GoodScan(s, l.start, [l] + rest)
  {
    var ls := [l] + rest;
    forall k | 0 <= k < |ls| - 1 ensures WellLocated(s, ls[k]) {
      if k > 0 {
        assert ls[k] == rest[k - 1];
      }
    }
    forall j, k | 0 <= j < k < |ls| ensures ls[j].start + |ls[j].token.value| <= ls[k].start {
      assert ls[k] == rest[k - 1];
      if j > 0 {
        assert ls[j] == rest[j - 1];
      }
    }
  }

  /** Skipped text in front of a good scan keeps it good. */
  lemma GoodScanFrom(s: string, i: nat, j: nat, ls: seq<Located>)
    requires i <= j && GoodScan(s, j, ls)
    ensures GoodScan(s, i, ls)
  {
  }

  /** The scan from offset `i`, started with the line number of that offset, is good. */
  lemma {:induction false} ScanSound(s: string, i: nat, line: nat)
    requires i <= |s| && line == 1 + Newlines(s[..i])
    ensures Scan(s, i, line).Ok? ==> GoodScan(s, i, Scan(s, i, line).value)
    decreases |s| - i
  {
    if i == |s| {
      assert s[..i] == s;
    } else if IsSpace(s[i]) {
      var next := if s[i] == '\n' then line + 1 else line;
      NewlinesStep(s, i);
      ScanSound(s, i + 1, next);
      if Scan(s, i + 1, next).Ok? {
        GoodScanFrom(s, i, i + 1, Scan(s, i + 1, next).value);
      }
    } else if StartsComment(s, i) {
      var j := LineEnd(s, i);
      NewlinesFlat(s, i, j);
      ScanSound(s, j, line);
      if Scan(s, j, line).Ok? {
        GoodScanFrom(s, i, j, Scan(s, j, line).value);
      }
    } else if NextToken(s, i, line).Ok? {
      var t := NextToken(s, i, line).value;
      var j := i + |t.value|;
      NextTokenWellLocated(s, i, line);
      NewlinesFlat(s, i, j);
      ScanSound(s, j, line);
      if Scan(s, j, line).Ok? {
        GoodScanCons(s, Located(t, i), Scan(s, j, line).value);
      }
    }
  }

  /** A successful scan ends with exactly one EOF token, whose value is "EOF". */
  lemma LexEndsWithEof(s: string)
    ensures Lex(s).Ok? ==>
      var ts := Lex(s).value;
      && |ts| > 0
      && ts[|ts| - 1] == Token(EOF, "EOF", 1 + Newlines(s))
      && forall k :: 0 <= k < |ts| - 1 ==> ts[k].kind != EOF
  {
    assert s[..0] == [];
    ScanSound(s, 0, 1);
  }

  /** Every token's line is one more than the line feeds before it, so lines never decrease. */
  lemma LexLines(s: string)
    ensures Scan(s, 0, 1).Ok? ==>
      var ls := Scan(s, 0, 1).value;
      && (forall k :: 0 <= k < |ls| ==> ls[k].start <= |s| && ls[k].token.line == 1 + Newlines(s[..ls[k].start]))
      && (forall j, k :: 0 <= j <= k < |ls| ==> ls[j].token.line <= ls[k].token.line)
  {
    assert s[..0] == [];
    ScanSound(s, 0, 1);
    if Scan(s, 0, 1).Ok? {
      var ls := Scan(s, 0, 1).value;
      assert s[..|s|] == s;
      forall j, k | 0 <= j <= k < |ls| ensures ls[j].token.line <= ls[k].token.line {
        NewlinesMonotone(s, ls[j].start, ls[k].start);
      }
    }
  }

  // ------------------------------------------------------------- spelling

  /** The source with white space and `//` comments deleted. */
  function StripLayout(s: string, i: nat): string
    requires i <= |s|
    decreases |s| - i
  {
    if i == |s| then []
    else if IsSpace(s[i]) then StripLayout(s, i + 1)
    else if StartsComment(s, i) then StripLayout(s, LineEnd(s, i))
    else [s[i]] + StripLayout(s, i + 1)
  }

  /** The texts of the tokens, EOF excluded, run together. */
  function Spelling(ts: seq<Token>): string
  {
    if ts == [] then []
    else (if ts[0].kind == EOF then [] else ts[0].value) + Spelling(ts[1..])
  }

  lemma {:induction false} StripRun(s: string, i: nat, j: nat)
    requires i <= j <= |s|
    requires forall k :: i <= k < j ==> !IsSpace(s[k]) && !StartsComment(s, k)
    ensures StripLayout(s, i) == s[i..j] + StripLayout(s, j)
    decreases j - i
  {
    if i < j {
      StripRun(s, i + 1, j);
      StripSolid(s, i);
      var x := StripLayout(s, j);
      calc {
        StripLayout(s, i);
        [s[i]] + (s[i + 1..j] + x);
        ([s[i]] + s[i + 1..j]) + x;
        { assert [s[i]] + s[i + 1..j] == s[i..j]; }
        s[i..j] + x;
      }
    }
  }

  /** A character that is neither white space nor the start of a comment is kept. */
  lemma StripSolid(s: string, i: nat)
    requires i < |s| && !IsSpace(s[i]) && !StartsComment(s, i)
    ensures StripLayout(s, i) == [s[i]] + StripLayout(s, i + 1)
  {
  }

  /** The text of a token contains neither white space nor the start of a comment. */
  lemma TokenTextSolid(s: string, i: nat, line: nat)
    requires i < |s| && !IsSpace(s[i]) && !StartsComment(s, i) && NextToken(s, i, line).Ok?
    ensures forall k :: i <= k < i + |NextToken(s, i, line).value.value| ==> !IsSpace(s[k]) && !StartsComment(s, k)
  {
  }

  lemma {:induction false} ScanSpelling(s: string, i: nat, line: nat)
    requires i <= |s|
    ensures Scan(s, i, line).Ok? ==> Spelling(Tokens(Scan(s, i, line).value)) == StripLayout(s, i)
    decreases |s| - i
  {
    if i == |s| {
    } else if IsSpace(s[i]) {
      var next := if s[i] == '\n' then line + 1 else line;
      SkipLayout(s, i, i + 1, line, next);
      ScanSpelling(s, i + 1, next);
    } else if StartsComment(s, i) {
      SkipLayout(s, i, LineEnd(s, i), line, line);
      ScanSpelling(s, LineEnd(s, i), line);
    } else if NextToken(s, i, line).Ok? {
      var j := i + |NextToken(s, i, line).value.value|;
      ScanSpelling(s, j, line);
      TokenSpelling(s, i, line);
    }
  }

  /** White space and comments are skipped by the scanner and deleted from the layout alike. */
  lemma SkipLayout(s: string, i: nat, j: nat, line: nat, next: nat)
    requires i < |s|
    requires IsSpace(s[i]) ==> j == i + 1 && next == (if s[i] == '\n' then line + 1 else line)
    requires !IsSpace(s[i]) ==> StartsComment(s, i) && j == LineEnd(s, i) && next == line
    ensures j <= |s| && Scan(s, i, line) == Scan(s, j, next) && StripLayout(s, i) == StripLayout(s, j)
  {
  }

  /** A token's text is its share of the layout-free source. */
  lemma TokenSpelling(s: string, i: nat, line: nat)
    requires i < |s| && !IsSpace(s[i]) && !StartsComment(s, i) && NextToken(s, i, line).Ok?
    requires var j := i + |NextToken(s, i, line).value.value|;
      Scan(s, j, line).Ok? ==> Spelling(Tokens(Scan(s, j, line).value)) == StripLayout(s, j)
    ensures Scan(s, i, line).Ok? ==> Spelling(Tokens(Scan(s, i, line).value)) == StripLayout(s, i)
  {
    var t := NextToken(s, i, line).value;
    var j := i + |t.value|;
    var rest := Scan(s, j, line);
    ScanToken(s, i, line);
    TokenTextSolid(s, i, line);
    assert rest.Ok? ==> Spelling(Tokens(rest.value)) == StripLayout(s, j);
    PrependSpelling(s, i, j, t, rest);
  }

  /** A solid token text in front of a spelled rest of the scan. */
  lemma PrependSpelling(s: string, i: nat, j: nat, t: Token, r: Result<seq<Located>, LexError>)
    requires i <= j <= |s| && t.kind != EOF && t.value == s[i..j]
    requires forall k :: i <= k < j ==> !IsSpace(s[k]) && !StartsComment(s, k)
    requires r.Ok? ==> Spelling(Tokens(r.value)) == StripLayout(s, j)
    ensures Prepend(Located(t, i), r).Ok? ==> Spelling(Tokens(Prepend(Located(t, i), r).value)) == StripLayout(s, i)
  {
    if r.Ok? {
      SpellingPrepend(t, i, r.value);
      StripRun(s, i, j);
    }
  }

  /** At a token, the scanner emits it and goes on after its text. */
  lemma ScanToken(s: string, i: nat, line: nat)
    requires i < |s| && !IsSpace(s[i]) && !StartsComment(s, i) && NextToken(s, i, line).Ok?
    ensures NextToken(s, i, line).value.kind != EOF
    ensures var t := NextToken(s, i, line).value;
      Scan(s, i, line) == Prepend(Located(t, i), Scan(s, i + |t.value|, line))
  {
  }

  /** A token that is not EOF adds its text in front of the spelling of the rest. */
  lemma SpellingPrepend(t: Token, i: nat, rest: seq<Located>)
    requires t.kind != EOF
    ensures Spelling(Tokens([Located(t, i)] + rest)) == t.value + Spelling(Tokens(rest))
  {
    var ts := Tokens([Located(t, i)] + rest);
    assert ts == [t] + Tokens(rest);
    assert ts[1..] == Tokens(rest);
  }

  /** The token texts, in order, spell the source with white space and comments deleted. */
  lemma LexSpelling(s: string)
    ensures Lex(s).Ok? ==> Spelling(Lex(s).value) == StripLayout(s, 0)
  {
    ScanSpelling(s, 0, 1);
  }

  // --------------------------------------------------------------- errors

  /**
   * The character at `p` is one that the layout walk from `i` keeps: `p`
   * lies at or after `i`, outside white space and `//` comments (the
   * positions whose characters `StripLayout(s, i)` keeps).
   */
  predicate Kept(s: string, i: nat, p: nat)
    requires i <= |s|
    decreases |s| - i
  {
    && i < |s|
    && if IsSpace(s[i]) then Kept(s, i + 1, p)
       else if StartsComment(s, i) then Kept(s, LineEnd(s, i), p)
       else p == i || Kept(s, i + 1, p)
  }

  /**
   * The scan from `i` stops with error `e` at `p`: the first kept position
   * whose character no rule accepts, reported with its character and the
   * line it is on.
   */
  ghost predicate FailsAt(s: string, i: nat, e: LexError, p: nat)
    requires i <= |s|
  {
    && i <= p < |s| && Kept(s, i, p)
    && s[p] == e.ch && !Recognized(s[p]) && e.line == 1 + Newlines(s[..p])
    && forall q: nat :: Kept(s, i, q) && q < p ==> Recognized(s[q])
  }

  /** At most one position is where a scan stops, so the reported character and line are fixed. */
  lemma FailsAtUnique(s: string, i: nat, e: LexError, p: nat, e': LexError, p': nat)
    requires i <= |s| && FailsAt(s, i, e, p) && FailsAt(s, i, e', p')
    ensures p == p' && e == e'
  {
  }

  lemma {:induction false} KeptRange(s: string, i: nat, p: nat)
    requires i <= |s| && Kept(s, i, p)
    ensures i <= p < |s|
    decreases |s| - i
  {
    if IsSpace(s[i]) {
      KeptRange(s, i + 1, p);
    } else if StartsComment(s, i) {
      KeptRange(s, LineEnd(s, i), p);
    } else if p != i {
      KeptRange(s, i + 1, p);
    }
  }

  /** Over a stretch with no layout, every position is kept. */
  lemma {:induction false} KeptRun(s: string, i: nat, j: nat, q: nat)
    requires i <= j <= |s|
    requires forall k :: i <= k < j ==> !IsSpace(s[k]) && !StartsComment(s, k)
    ensures Kept(s, i, q) <==> (i <= q < j || Kept(s, j, q))
    decreases j - i
  {
    if i < j {
      KeptRun(s, i + 1, j, q);
    }
  }

  /** Skipped white space or a comment in front changes no failure position. */
  lemma FailsAfterLayout(s: string, i: nat, j: nat, e: LexError, p: nat)
    requires i < |s|
    requires IsSpace(s[i]) ==> j == i + 1
    requires !IsSpace(s[i]) ==> StartsComment(s, i) && j == LineEnd(s, i)
    requires FailsAt(s, j, e, p)
    ensures FailsAt(s, i, e, p)
  {
    assert forall q: nat :: Kept(s, i, q) <==> Kept(s, j, q);
    KeptRange(s, j, p);
  }

  /** A token of accepted characters in front changes no failure position. */
  lemma FailsAfterToken(s: string, i: nat, j: nat, e: LexError, p: nat)
    requires i <= j <= |s|
    requires forall k :: i <= k < j ==> !IsSpace(s[k]) && !StartsComment(s, k) && Recognized(s[k])
    requires FailsAt(s, j, e, p)
    ensures FailsAt(s, i, e, p)
  {
    KeptRun(s, i, j, p);
    forall q: nat | Kept(s, i, q) && q < p
      ensures Recognized(s[q])
    {
      KeptRun(s, i, j, q);
      KeptRange(s, i, q);
    }
  }

  /** The scan stops at the first kept character no rule accepts, and reports its line. */
  lemma {:induction false} ScanErrorAt(s: string, i: nat, line: nat)
    requires i <= |s| && line == 1 + Newlines(s[..i])
    ensures Scan(s, i, line).Err? ==> exists p :: FailsAt(s, i, Scan(s, i, line).error, p)
    decreases |s| - i
  {
    if i == |s| {
    } else if IsSpace(s[i]) {
      var next := if s[i] == '\n' then line + 1 else line;
      NewlinesStep(s, i);
      ScanErrorAt(s, i + 1, next);
      LayoutErrorAt(s, i, i + 1, line, next);
    } else if StartsComment(s, i) {
      var j := LineEnd(s, i);
      NewlinesFlat(s, i, j);
      ScanErrorAt(s, j, line);
      LayoutErrorAt(s, i, j, line, line);
    } else if NextToken(s, i, line).Ok? {
      var j := i + |NextToken(s, i, line).value.value|;
      NextTokenWellLocated(s, i, line);
      NewlinesFlat(s, i, j);
      ScanErrorAt(s, j, line);
      TokenErrorAt(s, i, line);
    } else {
      UnexpectedAt(s, i, line);
    }
  }

  /** White space or a comment in front of the rest of the scan. */
  lemma LayoutErrorAt(s: string, i: nat, j: nat, line: nat, next: nat)
    requires i < |s|
    requires IsSpace(s[i]) ==> j == i + 1 && next == (if s[i] == '\n' then line + 1 else line)
    requires !IsSpace(s[i]) ==> StartsComment(s, i) && j == LineEnd(s, i) && next == line
    requires j <= |s| && (Scan(s, j, next).Err? ==> exists p :: FailsAt(s, j, Scan(s, j, next).error, p))
    ensures Scan(s, i, line).Err? ==> exists p :: FailsAt(s, i, Scan(s, i, line).error, p)
  {
    SkipLayout(s, i, j, line, next);
    if Scan(s, i, line).Err? {
      var p :| FailsAt(s, j, Scan(s, j, next).error, p);
      FailsAfterLayout(s, i, j, Scan(s, i, line).error, p);
    }
  }

  /** A token in front of the rest of the scan. */
  lemma TokenErrorAt(s: string, i: nat, line: nat)
    requires i < |s| && !IsSpace(s[i]) && !StartsComment(s, i) && NextToken(s, i, line).Ok?
    requires var j := i + |NextToken(s, i, line).value.value|;
      Scan(s, j, line).Err? ==> exists p :: FailsAt(s, j, Scan(s, j, line).error, p)
    ensures Scan(s, i, line).Err? ==> exists p :: FailsAt(s, i, Scan(s, i, line).error, p)
  {
    var j := i + |NextToken(s, i, line).value.value|;
    ScanToken(s, i, line);
    if Scan(s, i, line).Err? {
      var p :| FailsAt(s, j, Scan(s, j, line).error, p);
      TokenTextSolid(s, i, line);
      TokenRecognized(s, i, line);
      FailsAfterToken(s, i, j, Scan(s, i, line).error, p);
    }
  }

  /** A character no rule accepts, outside layout, stops the scan right there. */
  lemma UnexpectedAt(s: string, i: nat, line: nat)
    requires i < |s| && !IsSpace(s[i]) && !StartsComment(s, i) && NextToken(s, i, line).Err?
    requires line == 1 + Newlines(s[..i])
    ensures Scan(s, i, line).Err? && FailsAt(s, i, Scan(s, i, line).error, i)
  {
    forall q: nat | Kept(s, i, q)
      ensures i <= q
    {
      KeptRange(s, i, q);
    }
  }

  lemma {:induction false} ScanTotal(s: string, i: nat, line: nat)
    requires i <= |s|
    requires forall k :: i <= k < |s| ==> Recognized(s[k])
    ensures Scan(s, i, line).Ok?
    decreases |s| - i
  {
    if i == |s| {
    } else if IsSpace(s[i]) {
      ScanTotal(s, i + 1, if s[i] == '\n' then line + 1 else line);
    } else if StartsComment(s, i) {
      ScanTotal(s, LineEnd(s, i), line);
    } else {
      ScanTotal(s, i + |NextToken(s, i, line).value.value|, line);
    }
  }

  /** Every character of `t` is one some rule of the scanner accepts. */
  predicate AllRecognized(t: string)
  {
    forall k :: 0 <= k < |t| ==> Recognized(t[k])
  }

  /** `c` is the first character of `t` that no rule accepts. */
  predicate FirstUnrecognized(t: string, c: char)
  {
    exists k :: 0 <= k < |t| && t[k] == c && !Recognized(c) && AllRecognized(t[..k])
  }

  /** The characters of a token are all accepted ones. */
  lemma TokenRecognized(s: string, i: nat, line: nat)
    requires i < |s| && NextToken(s, i, line).Ok?
    ensures forall k :: i <= k < i + |NextToken(s, i, line).value.value| ==> Recognized(s[k])
  {
  }

  /** Accepted text in front of `t` changes neither whether nor where `t` fails. */
  lemma RecognizedPrefix(a: string, t: string, c: char)
    requires AllRecognized(a)
    ensures AllRecognized(a + t) <==> AllRecognized(t)
    ensures FirstUnrecognized(t, c) ==> FirstUnrecognized(a + t, c)
  {
    if !AllRecognized(t) {
      var k :| 0 <= k < |t| && !Recognized(t[k]);
      assert (a + t)[|a| + k] == t[k];
    }
    if FirstUnrecognized(t, c) {
      var k :| 0 <= k < |t| && t[k] == c && !Recognized(c) && AllRecognized(t[..k]);
      assert (a + t)[|a| + k] == c;
      assert (a + t)[..|a| + k] == a + t[..k];
    }
  }

  /**
   * A scan fails exactly when the source, white space and comments deleted,
   * holds a character no rule accepts, and it reports the first of them.
   */
  lemma {:induction false} ScanFirstError(s: string, i: nat, line: nat)
    requires i <= |s|
    ensures Scan(s, i, line).Err? <==> !AllRecognized(StripLayout(s, i))
    ensures Scan(s, i, line).Err? ==> FirstUnrecognized(StripLayout(s, i), Scan(s, i, line).error.ch)
    decreases |s| - i
  {
    if i == |s| {
    } else if IsSpace(s[i]) {
      var next := if s[i] == '\n' then line + 1 else line;
      SkipLayout(s, i, i + 1, line, next);
      ScanFirstError(s, i + 1, next);
    } else if StartsComment(s, i) {
      SkipLayout(s, i, LineEnd(s, i), line, line);
      ScanFirstError(s, LineEnd(s, i), line);
    } else if NextToken(s, i, line).Err? {
      var t := StripLayout(s, i);
      StripSolid(s, i);
      assert t[0] == s[i] && t[..0] == [];
    } else {
      ScanFirstError(s, i + |NextToken(s, i, line).value.value|, line);
      TokenFirstError(s, i, line);
    }
  }

  /** A token in front of the rest of the scan changes neither whether nor where it fails. */
  lemma TokenFirstError(s: string, i: nat, line: nat)
    requires i < |s| && !IsSpace(s[i]) && !StartsComment(s, i) && NextToken(s, i, line).Ok?
    requires var j := i + |NextToken(s, i, line).value.value|;
      && (Scan(s, j, line).Err? <==> !AllRecognized(StripLayout(s, j)))
      && (Scan(s, j, line).Err? ==> FirstUnrecognized(StripLayout(s, j), Scan(s, j, line).error.ch))
    ensures Scan(s, i, line).Err? <==> !AllRecognized(StripLayout(s, i))
    ensures Scan(s, i, line).Err? ==> FirstUnrecognized(StripLayout(s, i), Scan(s, i, line).error.ch)
  {
    var t := NextToken(s, i, line).value;
    var j := i + |t.value|;
    var rest := Scan(s, j, line);
    ScanToken(s, i, line);
    TokenTextSolid(s, i, line);
    TokenRecognized(s, i, line);
    StripRun(s, i, j);
    PrependFirstError(s[i..j], StripLayout(s, j), Located(t, i), rest);
  }

  /** The outcome of a scan behind accepted text. */
  lemma PrependFirstError(a: string, t: string, l: Located, r: Result<seq<Located>, LexError>)
    requires AllRecognized(a)
    requires r.Err? <==> !AllRecognized(t)
    requires r.Err? ==> FirstUnrecognized(t, r.error.ch)
    ensures Prepend(l, r).Err? <==> !AllRecognized(a + t)
    ensures Prepend(l, r).Err? ==> FirstUnrecognized(a + t, Prepend(l, r).error.ch)
  {
    RecognizedPrefix(a, t, if r.Err? then r.error.ch else ' ');
  }

  /**
   * Tokenizing fails exactly when a character no rule accepts stands
   * outside white space and comments, and it reports the first such
   * character, with its line; a source made only of accepted characters
   * always tokenizes.
   */
  lemma LexErrors(s: string)
    ensures Lex(s).Err? <==> !AllRecognized(StripLayout(s, 0))
    ensures Lex(s).Err? ==> FirstUnrecognized(StripLayout(s, 0), Lex(s).error.ch)
    ensures Lex(s).Err? ==> exists p :: FailsAt(s, 0, Lex(s).error, p)
    ensures (forall k :: 0 <= k < |s| ==> Recognized(s[k])) ==> Lex(s).Ok?
  {
    assert s[..0] == [];
    ScanErrorAt(s, 0, 1);
    ScanFirstError(s, 0, 1);
    if forall k :: 0 <= k < |s| ==> Recognized(s[k]) {
      ScanTotal(s, 0, 1);
    }
  }

  /** A character inside a comment is never reported: `// @` then `@` on line 2 fails on line 2. */
  lemma CommentedCharSkipped()
    ensures Lex("// @\n@") == Err(UnexpectedChar('@', 2))
  {
    var s := "// @\n@";
    assert Scan(s, 5, 2) == Err(UnexpectedChar('@', 2));
    assert Scan(s, 4, 1) == Scan(s, 5, 2);
    assert LineEnd(s, 4) == 4 && LineEnd(s, 0) == 4;
  }

  /**
   * `,` is not a punctuation character of the scanner, so a call with two
   * arguments never gets past tokenizing: `f(a,b)` stops at the comma.
   */
  lemma CommaRejected()
    ensures Lex("f(a,b)") == Err(UnexpectedChar(',', 1))
  {
    var s := "f(a,b)";
    assert !Recognized(s[3]) && !IsSpace(s[3]) && !StartsComment(s, 3);
    assert Scan(s, 3, 1) == Err(UnexpectedChar(',', 1));
    assert !IsWordChar(s[3]) && WordEnd(s, 3) == 3 && WordEnd(s, 2) == 3;
    assert !IsDigit(s[2]) && IsWordStart(s[2]) && s[2..3] == "a" && "a" !in Keywords;
    assert NextToken(s, 2, 1) == Ok(Token(Ident, "a", 1));
    assert Scan(s, 2, 1) == Err(UnexpectedChar(',', 1));
    assert NextToken(s, 1, 1) == Ok(Token(Punctuation, "(", 1));
    assert Scan(s, 1, 1) == Err(UnexpectedChar(',', 1));
    assert !IsWordChar(s[1]) && WordEnd(s, 1) == 1 && WordEnd(s, 0) == 1;
    assert !IsDigit(s[0]) && IsWordStart(s[0]) && s[0..1] == "f" && "f" !in Keywords;
    assert NextToken(s, 0, 1) == Ok(Token(Ident, "f", 1));
  }
}

/**
 What the lexer computes, said without the lexer: a source text is a sequence of gaps
 (blanks, or blanks and a comment) and spelled tokens, and there is exactly one way to
 read it so that no token could have been longer.
 */
module ApiLayout {
  import opened ApiLexer

  // ----------------------------------------------------------- token spellings

  predicate IsIdent(s: string) {
    s != "" && IsIdentStart(s[0]) && forall k :: 0 <= k < |s| ==> IsIdentChar(s[k])
  }

  predicate IsNumber(s: string) {
    s != "" && forall k :: 0 <= k < |s| ==> IsDigit(s[k])
  }

  /** A character that starts no other token. */
  predicate IsStray(c: char) {
    NotBlank(c) && Punctuation(c).None? && c != '/' && !IsQuote(c) && !IsTick(c) && !IsDigit(c) && !IsIdentStart(c)
  }

  /** Some source text lexes to this kind. */
  predicate Spellable(kind: TokenKind) {
    match kind
    case Ident(s) => IsIdent(s)
    case Number(s) => IsNumber(s)
    case Str(s) => '"' !in s
    case Backtick(s) => '`' !in s
    case Unknown(c) => IsStray(c)
    case _ => true
  }

  function Text(kind: TokenKind): string {
    match kind
    case Eof => ""
    case Newline => "\n"
    case Ident(s) => s
    case Str(s) => "\"" + s + "\""
    case Number(s) => s
    case LBrace => "{"
    case RBrace => "}"
    case LParen => "("
    case RParen => ")"
    case LBracket => "["
    case RBracket => "]"
    case Colon => ":"
    case Semi => ";"
    case Comma => ","
    case Eq => "="
    case Star => "*"
    case At => "@"
    case Slash => "/"
    case Backtick(s) => "`" + s + "`"
    case Unknown(c) => [c]
  }

  /** The character at offset `e`, if any, does not prolong a token of this kind. */
  predicate Closed(kind: TokenKind, src: string, e: nat) {
    e >= |src| ||
    match kind
    case Ident(_) => !IsIdentChar(src[e])
    case Number(_) => !IsDigit(src[e])
    case Slash => src[e] != '/'
    case _ => true
  }

  /** A quoted token may lack its closing quote where the source ends. */
  predicate Spelled(src: string, x: Lexeme)
    requires x.start <= x.end <= |src|
  {
    var text := src[x.start..x.end];
    || text == Text(x.kind)
    || (x.end == |src| && x.kind.Str? && text == "\"" + x.kind.text)
    || (x.end == |src| && x.kind.Backtick? && text == "`" + x.kind.raw)
  }

  // ---------------------------------------------------------------------- gaps

  predicate HasComment(gap: string) {
    Until(gap, 0, NotBlank) < |gap|
  }

  /** Blanks, then possibly a comment; the newline that ends a comment is a token, not part of the gap. */
  predicate IsGap(gap: string) {
    var s := Until(gap, 0, NotBlank);
    s == |gap| || (s + 1 < |gap| && gap[s] == '/' && gap[s + 1] == '/' && '\n' !in gap)
  }

  predicate GapBefore(gap: string, kind: TokenKind) {
    IsGap(gap) && (HasComment(gap) ==> kind.Newline? || kind.Eof?)
  }

  // -------------------------------------------------------------------- tiling

  /** `x` reads the source from offset `i`: a gap, then the spelling of a token that cannot be longer. */
  predicate Reads(src: string, i: nat, x: Lexeme) {
    && i <= x.start <= x.end <= |src|
    && GapBefore(src[i..x.start], x.kind)
    && Spellable(x.kind)
    && Spelled(src, x)
    && Closed(x.kind, src, x.end)
    && (x.kind.Eof? ==> x.end == |src|)
  }

  /** The tokens cover the source from `i` to its end without overlap, and the end of file comes once, last. */
  predicate Tiles(src: string, i: nat, xs: seq<Lexeme>)
    decreases |xs|
  {
    && xs != []
    && Reads(src, i, xs[0])
    && (xs[0].kind.Eof? <==> |xs| == 1)
    && (|xs| > 1 ==> Tiles(src, xs[0].end, xs[1..]))
  }

  /** `Until` is the only offset with its defining property. */
  lemma UntilIs(src: string, i: nat, stop: char -> bool, j: nat)
    requires i <= j <= |src|
    requires forall k :: i <= k < j ==> !stop(src[k])
    requires j < |src| ==> stop(src[j])
    ensures Until(src, i, stop) == j
  {
    var u := Until(src, i, stop);
  }

  lemma BlanksEnd(src: string, i: nat, j: nat)
    requires i <= j <= |src|
    ensures var g := src[i..j]; var s := Until(src, i, NotBlank);
            Until(g, 0, NotBlank) == if s < j then s - i else j - i
  {
    var g := src[i..j];
    var s := Until(src, i, NotBlank);
    var n := if s < j then s - i else j - i;
    UntilIs(g, 0, NotBlank, n);
  }

  /** A punctuation token is spelled by its character and cannot be prolonged. */
  lemma PunctuationReads(src: string, s: nat)
    requires s < |src| && Punctuation(src[s]).Some?
    ensures Reads(src, s, Lexeme(Punctuation(src[s]).value, s, s + 1))
  {
    assert src[s..s + 1] == [src[s]];
    assert src[s..s] == "";
  }

  /** A token with its text and nothing skipped before it. */
  lemma TextReads(src: string, x: Lexeme)
    requires x.start <= x.end <= |src| && Spellable(x.kind) && !x.kind.Eof?
    requires Spelled(src, x) && Closed(x.kind, src, x.end)
    ensures Reads(src, x.start, x)
  {
    assert src[x.start..x.start] == "";
  }

  lemma QuotedReads(src: string, s: nat)
    requires s < |src| && (src[s] == '"' || src[s] == '`')
    ensures Reads(src, s, WordAt(src, s))
  {
    var x := WordAt(src, s);
    var e := Until(src, s + 1, if src[s] == '"' then IsQuote else IsTick);
    assert src[s..x.end] == [src[s]] + src[s + 1..e] + src[e..x.end];
    TextReads(src, x);
  }

  /** A string, number, identifier or stray character is spelled where it starts and could not be longer. */
  lemma WordReads(src: string, s: nat)
    requires s < |src| && NotBlank(src[s]) && Punctuation(src[s]).None? && src[s] != '/'
    ensures Reads(src, s, WordAt(src, s))
  {
    if src[s] == '"' || src[s] == '`' {
      QuotedReads(src, s);
    } else {
      TextReads(src, WordAt(src, s));
    }
  }

  /** The token at an offset is spelled there and could not be longer. */
  lemma TokenReads(src: string, s: nat)
    requires s <= |src| && (s < |src| ==> NotBlank(src[s])) && !CommentAt(src, s)
    ensures Reads(src, s, TokenAt(src, s))
  {
    if s == |src| {
      assert src[s..s] == "";
    } else if Punctuation(src[s]).Some? {
      PunctuationReads(src, s);
    } else if src[s] == '/' {
      TextReads(src, Lexeme(Slash, s, s + 1));
    } else {
      WordReads(src, s);
    }
  }

  /** What the lexer skips is a gap that fits the token after it. */
  lemma SkipsGap(src: string, i: nat)
    requires i <= |src|
    ensures var t := SkipGap(src, i); GapBefore(src[i..t], TokenAt(src, t).kind)
  {
    var s := Until(src, i, NotBlank);
    var t := SkipGap(src, i);
    BlanksEnd(src, i, t);
    if CommentAt(src, s) {
      var gap := src[i..t];
      assert gap[s - i] == src[s] && gap[s - i + 1] == src[s + 1];
      assert forall k :: i <= k < t ==> src[k] != '\n';
    }
  }

  /** What the lexer returns reads the source. */
  lemma ScanReads(src: string, i: nat)
    requires i <= |src|
    ensures Reads(src, i, Scan(src, i))
  {
    SkipsGap(src, i);
    TokenReads(src, SkipGap(src, i));
  }

  /** A gap ends where the lexer stops skipping. */
  lemma GapEnd(src: string, i: nat, x: Lexeme)
    requires Reads(src, i, x)
    ensures x.start == SkipGap(src, i)
  {
    var s := Until(src, i, NotBlank);
    var gap := src[i..x.start];
    TokenStart(src, i, x);
    BlanksEnd(src, i, x.start);
    assert forall k :: i <= k < x.start ==> src[k] == gap[k - i];
    if HasComment(gap) {
      assert src[s] == gap[s - i] && src[s + 1] == gap[s - i + 1];
      UntilIs(src, s + 1, IsNewline, x.start);
    } else {
      UntilIs(src, i, NotBlank, x.start);
    }
  }

  /** Only one lexeme reads the source from a given offset. */
  lemma ReadsIsScan(src: string, i: nat, x: Lexeme)
    requires Reads(src, i, x)
    ensures x == Scan(src, i)
  {
    assert src[x.start..x.start] == "";
    GapEnd(src, i, x);
    TokenIsScanned(src, x);
  }

  /** A token starts with a character that is neither a blank nor the start of a comment. */
  lemma TokenStart(src: string, i: nat, x: Lexeme)
    requires Reads(src, i, x)
    ensures x.kind.Eof? <==> x.start == |src|
    ensures x.start < |src| ==> NotBlank(src[x.start])
    ensures x.kind.Newline? ==> x.start < |src| && src[x.start] == '\n'
    ensures !x.kind.Eof? ==> x.start < x.end && src[x.start] == Text(x.kind)[0]
  {
    var text := src[x.start..x.end];
    if !x.kind.Eof? {
      assert text[0] == Text(x.kind)[0];
      assert text[0] == src[x.start];
    }
  }

  /** A spelled token is the one the lexer reads at its start. */
  lemma TokenIsScanned(src: string, x: Lexeme)
    requires Reads(src, x.start, x)
    ensures x == TokenAt(src, x.start)
  {
    TokenStart(src, x.start, x);
    match x.kind
    case Ident(n) => RunIsScanned(src, x, NotIdentChar);
    case Number(n) => RunIsScanned(src, x, NotDigit);
    case Str(v) => QuotedIsScanned(src, x, v, IsQuote, '"');
    case Backtick(v) => QuotedIsScanned(src, x, v, IsTick, '`');
    case _ =>
  }

  lemma RunIsScanned(src: string, x: Lexeme, stop: char -> bool)
    requires x.start <= x.end <= |src|
    requires forall c :: c in src[x.start..x.end] ==> !stop(c)
    requires x.end < |src| ==> stop(src[x.end])
    ensures Until(src, x.start, stop) == x.end
  {
    assert forall k :: x.start <= k < x.end ==> src[k] in src[x.start..x.end];
    UntilIs(src, x.start, stop, x.end);
  }

  lemma QuotedBody(src: string, s: nat, e: nat, v: string, q: char)
    requires s <= e <= |src| && (src[s..e] == [q] + v + [q] || src[s..e] == [q] + v)
    ensures s + 1 + |v| <= e && src[s + 1..s + 1 + |v|] == v
    ensures src[s..e] == [q] + v + [q] ==> src[s + 1 + |v|] == q && e == s + 2 + |v|
  {
    forall k | 0 <= k < |v| ensures src[s + 1 + k] == v[k] {
      assert src[s..e][1 + k] == v[k];
    }
    assert src[s + 1..s + 1 + |v|] == v;
    if src[s..e] == [q] + v + [q] {
      assert src[s..e][1 + |v|] == q;
    }
  }

  lemma QuotedIsScanned(src: string, x: Lexeme, v: string, close: char -> bool, q: char)
    requires x.start <= x.end <= |src| && forall c :: close(c) <==> c == q
    requires q !in v
    requires src[x.start..x.end] == [q] + v + [q] || (x.end == |src| && src[x.start..x.end] == [q] + v)
    ensures x.start < |src|
    ensures var e := Until(src, x.start + 1, close); src[x.start + 1..e] == v && PastQuote(src, e) == x.end
  {
    var e := x.start + 1 + |v|;
    QuotedBody(src, x.start, x.end, v, q);
    assert forall k :: x.start + 1 <= k < e ==> src[k] == v[k - x.start - 1];
    UntilIs(src, x.start + 1, close, e);
  }

  /** The lexer's tokens, and no other list, tile the source. */
  lemma {:induction false} TilingIsUnique(src: string, i: nat, xs: seq<Lexeme>)
    requires i <= |src|
    ensures Tiles(src, i, xs) <==> xs == ScanAll(src, i)
    decreases |src| - i
  {
    var x := Scan(src, i);
    ScanReads(src, i);
    if x.kind.Eof? {
      if Tiles(src, i, xs) {
        ReadsIsScan(src, i, xs[0]);
      }
    } else {
      var all := ScanAll(src, i);
      assert all[1..] == ScanAll(src, x.end);
      TilingIsUnique(src, x.end, all[1..]);
      assert Tiles(src, i, all);
      if Tiles(src, i, xs) {
        ReadsIsScan(src, i, xs[0]);
        TilingIsUnique(src, x.end, xs[1..]);
        assert xs == [xs[0]] + xs[1..];
      }
    }
  }

  // ------------------------------------------------------------------- layouts

  /** A list of token kinds, built and taken apart at its front. */
  datatype Kinds = End | Then(head: TokenKind, rest: Kinds) {
    function Length(): nat {
      match this
      case End => 0
      case Then(_, rest) => 1 + rest.Length()
    }

    /** Every token can be written, and the end of file comes once, last. */
    predicate Writable() {
      match this
      case End => false
      case Then(kind, rest) => Spellable(kind) && if kind.Eof? then rest.End? else rest.Writable()
    }
  }

  /** The kinds of the tokens from position `p`. */
  function View(ts: seq<Token>, p: nat): Kinds
    decreases |ts| - p
  {
    if p < |ts| then Then(ts[p].kind, View(ts, p + 1)) else End
  }

  /** The tokens spelled one after the other, each after its gap. */
  function Render(kinds: Kinds, gaps: seq<string>): string
    requires |gaps| == kinds.Length()
  {
    match kinds
    case End => ""
    case Then(kind, rest) => gaps[0] + Text(kind) + Render(rest, gaps[1..])
  }

  /** The gaps keep the tokens apart. */
  predicate Admissible(kinds: Kinds, gaps: seq<string>)
    decreases kinds
  {
    && |gaps| == kinds.Length()
    && match kinds
       case End => true
       case Then(kind, rest) =>
         GapBefore(gaps[0], kind) && Closed(kind, Render(rest, gaps[1..]), 0) && Admissible(rest, gaps[1..])
  }

  /** A gap and a token, with nothing after them that prolongs the token, are read as that token. */
  lemma FirstTokenScans(src: string, i: nat, gap: string, kind: TokenKind, rest: string)
    requires i <= |src| && src[i..] == gap + Text(kind) + rest
    requires GapBefore(gap, kind) && Spellable(kind) && Closed(kind, rest, 0)
    requires kind.Eof? ==> rest == ""
    ensures var x := Scan(src, i); x.kind == kind && src[x.end..] == rest
  {
    var text := Text(kind);
    var s := i + |gap|;
    var e := s + |text|;
    assert src[i..s] == src[i..][..|gap|] == gap;
    assert src[s..e] == src[i..][|gap|..|gap| + |text|] == text;
    assert src[e..] == src[i..][|gap| + |text|..] == rest;
    assert e < |src| ==> src[e] == rest[0];
    ReadsIsScan(src, i, Lexeme(kind, s, e));
  }

  lemma FirstOfLayout(src: string, i: nat, kinds: Kinds, gaps: seq<string>)
    requires kinds.Writable() && Admissible(kinds, gaps)
    requires i <= |src| && src[i..] == Render(kinds, gaps)
    ensures var x := Scan(src, i); x.kind == kinds.head && src[x.end..] == Render(kinds.rest, gaps[1..])
  {
    FirstTokenScans(src, i, gaps[0], kinds.head, Render(kinds.rest, gaps[1..]));
  }

  lemma {:induction false} ViewShift(t: Token, ts: seq<Token>, p: nat)
    ensures View([t] + ts, p + 1) == View(ts, p)
    decreases |ts| - p
  {
    if p < |ts| {
      ViewShift(t, ts, p + 1);
    }
  }

  lemma ViewCons(t: Token, ts: seq<Token>)
    ensures View([t] + ts, 0) == Then(t.kind, View(ts, 0))
  {
    ViewShift(t, ts, 0);
  }

  /** The tokens of a source, taken apart. */
  lemma ViewOfTokens(src: string, i: nat)
    requires i <= |src|
    ensures var x := Scan(src, i);
            View(TokensFrom(src, i), 0) == Then(x.kind, if x.kind.Eof? then End else View(TokensFrom(src, x.end), 0))
  {
    var x := Scan(src, i);
    if x.kind.Eof? {
      ViewCons(Stamp(src, x), []);
    } else {
      ViewCons(Stamp(src, x), TokensFrom(src, x.end));
    }
  }

  /** The first token of a layout is read off, and the rest of the layout is left. */
  lemma LayoutStep(src: string, i: nat, kinds: Kinds, gaps: seq<string>) returns (e: nat)
    requires kinds.Writable() && Admissible(kinds, gaps)
    requires i <= |src| && src[i..] == Render(kinds, gaps)
    ensures i <= e <= |src| && src[e..] == Render(kinds.rest, gaps[1..])
    ensures View(TokensFrom(src, i), 0)
            == Then(kinds.head, if kinds.head.Eof? then End else View(TokensFrom(src, e), 0))
  {
    FirstOfLayout(src, i, kinds, gaps);
    ViewOfTokens(src, i);
    e := Scan(src, i).end;
  }

  /** Whatever the layout, the lexer gives back the tokens that were laid out. */
  lemma {:induction false} LexUndoesRender(src: string, i: nat, kinds: Kinds, gaps: seq<string>)
    requires kinds.Writable() && Admissible(kinds, gaps)
    requires i <= |src| && src[i..] == Render(kinds, gaps)
    ensures View(TokensFrom(src, i), 0) == kinds
    decreases kinds
  {
    var e := LayoutStep(src, i, kinds, gaps);
    if !kinds.head.Eof? {
      LexUndoesRender(src, e, kinds.rest, gaps[1..]);
    }
  }

  /** One blank before every token. */
  function Spaces(n: nat): (gaps: seq<string>)
    ensures |gaps| == n && forall k :: 0 <= k < n ==> gaps[k] == " "
  {
    seq(n, _ => " ")
  }

  /** Single blanks are a layout of every list of tokens. */
  lemma {:induction false} SpacesAdmissible(kinds: Kinds)
    ensures Admissible(kinds, Spaces(kinds.Length()))
  {
    UntilIs(" ", 0, NotBlank, 1);
    match kinds
    case End =>
    case Then(_, rest) =>
      SpacesAdmissible(rest);
      assert Spaces(kinds.Length())[1..] == Spaces(rest.Length());
  }

  /** Every token carries the line and column of the offset where its text starts. */
  lemma {:induction false} TokensAreStamped(src: string, i: nat)
    requires i <= |src|
    ensures |TokensFrom(src, i)| == |ScanAll(src, i)|
    ensures forall k :: 0 <= k < |ScanAll(src, i)| ==> TokensFrom(src, i)[k] == Stamp(src, ScanAll(src, i)[k])
    decreases |src| - i
  {
    var x := Scan(src, i);
    if !x.kind.Eof? {
      TokensAreStamped(src, x.end);
    }
  }

  /** The tokens of a source are spellable, and the end of file comes once, last. */
  lemma {:induction false} TokensAreWritable(src: string, i: nat)
    requires i <= |src|
    ensures View(TokensFrom(src, i), 0).Writable()
    decreases |src| - i
  {
    var x := Scan(src, i);
    assert Spellable(x.kind) by { ScanReads(src, i); }
    ViewOfTokens(src, i);
    if !x.kind.Eof? {
      TokensAreWritable(src, x.end);
    }
  }
}

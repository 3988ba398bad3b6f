/**
 The lexer of `.api` files (rszero/src/api/lexer.rs).

 `Scan` and `ScanAll` say what one call and a whole pass of the lexer return, as
 functions of the source text and an offset. The class `Lexer` is the source's own
 form: a cursor with a line and a column that `Advance` keeps up to date. Each of its
 methods is proved against those functions.
 */
module ApiLexer {
  import opened Wrappers

  datatype TokenKind =
    | Eof
    | Newline
    | Ident(name: string)
    | Str(text: string)
    | Number(digits: string)
    | LBrace
    | RBrace
    | LParen
    | RParen
    | LBracket
    | RBracket
    | Colon
    | Semi
    | Comma
    | Eq
    | Star
    | At
    | Slash
    | Backtick(raw: string)
    | Unknown(c: char)

  datatype Token = Token(kind: TokenKind, line: nat, column: nat)

  /** A token together with the half-open range of source offsets it was read from. */
  datatype Lexeme = Lexeme(kind: TokenKind, start: nat, end: nat)

  // ---------------------------------------------------------------- characters

  predicate IsBlank(c: char) { c == ' ' || c == '\t' || c == '\r' }

  predicate NotBlank(c: char) { !IsBlank(c) }

  predicate IsNewline(c: char) { c == '\n' }

  predicate IsQuote(c: char) { c == '"' }

  predicate IsTick(c: char) { c == '`' }

  predicate IsDigit(c: char) { '0' <= c <= '9' }

  predicate NotDigit(c: char) { !IsDigit(c) }

  /**
   The letters and the numeric characters outside ASCII. Their values are left open: what is
   proved holds for the classes of every version of Unicode.
   */
  const ALPHABETIC: char -> bool

  const NUMERIC: char -> bool

  predicate IsLetter(c: char) { 'a' <= c <= 'z' || 'A' <= c <= 'Z' || (c as int >= 128 && ALPHABETIC(c)) }

  predicate IsIdentStart(c: char) { IsLetter(c) || c == '_' }

  predicate IsIdentChar(c: char) {
    IsLetter(c) || IsDigit(c) || c == '_' || c == '-' || (c as int >= 128 && NUMERIC(c))
  }

  predicate NotIdentChar(c: char) { !IsIdentChar(c) }

  /** The token of a character that always stands for itself. */
  function Punctuation(c: char): Option<TokenKind> {
    match c
    case '\n' => Some(Newline)
    case '{' => Some(LBrace)
    case '}' => Some(RBrace)
    case '(' => Some(LParen)
    case ')' => Some(RParen)
    case '[' => Some(LBracket)
    case ']' => Some(RBracket)
    case ':' => Some(Colon)
    case ';' => Some(Semi)
    case ',' => Some(Comma)
    case '=' => Some(Eq)
    case '*' => Some(Star)
    case '@' => Some(At)
    case _ => None
  }

  // ------------------------------------------------------------- specification

  /** The first offset at or after `i` whose character satisfies `stop`, or the end. */
  function Until(src: string, i: nat, stop: char -> bool): (j: nat)
    requires i <= |src|
    ensures i <= j <= |src|
    ensures forall k :: i <= k < j ==> !stop(src[k])
    ensures j < |src| ==> stop(src[j])
    decreases |src| - i
  {
    if i == |src| || stop(src[i]) then i else Until(src, i + 1, stop)
  }

  /** The end of a quoted token whose body ends at offset `e`: past the closing quote, if there is one. */
  function PastQuote(src: string, e: nat): nat {
    if e < |src| then e + 1 else e
  }

  predicate CommentAt(src: string, s: nat) {
    s + 1 < |src| && src[s] == '/' && src[s + 1] == '/'
  }

  /** Where the next token starts: after the blanks and, if one follows them, the comment. */
  function SkipGap(src: string, i: nat): (t: nat)
    requires i <= |src|
    ensures i <= t <= |src| && !CommentAt(src, t)
    ensures t < |src| ==> NotBlank(src[t])
  {
    var s := Until(src, i, NotBlank);
    if CommentAt(src, s) then Until(src, s + 1, IsNewline) else s
  }

  /** The token at an offset where neither punctuation nor a slash stands. */
  function WordAt(src: string, s: nat): (x: Lexeme)
    requires s < |src|
    ensures x.start == s < x.end <= |src| && !x.kind.Eof?
  {
    if src[s] == '"' then
      var e := Until(src, s + 1, IsQuote);
      Lexeme(Str(src[s + 1..e]), s, PastQuote(src, e))
    else if src[s] == '`' then
      var e := Until(src, s + 1, IsTick);
      Lexeme(Backtick(src[s + 1..e]), s, PastQuote(src, e))
    else if IsDigit(src[s]) then
      var e := Until(src, s, NotDigit);
      Lexeme(Number(src[s..e]), s, e)
    else if IsIdentStart(src[s]) then
      var e := Until(src, s, NotIdentChar);
      Lexeme(Ident(src[s..e]), s, e)
    else
      Lexeme(Unknown(src[s]), s, s + 1)
  }

  /** The token that starts at offset `s`. */
  function TokenAt(src: string, s: nat): (x: Lexeme)
    requires s <= |src|
    ensures x.start == s <= x.end <= |src|
    ensures x.kind.Eof? <==> s == |src|
    ensures !x.kind.Eof? ==> s < x.end
  {
    if s == |src| then Lexeme(Eof, s, s)
    else if Punctuation(src[s]).Some? then Lexeme(Punctuation(src[s]).value, s, s + 1)
    else if src[s] == '/' then Lexeme(Slash, s, s + 1)
    else WordAt(src, s)
  }

  /** The token that the lexer returns when its cursor is at offset `i`. */
  function Scan(src: string, i: nat): (x: Lexeme)
    requires i <= |src|
  {
    TokenAt(src, SkipGap(src, i))
  }

  /** Blanks before a token do not matter. */
  lemma BlanksAreGap(src: string, i: nat)
    requires i <= |src|
    ensures Scan(src, Until(src, i, NotBlank)) == Scan(src, i)
  {
    var s := Until(src, i, NotBlank);
    assert Until(src, s, NotBlank) == s;
  }

  /** Nor does a comment. */
  lemma CommentIsGap(src: string, s: nat)
    requires CommentAt(src, s)
    ensures Scan(src, Until(src, s + 1, IsNewline)) == Scan(src, s)
  {
    assert Until(src, s, NotBlank) == s;
    BlanksAreGap(src, Until(src, s + 1, IsNewline));
  }

  lemma NoGap(src: string, s: nat)
    requires s <= |src| && (s < |src| ==> NotBlank(src[s])) && !CommentAt(src, s)
    ensures Scan(src, s) == TokenAt(src, s)
  {
    assert Until(src, s, NotBlank) == s;
  }

  /** All tokens from offset `i` up to and including the end of file. */
  function ScanAll(src: string, i: nat): (xs: seq<Lexeme>)
    requires i <= |src|
    ensures forall k :: 0 <= k < |xs| ==> i <= xs[k].start <= xs[k].end <= |src|
    decreases |src| - i
  {
    var x := Scan(src, i);
    if x.kind.Eof? then [x] else [x] + ScanAll(src, x.end)
  }

  /** The 1-based line of offset `i`: one more than the newlines before it. */
  function LineAt(src: string, i: nat): nat
    requires i <= |src|
  {
    if i == 0 then 1
    else if src[i - 1] == '\n' then LineAt(src, i - 1) + 1
    else LineAt(src, i - 1)
  }

  /** The offset just after the last newline before `i`. */
  function LineStart(src: string, i: nat): (b: nat)
    requires i <= |src|
    ensures b <= i
    ensures b == 0 || src[b - 1] == '\n'
    ensures forall k :: b <= k < i ==> src[k] != '\n'
  {
    if i == 0 || src[i - 1] == '\n' then i else LineStart(src, i - 1)
  }

  /** The 1-based column of offset `i`: its distance from the start of its line. */
  function ColumnAt(src: string, i: nat): nat
    requires i <= |src|
  {
    i - LineStart(src, i) + 1
  }

  function Stamp(src: string, x: Lexeme): Token
    requires x.start <= |src|
  {
    Token(x.kind, LineAt(src, x.start), ColumnAt(src, x.start))
  }

  /** The tokens from offset `i`, stamped with their positions: what `tokenize` returns from there. */
  function TokensFrom(src: string, i: nat): (ts: seq<Token>)
    requires i <= |src|
    decreases |src| - i
  {
    var x := Scan(src, i);
    [Stamp(src, x)] + if x.kind.Eof? then [] else TokensFrom(src, x.end)
  }

  lemma Regroup<T>(a: seq<T>, x: T, b: seq<T>)
    ensures a + ([x] + b) == (a + [x]) + b
  {
  }

  // --------------------------------------------------------------------- class

  class Lexer {
    const source: string
    var pos: nat
    var current: Option<char>
    var line: nat
    var column: nat

    /** The cursor is in the source and `current` is the character under it. */
    ghost predicate InSource()
      reads this
    {
      pos <= |source| && current == (if pos < |source| then Some(source[pos]) else None)
    }

    ghost predicate Valid()
      reads this
    {
      InSource() && line == LineAt(source, pos) && column == ColumnAt(source, pos)
    }

    constructor (source: string)
      ensures Valid() && this.source == source && pos == 0
    {
      this.source := source;
      pos := 0;
      current := if |source| > 0 then Some(source[0]) else None;
      line := 1;
      column := 1;
    }

    /** At the end of the source only the column moves; everywhere else the position stays exact. */
    method Advance()
      requires InSource()
      modifies this
      ensures InSource()
      ensures pos == if old(pos) < |source| then old(pos) + 1 else old(pos)
      ensures old(pos) == |source| ==> line == old(line) && column == old(column) + 1
      ensures old(pos) < |source| && old(Valid()) ==> Valid()
    {
      if current == Some('\n') {
        line := line + 1;
        column := 1;
      } else {
        column := column + 1;
      }
      if pos < |source| {
        pos := pos + 1;
      }
      current := if pos < |source| then Some(source[pos]) else None;
    }

    /** `skip_whitespace`. */
    method SkipWhitespace()
      requires Valid()
      modifies this
      ensures Valid() && pos == Until(source, old(pos), NotBlank)
    {
      while current.Some? && IsBlank(current.value)
        invariant Valid()
        invariant Until(source, pos, NotBlank) == Until(source, old(pos), NotBlank)
        decreases |source| - pos
      {
        Advance();
      }
    }

    /** `skip_line_comment`. */
    method SkipLineComment()
      requires Valid()
      modifies this
      ensures Valid() && pos == Until(source, old(pos), IsNewline)
    {
      while current.Some? && current.value != '\n'
        invariant Valid()
        invariant Until(source, pos, IsNewline) == Until(source, old(pos), IsNewline)
        decreases |source| - pos
      {
        Advance();
      }
    }

    /** The loop shared by the four `read_` methods: collect characters up to one that stops it. */
    method ReadRun(stop: char -> bool) returns (value: string)
      requires Valid()
      modifies this
      ensures Valid() && pos == Until(source, old(pos), stop)
      ensures value == source[old(pos)..pos]
    {
      value := "";
      while current.Some? && !stop(current.value)
        invariant Valid() && old(pos) <= pos && value == source[old(pos)..pos]
        invariant Until(source, pos, stop) == Until(source, old(pos), stop)
        decreases |source| - pos
      {
        value := value + [current.value];
        Advance();
      }
    }

    /** `read_string` and `read_backtick`, from the opening quote. */
    method ReadQuoted(close: char -> bool) returns (value: string)
      requires Valid() && current.Some?
      modifies this
      ensures Valid()
      ensures var e := Until(source, old(pos) + 1, close);
              value == source[old(pos) + 1..e] && pos == PastQuote(source, e)
    {
      Advance();
      value := ReadRun(close);
      if current.Some? {
        Advance();
      }
    }

    /** The arms of `next_token` for strings, numbers, identifiers and stray characters. */
    method ReadWord() returns (t: Token)
      requires Valid() && current.Some?
      modifies this
      ensures Valid()
      ensures var x := WordAt(source, old(pos)); pos == x.end && t == Stamp(source, x)
    {
      var l, c, ch := line, column, current.value;
      if ch == '"' {
        var v := ReadQuoted(IsQuote);
        t := Token(Str(v), l, c);
      } else if ch == '`' {
        var v := ReadQuoted(IsTick);
        t := Token(Backtick(v), l, c);
      } else if IsDigit(ch) {
        var v := ReadRun(NotDigit);
        t := Token(Number(v), l, c);
      } else if IsIdentStart(ch) {
        var v := ReadRun(NotIdentChar);
        t := Token(Ident(v), l, c);
      } else {
        Advance();
        t := Token(Unknown(ch), l, c);
      }
    }

    /** `next_token`: the scanned token, stamped with the line and column where it starts. */
    method NextToken() returns (t: Token)
      requires Valid()
      modifies this
      ensures Valid()
      ensures var x := Scan(source, old(pos)); pos == x.end && t == Stamp(source, x)
      decreases |source| - pos, 1
    {
      BlanksAreGap(source, pos);
      SkipWhitespace();
      if current == Some('/') {
        t := SlashOrComment();
      } else {
        NoGap(source, pos);
        t := PlainToken();
      }
    }

    /** The arm of `next_token` for a slash: one slash is a token, two start a comment. */
    method SlashOrComment() returns (t: Token)
      requires Valid() && current == Some('/')
      modifies this
      ensures Valid()
      ensures var x := Scan(source, old(pos)); pos == x.end && t == Stamp(source, x)
      decreases |source| - pos, 0
    {
      ghost var s := pos;
      var l, c := line, column;
      Advance();
      if current == Some('/') {
        CommentIsGap(source, s);
        SkipLineComment();
        t := NextToken();
      } else {
        NoGap(source, s);
        t := Token(Slash, l, c);
      }
    }

    /** The other arms of `next_token`. */
    method PlainToken() returns (t: Token)
      requires Valid() && current != Some('/')
      modifies this
      ensures Valid()
      ensures var x := TokenAt(source, old(pos)); pos == x.end && t == Stamp(source, x)
    {
      var l, c := line, column;
      if current.None? {
        t := Token(Eof, l, c);
      } else if Punctuation(current.value).Some? {
        t := Token(Punctuation(current.value).value, l, c);
        Advance();
      } else {
        t := ReadWord();
      }
    }

    /** `tokenize`. */
    method Tokenize() returns (tokens: seq<Token>)
      requires Valid()
      modifies this
      ensures Valid() && tokens == TokensFrom(source, old(pos))
    {
      tokens := [];
      ghost var all := TokensFrom(source, pos);
      ghost var rest := all;
      while true
        invariant Valid() && rest == TokensFrom(source, pos) && tokens + rest == all
        decreases |source| - pos
      {
        ghost var x := Scan(source, pos);
        ghost var tail := if x.kind.Eof? then [] else TokensFrom(source, x.end);
        Regroup(tokens, Stamp(source, x), tail);
        var tok := NextToken();
        tokens := tokens + [tok];
        rest := tail;
        if tok.kind.Eof? {
          break;
        }
      }
    }
  }
}

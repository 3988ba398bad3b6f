/**
 The parser of `.api` files (rszero/src/api/parser.rs).

 Each `…At` function says what the source's parsing function returns from a cursor
 position, and where it leaves the cursor. The class `Parser` is the source's own form,
 a cursor moved by every helper and loops that push into lists, and is proved against
 those functions.
 */
module ApiParser {
  import opened Wrappers
  import opened ApiLexer

  datatype Field = Field(name: string, ty: string, tag: Option<string>)

  datatype TypeDef = TypeDef(name: string, fields: seq<Field>)

  datatype Method = Get | Post | Put | Delete | Patch | Head

  datatype Route = Route(
    handler: string,
    verb: Method,
    path: string,
    request: Option<string>,
    response: Option<string>)

  datatype Service = Service(name: string, routes: seq<Route>)

  datatype ApiFile = ApiFile(
    syntax: string,
    info: seq<(string, string)>,
    types: seq<TypeDef>,
    services: seq<Service>)

  datatype ParseError =
    | UnexpectedKeyword(word: string, line: nat)
    | ExpectedKind(kind: TokenKind, line: nat, got: Option<Token>)
    | ExpectedWord(word: string, line: nat, got: Option<Token>)
    | ExpectedIdentifier(line: nat, got: Option<Token>)
    | ExpectedString(line: nat, got: Option<Token>)
    | ExpectedBacktick(line: nat, got: Option<Token>)
    | ExpectedPath(line: nat)
    | UnknownMethod(word: string)

  /** A parsed value and the cursor after it, or the first error. */
  datatype Parsed<+T> = Ok(value: T, pos: nat) | Err(error: ParseError) {
    predicate IsFailure() { Err? }

    function PropagateFailure<U>(): Parsed<U>
      requires Err?
    {
      Err(error)
    }

    function Extract(): (T, nat)
      requires Ok?
    {
      (value, pos)
    }
  }

  // ------------------------------------------------------------ cursor helpers

  function Peek(ts: seq<Token>, p: nat): Option<Token> {
    if p < |ts| then Some(ts[p]) else None
  }

  function CurrentLine(ts: seq<Token>, p: nat): nat {
    if p < |ts| then ts[p].line else 0
  }

  predicate AtEof(ts: seq<Token>, p: nat) {
    p >= |ts| || ts[p].kind.Eof?
  }

  function PeekIdent(ts: seq<Token>, p: nat): Option<string> {
    if p < |ts| && ts[p].kind.Ident? then Some(ts[p].kind.name) else None
  }

  /** The enum discriminant that `check` compares. */
  function Discriminant(kind: TokenKind): nat {
    match kind
    case Eof => 0
    case Newline => 1
    case Ident(_) => 2
    case Str(_) => 3
    case Number(_) => 4
    case LBrace => 5
    case RBrace => 6
    case LParen => 7
    case RParen => 8
    case LBracket => 9
    case RBracket => 10
    case Colon => 11
    case Semi => 12
    case Comma => 13
    case Eq => 14
    case Star => 15
    case At => 16
    case Slash => 17
    case Backtick(_) => 18
    case Unknown(_) => 19
  }

  predicate Check(ts: seq<Token>, p: nat, kind: TokenKind) {
    p < |ts| && Discriminant(ts[p].kind) == Discriminant(kind)
  }

  /** The cursor moved from `p` to `q` over tokens none of which is the end of file. */
  predicate Consumed(ts: seq<Token>, p: nat, q: nat) {
    p <= q <= |ts| && forall k :: p <= k < q ==> !ts[k].kind.Eof?
  }

  function SkipNewlines(ts: seq<Token>, p: nat): (q: nat)
    requires p <= |ts|
    ensures Consumed(ts, p, q) && !Check(ts, q, Newline)
    ensures forall k :: p <= k < q ==> ts[k].kind.Newline?
    decreases |ts| - p
  {
    if Check(ts, p, Newline) then SkipNewlines(ts, p + 1) else p
  }

  function Expect(ts: seq<Token>, p: nat, kind: TokenKind): (r: Parsed<()>)
    requires p <= |ts|
    ensures r.Ok? ==> r.pos == p + 1 <= |ts| && (kind.Eof? || Consumed(ts, p, r.pos))
  {
    if Check(ts, p, kind) then Ok((), p + 1) else Err(ExpectedKind(kind, CurrentLine(ts, p), Peek(ts, p)))
  }

  function ExpectWord(ts: seq<Token>, p: nat, word: string): (r: Parsed<()>)
    requires p <= |ts|
    ensures r.Ok? ==> r.pos == p + 1 && Consumed(ts, p, r.pos)
  {
    if PeekIdent(ts, p) == Some(word) then Ok((), p + 1) else Err(ExpectedWord(word, CurrentLine(ts, p), Peek(ts, p)))
  }

  function ExpectIdent(ts: seq<Token>, p: nat): (r: Parsed<string>)
    requires p <= |ts|
    ensures r.Ok? ==> r.pos == p + 1 && Consumed(ts, p, r.pos)
  {
    if PeekIdent(ts, p).Some? then Ok(PeekIdent(ts, p).value, p + 1)
    else Err(ExpectedIdentifier(CurrentLine(ts, p), Peek(ts, p)))
  }

  function ExpectStr(ts: seq<Token>, p: nat): (r: Parsed<string>)
    requires p <= |ts|
    ensures r.Ok? ==> r.pos == p + 1 && Consumed(ts, p, r.pos)
  {
    if p < |ts| && ts[p].kind.Str? then Ok(ts[p].kind.text, p + 1)
    else Err(ExpectedString(CurrentLine(ts, p), Peek(ts, p)))
  }

  function ExpectTick(ts: seq<Token>, p: nat): (r: Parsed<string>)
    requires p <= |ts|
    ensures r.Ok? ==> r.pos == p + 1 && Consumed(ts, p, r.pos)
  {
    if p < |ts| && ts[p].kind.Backtick? then Ok(ts[p].kind.raw, p + 1)
    else Err(ExpectedBacktick(CurrentLine(ts, p), Peek(ts, p)))
  }

  /** What a token adds to a path; any other token ends the path. */
  function PathPiece(kind: TokenKind): Option<string> {
    match kind
    case Ident(s) => Some(s)
    case Number(s) => Some(s)
    case Colon => Some(":")
    case Slash => Some("/")
    case Unknown('/') => Some("/")
    case _ => None
  }

  /** The loop of `expect_path`, from the text collected so far. */
  function PathLoop(ts: seq<Token>, p: nat, path: string): (r: (string, nat))
    requires p <= |ts|
    ensures Consumed(ts, p, r.1)
    ensures r.1 < |ts| ==> PathPiece(ts[r.1].kind).None?
    decreases |ts| - p
  {
    if p < |ts| && PathPiece(ts[p].kind).Some? then PathLoop(ts, p + 1, path + PathPiece(ts[p].kind).value)
    else (path, p)
  }

  function PathAt(ts: seq<Token>, p: nat): (r: Parsed<string>)
    requires p <= |ts|
    ensures r.Ok? ==> Consumed(ts, p, r.pos) && PeekIdent(ts, r.pos).None?
  {
    var (path, q) := PathLoop(ts, p, "");
    if path == "" then Err(ExpectedPath(CurrentLine(ts, q))) else Ok(path, q)
  }

  // ------------------------------------------------------------------- grammar

  function SyntaxAt(ts: seq<Token>, p: nat): (r: Parsed<string>)
    requires p <= |ts|
    ensures r.Ok? ==> Consumed(ts, p, r.pos) && p < r.pos
  {
    var (_, p1) :- ExpectWord(ts, p, "syntax");
    var (_, p2) :- Expect(ts, p1, Eq);
    ExpectStr(ts, p2)
  }

  /** The loop of `parse_info`, from the pairs collected so far, up to the closing parenthesis. */
  function InfoLoop(ts: seq<Token>, p: nat, pairs: seq<(string, string)>): (r: Parsed<seq<(string, string)>>)
    requires p <= |ts|
    ensures r.Ok? ==> Consumed(ts, p, r.pos) && (Check(ts, r.pos, RParen) || AtEof(ts, r.pos))
    decreases |ts| - p
  {
    if Check(ts, p, RParen) || AtEof(ts, p) then Ok(pairs, p)
    else if PeekIdent(ts, p).Some? then
      var (_, p1) :- Expect(ts, p + 1, Colon);
      var (value, p2) :- ExpectStr(ts, p1);
      InfoLoop(ts, SkipNewlines(ts, p2), pairs + [(PeekIdent(ts, p).value, value)])
    else
      InfoLoop(ts, SkipNewlines(ts, p + 1), pairs)
  }

  function InfoAt(ts: seq<Token>, p: nat): (r: Parsed<seq<(string, string)>>)
    requires p <= |ts|
    ensures r.Ok? ==> Consumed(ts, p, r.pos) && p < r.pos
  {
    var (_, p1) :- ExpectWord(ts, p, "info");
    var (_, p2) :- Expect(ts, p1, LParen);
    var (pairs, p3) :- InfoLoop(ts, SkipNewlines(ts, p2), []);
    var (_, p4) :- Expect(ts, p3, RParen);
    Ok(pairs, p4)
  }

  /** The tag of a field, if a backtick string follows its type. */
  function TagAt(ts: seq<Token>, p: nat): (r: Parsed<Option<string>>)
    requires p <= |ts|
    ensures r.Ok? ==> Consumed(ts, p, r.pos)
  {
    if Check(ts, p, Backtick("")) then
      var (tag, q) :- ExpectTick(ts, p);
      Ok(Some(tag), q)
    else Ok(None, p)
  }

  /** The loop of `parse_type_def`. */
  function FieldsLoop(ts: seq<Token>, p: nat, fields: seq<Field>): (r: Parsed<seq<Field>>)
    requires p <= |ts|
    ensures r.Ok? ==> Consumed(ts, p, r.pos) && (Check(ts, r.pos, RBrace) || AtEof(ts, r.pos))
    decreases |ts| - p
  {
    if Check(ts, p, RBrace) || AtEof(ts, p) then Ok(fields, p)
    else if PeekIdent(ts, p).Some? then
      var (ty, p1) :- ExpectIdent(ts, p + 1);
      var (tag, p2) :- TagAt(ts, p1);
      FieldsLoop(ts, SkipNewlines(ts, p2), fields + [Field(PeekIdent(ts, p).value, ty, tag)])
    else
      FieldsLoop(ts, SkipNewlines(ts, p + 1), fields)
  }

  function TypeAt(ts: seq<Token>, p: nat): (r: Parsed<TypeDef>)
    requires p <= |ts|
    ensures r.Ok? ==> Consumed(ts, p, r.pos) && p < r.pos
  {
    var (_, p1) :- ExpectWord(ts, p, "type");
    var (name, p2) :- ExpectIdent(ts, p1);
    var (_, p3) :- Expect(ts, p2, LBrace);
    var (fields, p4) :- FieldsLoop(ts, SkipNewlines(ts, p3), []);
    var (_, p5) :- Expect(ts, p4, RBrace);
    Ok(TypeDef(name, fields), p5)
  }

  /** Letters outside ASCII stay as they are: none of them has a lower case that occurs in the name of a method. */
  function LowerChar(c: char): char {
    if 'A' <= c <= 'Z' then (c as int + 32) as char else c
  }

  function Lower(s: string): (r: string)
    ensures |r| == |s| && forall k :: 0 <= k < |s| ==> r[k] == LowerChar(s[k])
  {
    seq(|s|, k requires 0 <= k < |s| => LowerChar(s[k]))
  }

  function MethodNamed(word: string): Option<Method> {
    if word == "get" then Some(Get)
    else if word == "post" then Some(Post)
    else if word == "put" then Some(Put)
    else if word == "delete" then Some(Delete)
    else if word == "patch" then Some(Patch)
    else if word == "head" then Some(Head)
    else None
  }

  /** A type name between parentheses. */
  function ParenthesizedAt(ts: seq<Token>, p: nat): (r: Parsed<Option<string>>)
    requires p <= |ts|
    ensures r.Ok? ==> Consumed(ts, p, r.pos) && r.value.Some?
  {
    var (_, p1) :- Expect(ts, p, LParen);
    var (name, p2) :- ExpectIdent(ts, p1);
    var (_, p3) :- Expect(ts, p2, RParen);
    Ok(Some(name), p3)
  }

  function RequestAt(ts: seq<Token>, p: nat): (r: Parsed<Option<string>>)
    requires p <= |ts|
    ensures r.Ok? ==> Consumed(ts, p, r.pos) && (r.value.None? ==> r.pos == p)
  {
    if Check(ts, p, LParen) then ParenthesizedAt(ts, p) else Ok(None, p)
  }

  function ResponseAt(ts: seq<Token>, p: nat): (r: Parsed<Option<string>>)
    requires p <= |ts|
    ensures r.Ok? ==> Consumed(ts, p, r.pos)
    ensures r.Ok? && r.value.Some? ==> PeekIdent(ts, p).Some?
  {
    if PeekIdent(ts, p) == Some("returns") then ParenthesizedAt(ts, p + 1) else Ok(None, p)
  }

  /** The HTTP method, in any letter case. */
  function MethodAt(ts: seq<Token>, p: nat): (r: Parsed<Method>)
    requires p <= |ts|
    ensures r.Ok? ==> Consumed(ts, p, r.pos)
  {
    var (word, q) :- ExpectIdent(ts, p);
    var m := MethodNamed(Lower(word));
    if m.Some? then Ok(m.value, q) else Err(UnknownMethod(Lower(word)))
  }

  /** What follows the handler line of a route. */
  function RouteBodyAt(ts: seq<Token>, p: nat, handler: string): (r: Parsed<Route>)
    requires p <= |ts|
    ensures r.Ok? ==> Consumed(ts, p, r.pos)
  {
    var (verb, p1) :- MethodAt(ts, p);
    var (path, p2) :- PathAt(ts, p1);
    var (request, p3) :- RequestAt(ts, p2);
    var (response, p4) :- ResponseAt(ts, p3);
    Ok(Route(handler, verb, path, request, response), p4)
  }

  function RouteAt(ts: seq<Token>, p: nat): (r: Parsed<Route>)
    requires p <= |ts|
    ensures r.Ok? ==> Consumed(ts, p, r.pos) && p < r.pos
  {
    var (_, p1) :- Expect(ts, p, At);
    var (_, p2) :- ExpectWord(ts, p1, "handler");
    var (handler, p3) :- ExpectIdent(ts, p2);
    RouteBodyAt(ts, SkipNewlines(ts, p3), handler)
  }

  /** The loop of `parse_service`. */
  function RoutesLoop(ts: seq<Token>, p: nat, routes: seq<Route>): (r: Parsed<seq<Route>>)
    requires p <= |ts|
    ensures r.Ok? ==> Consumed(ts, p, r.pos) && (Check(ts, r.pos, RBrace) || AtEof(ts, r.pos))
    decreases |ts| - p, 2
  {
    if Check(ts, p, RBrace) || AtEof(ts, p) then Ok(routes, p) else RouteOrSkip(ts, p, routes)
  }

  /** One turn of the loop, then the rest of it. */
  function RouteOrSkip(ts: seq<Token>, p: nat, routes: seq<Route>): (r: Parsed<seq<Route>>)
    requires p <= |ts| && !AtEof(ts, p)
    ensures r.Ok? ==> Consumed(ts, p, r.pos) && (Check(ts, r.pos, RBrace) || AtEof(ts, r.pos))
    decreases |ts| - p, 1
  {
    if Check(ts, p, At) then RouteThen(ts, p, routes) else RoutesLoop(ts, SkipNewlines(ts, p + 1), routes)
  }

  /** One route, then the rest of the loop. */
  function RouteThen(ts: seq<Token>, p: nat, routes: seq<Route>): (r: Parsed<seq<Route>>)
    requires p <= |ts|
    ensures r.Ok? ==> Consumed(ts, p, r.pos) && (Check(ts, r.pos, RBrace) || AtEof(ts, r.pos))
    decreases |ts| - p, 0
  {
    var (route, q) :- RouteAt(ts, p);
    RoutesLoop(ts, SkipNewlines(ts, q), routes + [route])
  }

  function ServiceAt(ts: seq<Token>, p: nat): (r: Parsed<Service>)
    requires p <= |ts|
    ensures r.Ok? ==> Consumed(ts, p, r.pos) && p < r.pos
  {
    var (_, p1) :- ExpectWord(ts, p, "service");
    var (name, p2) :- ExpectIdent(ts, p1);
    var (_, p3) :- Expect(ts, p2, LBrace);
    var (routes, p4) :- RoutesLoop(ts, SkipNewlines(ts, p3), []);
    var (_, p5) :- Expect(ts, p4, RBrace);
    Ok(Service(name, routes), p5)
  }

  /** The loop of `parse`. */
  function FileLoop(ts: seq<Token>, p: nat, api: ApiFile): (r: Parsed<ApiFile>)
    requires p <= |ts|
    ensures r.Ok? ==> Consumed(ts, p, r.pos) && AtEof(ts, r.pos)
    decreases |ts| - p, 2
  {
    if AtEof(ts, p) then Ok(api, p) else DeclarationOrSkip(ts, p, api)
  }

  /** One turn of the loop, then the rest of it. */
  function DeclarationOrSkip(ts: seq<Token>, p: nat, api: ApiFile): (r: Parsed<ApiFile>)
    requires p <= |ts| && !AtEof(ts, p)
    ensures r.Ok? ==> Consumed(ts, p, r.pos) && AtEof(ts, r.pos)
    decreases |ts| - p, 1
  {
    if PeekIdent(ts, p).Some? then DeclarationThen(ts, p, PeekIdent(ts, p).value, api)
    else FileLoop(ts, SkipNewlines(ts, p + 1), api)
  }

  /** One top-level declaration, then the rest of the loop. */
  function DeclarationThen(ts: seq<Token>, p: nat, word: string, api: ApiFile): (r: Parsed<ApiFile>)
    requires p <= |ts|
    ensures r.Ok? ==> Consumed(ts, p, r.pos) && AtEof(ts, r.pos)
    decreases |ts| - p, 0
  {
    if word == "syntax" then
      var (syntax, q) :- SyntaxAt(ts, p);
      FileLoop(ts, SkipNewlines(ts, q), api.(syntax := syntax))
    else if word == "info" then
      var (info, q) :- InfoAt(ts, p);
      FileLoop(ts, SkipNewlines(ts, q), api.(info := info))
    else if word == "type" then
      var (def, q) :- TypeAt(ts, p);
      FileLoop(ts, SkipNewlines(ts, q), api.(types := api.types + [def]))
    else if word == "service" then
      var (service, q) :- ServiceAt(ts, p);
      FileLoop(ts, SkipNewlines(ts, q), api.(services := api.services + [service]))
    else
      Err(UnexpectedKeyword(word, CurrentLine(ts, p)))
  }

  const EMPTY_FILE := ApiFile("v1", [], [], [])

  /** `parse`: whatever the tokens, a file that is accepted was read exactly up to the first end of file. */
  function FileAt(ts: seq<Token>, p: nat): (r: Parsed<ApiFile>)
    requires p <= |ts|
    ensures r.Ok? ==> Consumed(ts, p, r.pos) && AtEof(ts, r.pos)
  {
    FileLoop(ts, SkipNewlines(ts, p), EMPTY_FILE)
  }

  /** `parse_api`. */
  function ParseApi(src: string): Parsed<ApiFile> {
    FileAt(TokensFrom(src, 0), 0)
  }

  // --------------------------------------------------------------------- class

  /** The source's `RszeroResult`: the cursor is a field of the parser, not part of the result. */
  datatype Outcome<+T> = Done(value: T) | Failed(error: ParseError) {
    predicate IsFailure() { Failed? }

    function PropagateFailure<U>(): Outcome<U>
      requires Failed?
    {
      Failed(error)
    }

    function Extract(): T
      requires Done?
    {
      value
    }
  }

  class Parser {
    const tokens: seq<Token>
    var pos: nat

    ghost predicate Valid()
      reads this
    {
      pos <= |tokens|
    }

    /** The parser returned what the specification says and left its cursor there. */
    ghost predicate Follows<T>(r: Outcome<T>, spec: Parsed<T>)
      reads this
    {
      match spec
      case Ok(value, q) => r == Done(value) && pos == q
      case Err(error) => r == Failed(error)
    }

    constructor (tokens: seq<Token>)
      ensures Valid() && this.tokens == tokens && pos == 0
    {
      this.tokens := tokens;
      pos := 0;
    }

    method Advance()
      requires Valid()
      modifies this
      ensures Valid() && pos == if old(pos) < |tokens| then old(pos) + 1 else old(pos)
    {
      if pos < |tokens| {
        pos := pos + 1;
      }
    }

    /** `skip_newlines`. */
    method TakeNewlines()
      requires Valid()
      modifies this
      ensures Valid() && pos == SkipNewlines(tokens, old(pos))
    {
      while Check(tokens, pos, Newline)
        invariant Valid() && SkipNewlines(tokens, pos) == SkipNewlines(tokens, old(pos))
        decreases |tokens| - pos
      {
        Advance();
      }
    }

    /** `expect`. */
    method TakeKind(kind: TokenKind) returns (r: Outcome<()>)
      requires Valid()
      modifies this
      ensures Valid() && Follows(r, Expect(tokens, old(pos), kind))
    {
      if Check(tokens, pos, kind) {
        Advance();
        r := Done(());
      } else {
        r := Failed(ExpectedKind(kind, CurrentLine(tokens, pos), Peek(tokens, pos)));
      }
    }

    /** `expect_ident`. */
    method TakeWord(word: string) returns (r: Outcome<()>)
      requires Valid()
      modifies this
      ensures Valid() && Follows(r, ExpectWord(tokens, old(pos), word))
    {
      if PeekIdent(tokens, pos) == Some(word) {
        Advance();
        r := Done(());
      } else {
        r := Failed(ExpectedWord(word, CurrentLine(tokens, pos), Peek(tokens, pos)));
      }
    }

    /** `expect_ident_str`. */
    method TakeIdent() returns (r: Outcome<string>)
      requires Valid()
      modifies this
      ensures Valid() && Follows(r, ExpectIdent(tokens, old(pos)))
    {
      var name := PeekIdent(tokens, pos);
      if name.Some? {
        Advance();
        r := Done(name.value);
      } else {
        r := Failed(ExpectedIdentifier(CurrentLine(tokens, pos), Peek(tokens, pos)));
      }
    }

    /** `expect_string`. */
    method TakeStr() returns (r: Outcome<string>)
      requires Valid()
      modifies this
      ensures Valid() && Follows(r, ExpectStr(tokens, old(pos)))
    {
      if pos < |tokens| && tokens[pos].kind.Str? {
        r := Done(tokens[pos].kind.text);
        Advance();
      } else {
        r := Failed(ExpectedString(CurrentLine(tokens, pos), Peek(tokens, pos)));
      }
    }

    /** `expect_backtick`. */
    method TakeTick() returns (r: Outcome<string>)
      requires Valid()
      modifies this
      ensures Valid() && Follows(r, ExpectTick(tokens, old(pos)))
    {
      if pos < |tokens| && tokens[pos].kind.Backtick? {
        r := Done(tokens[pos].kind.raw);
        Advance();
      } else {
        r := Failed(ExpectedBacktick(CurrentLine(tokens, pos), Peek(tokens, pos)));
      }
    }

    /** `expect_path`. */
    method TakePath() returns (r: Outcome<string>)
      requires Valid()
      modifies this
      ensures Valid() && Follows(r, PathAt(tokens, old(pos)))
    {
      var path := "";
      while pos < |tokens| && PathPiece(tokens[pos].kind).Some?
        invariant Valid() && PathLoop(tokens, pos, path) == PathLoop(tokens, old(pos), "")
        decreases |tokens| - pos
      {
        path := path + PathPiece(tokens[pos].kind).value;
        Advance();
      }
      if path == "" {
        r := Failed(ExpectedPath(CurrentLine(tokens, pos)));
      } else {
        r := Done(path);
      }
    }

    /** `parse_syntax`. */
    method ParseSyntax() returns (r: Outcome<string>)
      requires Valid()
      modifies this
      ensures Valid() && Follows(r, SyntaxAt(tokens, old(pos)))
    {
      var _ :- TakeWord("syntax");
      var _ :- TakeKind(Eq);
      r := TakeStr();
    }

    /** `parse_info`. */
    method ParseInfo() returns (r: Outcome<seq<(string, string)>>)
      requires Valid()
      modifies this
      ensures Valid() && Follows(r, InfoAt(tokens, old(pos)))
    {
      var _ :- TakeWord("info");
      var _ :- TakeKind(LParen);
      TakeNewlines();
      var pairs := [];
      ghost var spec := InfoLoop(tokens, pos, []);
      while !Check(tokens, pos, RParen) && !AtEof(tokens, pos)
        invariant Valid() && InfoLoop(tokens, pos, pairs) == spec
        decreases |tokens| - pos
      {
        var key := PeekIdent(tokens, pos);
        Advance();
        if key.Some? {
          var _ :- TakeKind(Colon);
          var value :- TakeStr();
          pairs := pairs + [(key.value, value)];
        }
        TakeNewlines();
      }
      var _ :- TakeKind(RParen);
      r := Done(pairs);
    }

    /** The optional tag in `parse_type_def`. */
    method TakeTag() returns (r: Outcome<Option<string>>)
      requires Valid()
      modifies this
      ensures Valid() && Follows(r, TagAt(tokens, old(pos)))
    {
      if Check(tokens, pos, Backtick("")) {
        var tag :- TakeTick();
        r := Done(Some(tag));
      } else {
        r := Done(None);
      }
    }

    /** `parse_type_def`. */
    method ParseTypeDef() returns (r: Outcome<TypeDef>)
      requires Valid()
      modifies this
      ensures Valid() && Follows(r, TypeAt(tokens, old(pos)))
    {
      var _ :- TakeWord("type");
      var name :- TakeIdent();
      var _ :- TakeKind(LBrace);
      TakeNewlines();
      var fields := [];
      ghost var spec := FieldsLoop(tokens, pos, []);
      while !Check(tokens, pos, RBrace) && !AtEof(tokens, pos)
        invariant Valid() && FieldsLoop(tokens, pos, fields) == spec
        decreases |tokens| - pos
      {
        var field := PeekIdent(tokens, pos);
        Advance();
        if field.Some? {
          var ty :- TakeIdent();
          var tag :- TakeTag();
          fields := fields + [Field(field.value, ty, tag)];
        }
        TakeNewlines();
      }
      var _ :- TakeKind(RBrace);
      r := Done(TypeDef(name, fields));
    }

    /** `( name )`, as the request and the response of a route are written. */
    method TakeParenthesized() returns (r: Outcome<Option<string>>)
      requires Valid()
      modifies this
      ensures Valid() && Follows(r, ParenthesizedAt(tokens, old(pos)))
    {
      var _ :- TakeKind(LParen);
      var name :- TakeIdent();
      var _ :- TakeKind(RParen);
      r := Done(Some(name));
    }

    /** `parse_route` after the handler line. */
    method ParseRouteBody(handler: string) returns (r: Outcome<Route>)
      requires Valid()
      modifies this
      ensures Valid() && Follows(r, RouteBodyAt(tokens, old(pos), handler))
    {
      var word :- TakeIdent();
      var verb := MethodNamed(Lower(word));
      if verb.None? {
        return Failed(UnknownMethod(Lower(word)));
      }
      var path :- TakePath();
      var request := None;
      if Check(tokens, pos, LParen) {
        request :- TakeParenthesized();
      }
      var response := None;
      if PeekIdent(tokens, pos) == Some("returns") {
        Advance();
        response :- TakeParenthesized();
      }
      r := Done(Route(handler, verb.value, path, request, response));
    }

    /** `parse_route`. */
    method ParseRoute() returns (r: Outcome<Route>)
      requires Valid()
      modifies this
      ensures Valid() && Follows(r, RouteAt(tokens, old(pos)))
    {
      var _ :- TakeKind(At);
      var _ :- TakeWord("handler");
      var handler :- TakeIdent();
      TakeNewlines();
      r := ParseRouteBody(handler);
    }

    /** `parse_service`. */
    method ParseService() returns (r: Outcome<Service>)
      requires Valid()
      modifies this
      ensures Valid() && Follows(r, ServiceAt(tokens, old(pos)))
    {
      var _ :- TakeWord("service");
      var name :- TakeIdent();
      var _ :- TakeKind(LBrace);
      TakeNewlines();
      var routes := [];
      ghost var spec := RoutesLoop(tokens, pos, []);
      while !Check(tokens, pos, RBrace) && !AtEof(tokens, pos)
        invariant Valid() && RoutesLoop(tokens, pos, routes) == spec
        decreases |tokens| - pos
      {
        assert RoutesLoop(tokens, pos, routes) == RouteOrSkip(tokens, pos, routes);
        if Check(tokens, pos, At) {
          assert RouteOrSkip(tokens, pos, routes) == RouteThen(tokens, pos, routes);
          var route :- ParseRoute();
          routes := routes + [route];
        } else {
          Advance();
        }
        TakeNewlines();
      }
      var _ :- TakeKind(RBrace);
      r := Done(Service(name, routes));
    }

    /** `parse`. */
    method Parse() returns (r: Outcome<ApiFile>)
      requires Valid()
      modifies this
      ensures Valid() && Follows(r, FileAt(tokens, old(pos)))
    {
      var api := EMPTY_FILE;
      TakeNewlines();
      while !AtEof(tokens, pos)
        invariant Valid() && FileLoop(tokens, pos, api) == FileAt(tokens, old(pos))
        decreases |tokens| - pos
      {
        assert FileLoop(tokens, pos, api) == DeclarationOrSkip(tokens, pos, api);
        var word := PeekIdent(tokens, pos);
        if word.None? {
          Advance();
        } else {
          assert DeclarationOrSkip(tokens, pos, api) == DeclarationThen(tokens, pos, word.value, api);
          match word.value {
            case "syntax" =>
              var syntax :- ParseSyntax();
              api := api.(syntax := syntax);
            case "info" =>
              var info :- ParseInfo();
              api := api.(info := info);
            case "type" =>
              var def :- ParseTypeDef();
              api := api.(types := api.types + [def]);
            case "service" =>
              var service :- ParseService();
              api := api.(services := api.services + [service]);
            case _ =>
              return Failed(UnexpectedKeyword(word.value, CurrentLine(tokens, pos)));
          }
        }
        TakeNewlines();
      }
      r := Done(api);
    }
  }

  /** `parse_api`: lex, then parse. */
  method ParseSource(source: string) returns (r: Outcome<ApiFile>)
    ensures var spec := ParseApi(source); r == if spec.Ok? then Done(spec.value) else Failed(spec.error)
  {
    var lexer := new Lexer(source);
    var tokens := lexer.Tokenize();
    var parser := new Parser(tokens);
    r := parser.Parse();
  }
}

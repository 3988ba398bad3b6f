/**
 Printing and parsing `.api` files. `WellFormed` describes the files that can be written
 at all: printing then parsing returns a file exactly when it is well formed, whatever
 admissible layout the tokens are given, and the parser never returns another file.
 */
module ApiRoundTrip {
  import opened Wrappers
  import opened ApiLexer
  import opened ApiLayout
  import opened ApiParser

  // ------------------------------------------------------------ well-formedness

  /**
   The texts that the pieces of a path can be put together to. A dash, or a numeric character
   other than a digit, occurs only inside an identifier: `inIdent` says whether the text so far
   ends in one.
   */
  predicate PathText(path: string, inIdent: bool) {
    path == "" ||
    var c, rest := path[0], path[1..];
    if c == ':' || c == '/' then PathText(rest, false)
    else if IsIdentStart(c) then PathText(rest, true)
    else if IsDigit(c) then PathText(rest, inIdent)
    else IsIdentChar(c) && inIdent && PathText(rest, true)
  }

  predicate OptionalIdent(name: Option<string>) {
    name.Some? ==> IsIdent(name.value)
  }

  predicate WellFormedField(f: Field) {
    IsIdent(f.name) && IsIdent(f.ty) && (f.tag.Some? ==> '`' !in f.tag.value)
  }

  predicate WellFormedType(t: TypeDef) {
    IsIdent(t.name) && forall f :: f in t.fields ==> WellFormedField(f)
  }

  /** A response type needs a request type: without one, `returns` would be read as part of the path. */
  predicate WellFormedRoute(r: Route) {
    && IsIdent(r.handler)
    && r.path != "" && PathText(r.path, false)
    && OptionalIdent(r.request) && OptionalIdent(r.response)
    && (r.response.Some? ==> r.request.Some?)
  }

  predicate WellFormedService(s: Service) {
    IsIdent(s.name) && forall r :: r in s.routes ==> WellFormedRoute(r)
  }

  predicate WellFormedPair(pair: (string, string)) {
    IsIdent(pair.0) && '"' !in pair.1
  }

  predicate WellFormed(api: ApiFile) {
    && '"' !in api.syntax
    && (forall pair :: pair in api.info ==> WellFormedPair(pair))
    && (forall t :: t in api.types ==> WellFormedType(t))
    && (forall s :: s in api.services ==> WellFormedService(s))
  }

  // ------------------------------------------------------------------- printer
  // Each printer puts the tokens of one construct in front of the tokens after it.

  function Each<T>(items: seq<T>, print1: (T, Kinds) -> Kinds, tail: Kinds): Kinds {
    if items == [] then tail else print1(items[0], Each(items[1..], print1, tail))
  }

  function SyntaxTokens(syntax: string, tail: Kinds): Kinds {
    Then(Ident("syntax"), Then(Eq, Then(Str(syntax), Then(Newline, tail))))
  }

  function PairTokens(pair: (string, string), tail: Kinds): Kinds {
    Then(Ident(pair.0), Then(Colon, Then(Str(pair.1), Then(Newline, tail))))
  }

  function InfoTokens(info: seq<(string, string)>, tail: Kinds): Kinds {
    Then(Ident("info"), Then(LParen, Then(Newline, Each(info, PairTokens, Then(RParen, Then(Newline, tail))))))
  }

  function TagTokens(tag: Option<string>, tail: Kinds): Kinds {
    if tag.Some? then Then(Backtick(tag.value), tail) else tail
  }

  function FieldTokens(f: Field, tail: Kinds): Kinds {
    Then(Ident(f.name), Then(Ident(f.ty), TagTokens(f.tag, Then(Newline, tail))))
  }

  function TypeTokens(t: TypeDef, tail: Kinds): Kinds {
    Then(Ident("type"), Then(Ident(t.name), Then(LBrace, Then(Newline,
      Each(t.fields, FieldTokens, Then(RBrace, Then(Newline, tail)))))))
  }

  function MethodName(m: Method): string {
    match m
    case Get => "get"
    case Post => "post"
    case Put => "put"
    case Delete => "delete"
    case Patch => "patch"
    case Head => "head"
  }

  /** The length of the first token of a path. */
  function PathCut(path: string): (e: nat)
    requires path != ""
    ensures 0 < e <= |path|
  {
    if IsDigit(path[0]) then Until(path, 0, NotDigit)
    else if IsIdentStart(path[0]) then Until(path, 0, NotIdentChar)
    else 1
  }

  /** The first token of a path. */
  function PathHead(path: string): TokenKind
    requires path != ""
  {
    if path[0] == ':' then Colon
    else if path[0] == '/' then Slash
    else if IsDigit(path[0]) then Number(path[..PathCut(path)])
    else if IsIdentStart(path[0]) then Ident(path[..PathCut(path)])
    else Unknown(path[0])
  }

  /** The path cut into the longest tokens. */
  function PathTokens(path: string, tail: Kinds): Kinds
    decreases |path|
  {
    if path == "" then tail else Then(PathHead(path), PathTokens(path[PathCut(path)..], tail))
  }

  function ParenthesizedTokens(name: string, tail: Kinds): Kinds {
    Then(LParen, Then(Ident(name), Then(RParen, tail)))
  }

  function RequestTokens(request: Option<string>, tail: Kinds): Kinds {
    if request.Some? then ParenthesizedTokens(request.value, tail) else tail
  }

  function ResponseTokens(response: Option<string>, tail: Kinds): Kinds {
    if response.Some? then Then(Ident("returns"), ParenthesizedTokens(response.value, tail)) else tail
  }

  function BodyTokens(r: Route, tail: Kinds): Kinds {
    PathTokens(r.path, RequestTokens(r.request, ResponseTokens(r.response, Then(Newline, tail))))
  }

  function RouteTokens(r: Route, tail: Kinds): Kinds {
    Then(At, Then(Ident("handler"), Then(Ident(r.handler), Then(Newline,
      Then(Ident(MethodName(r.verb)), BodyTokens(r, tail))))))
  }

  function ServiceTokens(s: Service, tail: Kinds): Kinds {
    Then(Ident("service"), Then(Ident(s.name), Then(LBrace, Then(Newline,
      Each(s.routes, RouteTokens, Then(RBrace, Then(Newline, tail)))))))
  }

  /** The tokens of a file, ending with the end of file. */
  function FileTokens(api: ApiFile): Kinds {
    SyntaxTokens(api.syntax, InfoTokens(api.info,
      Each(api.types, TypeTokens, Each(api.services, ServiceTokens, Then(Eof, End)))))
  }

  /** The canonical text: every token after one blank. */
  function Print(api: ApiFile): string {
    Render(FileTokens(api), Spaces(FileTokens(api).Length()))
  }

  // ---------------------------------------------------------- parsing the print

  /** `kinds` has the tokens of `spec`, with any number of newlines, or none, in place of each newline. */
  predicate Loosens(kinds: Kinds, spec: Kinds)
    decreases spec, kinds
  {
    match spec
    case End => kinds.End?
    case Then(Newline, rest) =>
      Loosens(kinds, rest) || (kinds.Then? && kinds.head.Newline? && Loosens(kinds.rest, spec))
    case Then(kind, rest) => kinds.Then? && kinds.head == kind && Loosens(kinds.rest, rest)
  }

  lemma {:induction false} LoosensItself(kinds: Kinds)
    ensures Loosens(kinds, kinds)
  {
    if kinds.Then? {
      LoosensItself(kinds.rest);
      if kinds.head.Newline? {
        assert Loosens(kinds.rest, kinds);
      }
    }
  }

  /** The tokens from position `p` are those of `spec`, up to the number of newlines. */
  predicate Fits(ts: seq<Token>, p: nat, spec: Kinds) {
    Loosens(View(ts, p), spec)
  }

  /** The token at the cursor, and the tokens after it. */
  lemma Next(ts: seq<Token>, p: nat, kind: TokenKind, rest: Kinds)
    requires Fits(ts, p, Then(kind, rest)) && !kind.Newline?
    ensures p < |ts| && ts[p].kind == kind && Fits(ts, p + 1, rest)
  {
  }

  /** A token that begins a line: neither a newline nor a tag. */
  predicate StartsLine(kinds: Kinds) {
    kinds.Then? && !kinds.head.Newline? && !kinds.head.Backtick?
  }

  /** A token that can follow a route. */
  predicate EndsRoute(kinds: Kinds) {
    kinds.Then? && (kinds.head.At? || kinds.head.RBrace?)
  }

  /** At a break between two lines, the cursor is on a newline or on the next line already. */
  lemma AtBreak(ts: seq<Token>, p: nat, rest: Kinds)
    requires Fits(ts, p, Then(Newline, rest)) && StartsLine(rest)
    ensures p < |ts| && (ts[p].kind.Newline? || ts[p].kind == rest.head)
  {
    if Fits(ts, p, rest) {
      Next(ts, p, rest.head, rest.rest);
    }
  }

  /** However many newlines there are, skipping them leads to the next line. */
  lemma {:induction false} SkipBreak(ts: seq<Token>, p: nat, rest: Kinds)
    requires Fits(ts, p, Then(Newline, rest)) && StartsLine(rest)
    ensures p < |ts| && Fits(ts, SkipNewlines(ts, p), rest) && SkipNewlines(ts, p) < |ts|
    decreases |ts| - p
  {
    AtBreak(ts, p, rest);
    if !Loosens(View(ts, p), rest) {
      SkipBreak(ts, p + 1, rest);
    }
  }

  lemma EachStartsLine<T>(items: seq<T>, print1: (T, Kinds) -> Kinds, tail: Kinds)
    requires StartsLine(tail) && forall x, k :: x in items ==> StartsLine(print1(x, k))
    ensures StartsLine(Each(items, print1, tail))
  {
  }

  lemma RoutesEndRoute(routes: seq<Route>, tail: Kinds)
    requires EndsRoute(tail)
    ensures EndsRoute(Each(routes, RouteTokens, tail))
  {
  }

  lemma AppendFirst<T>(done: seq<T>, items: seq<T>)
    requires items != []
    ensures done + [items[0]] + items[1..] == done + items
  {
  }

  lemma AppendSplit<T>(done: seq<T>, items: seq<T>, e: nat)
    requires e <= |items|
    ensures done + items[..e] + items[e..] == done + items
  {
  }

  lemma AppendNone<T>(done: seq<T>, items: seq<T>)
    requires items == []
    ensures done + items == done
  {
  }

  /** One pair of an info block. */
  lemma PairReads(ts: seq<Token>, p: nat, pairs: seq<(string, string)>, pair: (string, string), tail: Kinds)
    returns (q: nat)
    requires Fits(ts, p, PairTokens(pair, tail)) && StartsLine(tail)
    ensures p < q <= |ts| && Fits(ts, q, tail)
    ensures InfoLoop(ts, p, pairs) == InfoLoop(ts, q, pairs + [pair])
  {
    var last := Then(Newline, tail);
    Next(ts, p, Ident(pair.0), Then(Colon, Then(Str(pair.1), last)));
    Next(ts, p + 1, Colon, Then(Str(pair.1), last));
    Next(ts, p + 2, Str(pair.1), last);
    SkipBreak(ts, p + 3, tail);
    q := SkipNewlines(ts, p + 3);
    assert pairs + [(pair.0, pair.1)] == pairs + [pair];
  }

  lemma {:induction false} InfoLoopReads(
    ts: seq<Token>, p: nat, pairs: seq<(string, string)>, info: seq<(string, string)>, tail: Kinds) returns (q: nat)
    requires Fits(ts, p, Each(info, PairTokens, Then(RParen, tail)))
    ensures p <= |ts| && InfoLoop(ts, p, pairs) == Ok(pairs + info, q) && Fits(ts, q, Then(RParen, tail))
    decreases |info|
  {
    if info == [] {
      Next(ts, p, RParen, tail);
      AppendNone(pairs, info);
      q := p;
    } else {
      var rest := Each(info[1..], PairTokens, Then(RParen, tail));
      EachStartsLine(info[1..], PairTokens, Then(RParen, tail));
      var r := PairReads(ts, p, pairs, info[0], rest);
      q := InfoLoopReads(ts, r, pairs + [info[0]], info[1..], tail);
      AppendFirst(pairs, info);
    }
  }

  lemma TagReads(ts: seq<Token>, p: nat, tag: Option<string>, tail: Kinds) returns (q: nat)
    requires Fits(ts, p, TagTokens(tag, Then(Newline, tail))) && StartsLine(tail)
    ensures p <= q < |ts| && TagAt(ts, p) == Ok(tag, q) && Fits(ts, q, Then(Newline, tail))
  {
    q := p;
    if tag.Some? {
      Next(ts, p, Backtick(tag.value), Then(Newline, tail));
      q := p + 1;
    }
    AtBreak(ts, q, tail);
  }

  /** One field. */
  lemma FieldReads(ts: seq<Token>, p: nat, done: seq<Field>, f: Field, tail: Kinds) returns (q: nat)
    requires Fits(ts, p, FieldTokens(f, tail)) && StartsLine(tail)
    ensures p < q <= |ts| && Fits(ts, q, tail)
    ensures FieldsLoop(ts, p, done) == FieldsLoop(ts, q, done + [f])
  {
    var last := Then(Newline, tail);
    Next(ts, p, Ident(f.name), Then(Ident(f.ty), TagTokens(f.tag, last)));
    Next(ts, p + 1, Ident(f.ty), TagTokens(f.tag, last));
    var e := TagReads(ts, p + 2, f.tag, tail);
    SkipBreak(ts, e, tail);
    q := SkipNewlines(ts, e);
  }

  lemma {:induction false} FieldsLoopReads(
    ts: seq<Token>, p: nat, done: seq<Field>, fields: seq<Field>, tail: Kinds) returns (q: nat)
    requires Fits(ts, p, Each(fields, FieldTokens, Then(RBrace, tail)))
    ensures p <= |ts| && FieldsLoop(ts, p, done) == Ok(done + fields, q) && Fits(ts, q, Then(RBrace, tail))
    decreases |fields|
  {
    if fields == [] {
      Next(ts, p, RBrace, tail);
      AppendNone(done, fields);
      q := p;
    } else {
      var rest := Each(fields[1..], FieldTokens, Then(RBrace, tail));
      EachStartsLine(fields[1..], FieldTokens, Then(RBrace, tail));
      var r := FieldReads(ts, p, done, fields[0], rest);
      q := FieldsLoopReads(ts, r, done + [fields[0]], fields[1..], tail);
      AppendFirst(done, fields);
    }
  }

  // --------------------------------------------------------------------- paths

  lemma {:induction false} DigitRunText(path: string, e: nat)
    requires e <= |path| && PathText(path, false) && forall k :: 0 <= k < e ==> IsDigit(path[k])
    ensures PathText(path[e..], false)
    decreases e
  {
    if e > 0 {
      DigitRunText(path[1..], e - 1);
      assert path[1..][e - 1..] == path[e..];
    } else {
      assert path[e..] == path;
    }
  }

  lemma {:induction false} IdentRunText(path: string, e: nat)
    requires e <= |path| && PathText(path, true) && forall k :: 0 <= k < e ==> IsIdentChar(path[k])
    requires e < |path| ==> !IsIdentChar(path[e])
    ensures PathText(path[e..], false)
    decreases e
  {
    if e > 0 {
      IdentRunText(path[1..], e - 1);
      assert path[1..][e - 1..] == path[e..];
    } else {
      assert path[e..] == path;
    }
  }

  /** The first token of a path spells the start of it, and a path is left. */
  lemma PathFirst(path: string)
    requires path != "" && PathText(path, false)
    ensures Spellable(PathHead(path)) && PathPiece(PathHead(path)) == Some(path[..PathCut(path)])
    ensures PathText(path[PathCut(path)..], false)
  {
    if IsDigit(path[0]) {
      DigitRunText(path, PathCut(path));
    } else if IsIdentStart(path[0]) {
      IdentRunText(path, PathCut(path));
    } else {
      assert path[..1] == [path[0]];
    }
  }

  /** The path loop reads the tokens of a path as that path, and goes on after them. */
  lemma {:induction false} PathLoopReads(ts: seq<Token>, p: nat, done: string, path: string, tail: Kinds)
    returns (q: nat)
    requires Fits(ts, p, PathTokens(path, tail)) && p <= |ts| && PathText(path, false)
    ensures p <= q <= |ts| && Fits(ts, q, tail) && PathLoop(ts, p, done) == PathLoop(ts, q, done + path)
    decreases |path|
  {
    if path == "" {
      AppendNone(done, path);
      q := p;
    } else {
      var e := PathCut(path);
      PathFirst(path);
      Next(ts, p, PathHead(path), PathTokens(path[e..], tail));
      q := PathLoopReads(ts, p + 1, done + path[..e], path[e..], tail);
      AppendSplit(done, path, e);
    }
  }

  // -------------------------------------------------------------------- routes

  lemma MethodNameReads(m: Method)
    ensures MethodNamed(Lower(MethodName(m))) == Some(m)
  {
    assert Lower(MethodName(m)) == MethodName(m);
  }

  /** The handler line and the method. */
  lemma HeadReads(ts: seq<Token>, p: nat, r: Route, tail: Kinds) returns (q: nat)
    requires Fits(ts, p, RouteTokens(r, tail))
    ensures p < q < |ts| && ts[p].kind == At && Fits(ts, q + 1, BodyTokens(r, tail))
    ensures RouteAt(ts, p) == RouteBodyAt(ts, q, r.handler) && MethodAt(ts, q) == Ok(r.verb, q + 1)
  {
    var body := Then(Ident(MethodName(r.verb)), BodyTokens(r, tail));
    Next(ts, p, At, Then(Ident("handler"), Then(Ident(r.handler), Then(Newline, body))));
    Next(ts, p + 1, Ident("handler"), Then(Ident(r.handler), Then(Newline, body)));
    Next(ts, p + 2, Ident(r.handler), Then(Newline, body));
    SkipBreak(ts, p + 3, body);
    q := SkipNewlines(ts, p + 3);
    Next(ts, q, Ident(MethodName(r.verb)), BodyTokens(r, tail));
    MethodNameReads(r.verb);
  }

  lemma ParenthesizedReads(ts: seq<Token>, p: nat, name: string, tail: Kinds)
    requires Fits(ts, p, ParenthesizedTokens(name, tail))
    ensures p + 3 <= |ts| && ParenthesizedAt(ts, p) == Ok(Some(name), p + 3) && Fits(ts, p + 3, tail)
  {
    Next(ts, p, LParen, Then(Ident(name), Then(RParen, tail)));
    Next(ts, p + 1, Ident(name), Then(RParen, tail));
    Next(ts, p + 2, RParen, tail);
  }

  lemma ResponseReads(ts: seq<Token>, p: nat, response: Option<string>, tail: Kinds) returns (q: nat)
    requires Fits(ts, p, ResponseTokens(response, Then(Newline, tail))) && EndsRoute(tail)
    ensures p <= q < |ts| && ResponseAt(ts, p) == Ok(response, q) && Fits(ts, q, Then(Newline, tail))
  {
    if response.Some? {
      Next(ts, p, Ident("returns"), ParenthesizedTokens(response.value, Then(Newline, tail)));
      ParenthesizedReads(ts, p + 1, response.value, Then(Newline, tail));
      q := p + 4;
    } else {
      q := p;
    }
    AtBreak(ts, q, tail);
  }

  /** What follows the path of a route, where the cursor stands on no token that could prolong the path. */
  lemma TailReads(ts: seq<Token>, p: nat, request: Option<string>, response: Option<string>, tail: Kinds)
    returns (r: nat, q: nat)
    requires Fits(ts, p, RequestTokens(request, ResponseTokens(response, Then(Newline, tail)))) && EndsRoute(tail)
    requires response.Some? ==> request.Some?
    ensures p <= r <= q < |ts| && PathPiece(ts[p].kind).None?
    ensures RequestAt(ts, p) == Ok(request, r) && ResponseAt(ts, r) == Ok(response, q)
    ensures Fits(ts, q, Then(Newline, tail))
  {
    if request.Some? {
      ParenthesizedReads(ts, p, request.value, ResponseTokens(response, Then(Newline, tail)));
      r := p + 3;
    } else {
      AtBreak(ts, p, tail);
      r := p;
    }
    q := ResponseReads(ts, r, response, tail);
  }

  lemma PathStops(ts: seq<Token>, p: nat, path: string, e: nat)
    requires p <= e < |ts| && PathLoop(ts, p, "") == PathLoop(ts, e, "" + path)
    requires path != "" && PathPiece(ts[e].kind).None?
    ensures PathAt(ts, p) == Ok(path, e)
  {
    assert "" + path == path;
  }

  lemma BodyReads(ts: seq<Token>, m: nat, r: Route, e: nat, f: nat, q: nat)
    requires m < e <= f <= q <= |ts| && MethodAt(ts, m) == Ok(r.verb, m + 1) && PathAt(ts, m + 1) == Ok(r.path, e)
    requires RequestAt(ts, e) == Ok(r.request, f) && ResponseAt(ts, f) == Ok(r.response, q)
    ensures RouteBodyAt(ts, m, r.handler) == Ok(r, q)
  {
  }

  /** A route after its method, if a response never comes without a request. */
  lemma PathAndTypesRead(ts: seq<Token>, p: nat, r: Route, tail: Kinds) returns (e: nat, f: nat, q: nat)
    requires r.path != "" && PathText(r.path, false) && (r.response.Some? ==> r.request.Some?)
    requires p <= |ts| && Fits(ts, p, BodyTokens(r, tail)) && EndsRoute(tail)
    ensures p <= e <= f <= q < |ts| && PathAt(ts, p) == Ok(r.path, e)
    ensures RequestAt(ts, e) == Ok(r.request, f) && ResponseAt(ts, f) == Ok(r.response, q)
    ensures Fits(ts, q, Then(Newline, tail))
  {
    e := PathLoopReads(ts, p, "", r.path, RequestTokens(r.request, ResponseTokens(r.response, Then(Newline, tail))));
    f, q := TailReads(ts, e, r.request, r.response, tail);
    PathStops(ts, p, r.path, e);
  }

  lemma RouteBodyReads(ts: seq<Token>, m: nat, r: Route, tail: Kinds) returns (q: nat)
    requires r.path != "" && PathText(r.path, false) && (r.response.Some? ==> r.request.Some?)
    requires m < |ts| && MethodAt(ts, m) == Ok(r.verb, m + 1) && Fits(ts, m + 1, BodyTokens(r, tail)) && EndsRoute(tail)
    ensures m < q < |ts| && RouteBodyAt(ts, m, r.handler) == Ok(r, q) && Fits(ts, q, Then(Newline, tail))
  {
    var e, f;
    e, f, q := PathAndTypesRead(ts, m + 1, r, tail);
    BodyReads(ts, m, r, e, f, q);
  }

  /** One route. */
  lemma RouteReads(ts: seq<Token>, p: nat, r: Route, tail: Kinds) returns (q: nat)
    requires r.path != "" && PathText(r.path, false) && (r.response.Some? ==> r.request.Some?)
    requires Fits(ts, p, RouteTokens(r, tail)) && EndsRoute(tail)
    ensures p < q < |ts| && RouteAt(ts, p) == Ok(r, q) && Fits(ts, q, Then(Newline, tail))
    ensures ts[p].kind == At
  {
    var m := HeadReads(ts, p, r, tail);
    q := RouteBodyReads(ts, m, r, tail);
  }

  /** A path in front of the word `returns` swallows it, and the type after it becomes the request. */
  lemma PathSwallowsReturns(ts: seq<Token>, p: nat, path: string, name: string, tail: Kinds)
    returns (e: nat, f: nat, q: nat)
    requires Fits(ts, p, PathTokens(path, ResponseTokens(Some(name), Then(Newline, tail))))
    requires p <= |ts| && PathText(path, false) && EndsRoute(tail)
    ensures p < e <= f <= q < |ts| && PathAt(ts, p) == Ok(path + "returns", e)
    ensures RequestAt(ts, e) == Ok(Some(name), f) && ResponseAt(ts, f) == Ok(None, q)
    ensures Fits(ts, q, Then(Newline, tail))
  {
    var after := ParenthesizedTokens(name, Then(Newline, tail));
    e := PathLoopReads(ts, p, "", path, Then(Ident("returns"), after));
    Next(ts, e, Ident("returns"), after);
    e := e + 1;
    f, q := TailReads(ts, e, Some(name), None, tail);
    assert "" + path + "returns" == "" + (path + "returns");
    PathStops(ts, p, path + "returns", e);
  }

  lemma BodyAbsorbs(ts: seq<Token>, m: nat, r: Route, tail: Kinds) returns (q: nat)
    requires PathText(r.path, false) && r.request.None? && r.response.Some? && EndsRoute(tail)
    requires m < |ts| && MethodAt(ts, m) == Ok(r.verb, m + 1) && Fits(ts, m + 1, BodyTokens(r, tail))
    ensures m < q < |ts| && Fits(ts, q, Then(Newline, tail))
    ensures RouteBodyAt(ts, m, r.handler)
            == Ok(r.(path := r.path + "returns", request := r.response, response := None), q)
  {
    var e, f;
    e, f, q := PathSwallowsReturns(ts, m + 1, r.path, r.response.value, tail);
    BodyReads(ts, m, r.(path := r.path + "returns", request := r.response, response := None), e, f, q);
  }

  /**
   A route with a response type but no request type is never read back: the word `returns`
   becomes the end of its path and the response type becomes the request type.
   */
  lemma ReturnsIsAbsorbed(ts: seq<Token>, p: nat, r: Route, tail: Kinds) returns (q: nat)
    requires PathText(r.path, false) && r.request.None? && r.response.Some?
    requires Fits(ts, p, RouteTokens(r, tail)) && EndsRoute(tail)
    ensures p < q < |ts| && Fits(ts, q, Then(Newline, tail))
    ensures RouteAt(ts, p) == Ok(r.(path := r.path + "returns", request := r.response, response := None), q)
  {
    var m := HeadReads(ts, p, r, tail);
    q := BodyAbsorbs(ts, m, r, tail);
  }

  lemma RouteThenRest(ts: seq<Token>, p: nat, done: seq<Route>, r: Route, q: nat)
    requires p < q < |ts| && RouteAt(ts, p) == Ok(r, q)
    ensures RouteThen(ts, p, done) == RoutesLoop(ts, SkipNewlines(ts, q), done + [r])
  {
  }

  /** One route and the newlines that end it. */
  lemma RouteLineReads(ts: seq<Token>, p: nat, done: seq<Route>, r: Route, tail: Kinds) returns (q: nat)
    requires WellFormedRoute(r) && Fits(ts, p, RouteTokens(r, tail)) && EndsRoute(tail)
    ensures p < q <= |ts| && Fits(ts, q, tail)
    ensures RoutesLoop(ts, p, done) == RoutesLoop(ts, q, done + [r])
  {
    var e := RouteReads(ts, p, r, tail);
    SkipBreak(ts, e, tail);
    RouteThenRest(ts, p, done, r, e);
    assert RoutesLoop(ts, p, done) == RouteOrSkip(ts, p, done);
    q := SkipNewlines(ts, e);
  }

  lemma {:induction false} RoutesLoopReads(
    ts: seq<Token>, p: nat, done: seq<Route>, routes: seq<Route>, tail: Kinds) returns (q: nat)
    requires forall r :: r in routes ==> WellFormedRoute(r)
    requires Fits(ts, p, Each(routes, RouteTokens, Then(RBrace, tail)))
    ensures p <= |ts| && RoutesLoop(ts, p, done) == Ok(done + routes, q) && Fits(ts, q, Then(RBrace, tail))
    decreases |routes|
  {
    if routes == [] {
      Next(ts, p, RBrace, tail);
      AppendNone(done, routes);
      q := p;
    } else {
      RoutesEndRoute(routes[1..], Then(RBrace, tail));
      var r := RouteLineReads(ts, p, done, routes[0], Each(routes[1..], RouteTokens, Then(RBrace, tail)));
      q := RoutesLoopReads(ts, r, done + [routes[0]], routes[1..], tail);
      AppendFirst(done, routes);
    }
  }

  // -------------------------------------------------------------- declarations

  lemma SyntaxReads(ts: seq<Token>, p: nat, syntax: string, tail: Kinds)
    requires Fits(ts, p, SyntaxTokens(syntax, tail))
    ensures p + 3 <= |ts| && SyntaxAt(ts, p) == Ok(syntax, p + 3) && Fits(ts, p + 3, Then(Newline, tail))
    ensures ts[p].kind == Ident("syntax")
  {
    var last := Then(Newline, tail);
    Next(ts, p, Ident("syntax"), Then(Eq, Then(Str(syntax), last)));
    Next(ts, p + 1, Eq, Then(Str(syntax), last));
    Next(ts, p + 2, Str(syntax), last);
  }

  lemma InfoReads(ts: seq<Token>, p: nat, info: seq<(string, string)>, tail: Kinds) returns (q: nat)
    requires Fits(ts, p, InfoTokens(info, tail))
    ensures p < q <= |ts| && InfoAt(ts, p) == Ok(info, q) && Fits(ts, q, Then(Newline, tail))
    ensures ts[p].kind == Ident("info")
  {
    var close := Then(RParen, Then(Newline, tail));
    var each := Each(info, PairTokens, close);
    Next(ts, p, Ident("info"), Then(LParen, Then(Newline, each)));
    Next(ts, p + 1, LParen, Then(Newline, each));
    EachStartsLine(info, PairTokens, close);
    SkipBreak(ts, p + 2, each);
    q := InfoLoopReads(ts, SkipNewlines(ts, p + 2), [], info, Then(Newline, tail));
    Next(ts, q, RParen, Then(Newline, tail));
    q := q + 1;
    assert [] + info == info;
  }

  lemma TypeReads(ts: seq<Token>, p: nat, t: TypeDef, tail: Kinds) returns (q: nat)
    requires Fits(ts, p, TypeTokens(t, tail))
    ensures p < q <= |ts| && TypeAt(ts, p) == Ok(t, q) && Fits(ts, q, Then(Newline, tail))
    ensures ts[p].kind == Ident("type")
  {
    var close := Then(RBrace, Then(Newline, tail));
    var each := Each(t.fields, FieldTokens, close);
    Next(ts, p, Ident("type"), Then(Ident(t.name), Then(LBrace, Then(Newline, each))));
    Next(ts, p + 1, Ident(t.name), Then(LBrace, Then(Newline, each)));
    Next(ts, p + 2, LBrace, Then(Newline, each));
    EachStartsLine(t.fields, FieldTokens, close);
    SkipBreak(ts, p + 3, each);
    q := FieldsLoopReads(ts, SkipNewlines(ts, p + 3), [], t.fields, Then(Newline, tail));
    Next(ts, q, RBrace, Then(Newline, tail));
    q := q + 1;
    assert [] + t.fields == t.fields;
  }

  lemma ServiceReads(ts: seq<Token>, p: nat, s: Service, tail: Kinds) returns (q: nat)
    requires WellFormedService(s) && Fits(ts, p, ServiceTokens(s, tail))
    ensures p < q <= |ts| && ServiceAt(ts, p) == Ok(s, q) && Fits(ts, q, Then(Newline, tail))
    ensures ts[p].kind == Ident("service")
  {
    var close := Then(RBrace, Then(Newline, tail));
    var each := Each(s.routes, RouteTokens, close);
    Next(ts, p, Ident("service"), Then(Ident(s.name), Then(LBrace, Then(Newline, each))));
    Next(ts, p + 1, Ident(s.name), Then(LBrace, Then(Newline, each)));
    Next(ts, p + 2, LBrace, Then(Newline, each));
    EachStartsLine(s.routes, RouteTokens, close);
    SkipBreak(ts, p + 3, each);
    q := RoutesLoopReads(ts, SkipNewlines(ts, p + 3), [], s.routes, Then(Newline, tail));
    Next(ts, q, RBrace, Then(Newline, tail));
    q := q + 1;
    assert [] + s.routes == s.routes;
  }

  /** A declaration and the newlines that end it. */
  lemma DeclarationReads(
    ts: seq<Token>, p: nat, api: ApiFile, word: string, next: ApiFile, e: nat, tail: Kinds) returns (q: nat)
    requires p < |ts| && ts[p].kind == Ident(word) && p < e <= |ts|
    requires Fits(ts, e, Then(Newline, tail)) && StartsLine(tail)
    requires DeclarationThen(ts, p, word, api) == FileLoop(ts, SkipNewlines(ts, e), next)
    ensures p < q <= |ts| && Fits(ts, q, tail) && FileLoop(ts, p, api) == FileLoop(ts, q, next)
  {
    SkipBreak(ts, e, tail);
    assert FileLoop(ts, p, api) == DeclarationOrSkip(ts, p, api);
    assert DeclarationOrSkip(ts, p, api) == DeclarationThen(ts, p, word, api);
    q := SkipNewlines(ts, e);
  }

  lemma TypeIsNext(ts: seq<Token>, p: nat, api: ApiFile, t: TypeDef, e: nat, tail: Kinds) returns (q: nat)
    requires p < e <= |ts| && ts[p].kind == Ident("type") && TypeAt(ts, p) == Ok(t, e)
    requires Fits(ts, e, Then(Newline, tail)) && StartsLine(tail)
    ensures p < q <= |ts| && Fits(ts, q, tail)
    ensures FileLoop(ts, p, api) == FileLoop(ts, q, api.(types := api.types + [t]))
  {
    q := DeclarationReads(ts, p, api, "type", api.(types := api.types + [t]), e, tail);
  }

  lemma ServiceIsNext(ts: seq<Token>, p: nat, api: ApiFile, s: Service, e: nat, tail: Kinds) returns (q: nat)
    requires p < e <= |ts| && ts[p].kind == Ident("service") && ServiceAt(ts, p) == Ok(s, e)
    requires Fits(ts, e, Then(Newline, tail)) && StartsLine(tail)
    ensures p < q <= |ts| && Fits(ts, q, tail)
    ensures FileLoop(ts, p, api) == FileLoop(ts, q, api.(services := api.services + [s]))
  {
    q := DeclarationReads(ts, p, api, "service", api.(services := api.services + [s]), e, tail);
  }

  lemma {:induction false} TypesRead(
    ts: seq<Token>, p: nat, api: ApiFile, types: seq<TypeDef>, tail: Kinds) returns (q: nat)
    requires Fits(ts, p, Each(types, TypeTokens, tail)) && StartsLine(tail) && p <= |ts|
    ensures p <= q <= |ts| && Fits(ts, q, tail)
    ensures FileLoop(ts, p, api) == FileLoop(ts, q, api.(types := api.types + types))
    decreases |types|
  {
    if types == [] {
      AppendNone(api.types, types);
      q := p;
    } else {
      EachStartsLine(types[1..], TypeTokens, tail);
      var rest := Each(types[1..], TypeTokens, tail);
      var e := TypeReads(ts, p, types[0], rest);
      e := TypeIsNext(ts, p, api, types[0], e, rest);
      q := TypesRead(ts, e, api.(types := api.types + [types[0]]), types[1..], tail);
      AppendFirst(api.types, types);
    }
  }

  lemma {:induction false} ServicesRead(
    ts: seq<Token>, p: nat, api: ApiFile, services: seq<Service>, tail: Kinds) returns (q: nat)
    requires forall s :: s in services ==> WellFormedService(s)
    requires Fits(ts, p, Each(services, ServiceTokens, tail)) && StartsLine(tail) && p <= |ts|
    ensures p <= q <= |ts| && Fits(ts, q, tail)
    ensures FileLoop(ts, p, api) == FileLoop(ts, q, api.(services := api.services + services))
    decreases |services|
  {
    if services == [] {
      AppendNone(api.services, services);
      q := p;
    } else {
      EachStartsLine(services[1..], ServiceTokens, tail);
      var rest := Each(services[1..], ServiceTokens, tail);
      var e := ServiceReads(ts, p, services[0], rest);
      e := ServiceIsNext(ts, p, api, services[0], e, rest);
      q := ServicesRead(ts, e, api.(services := api.services + [services[0]]), services[1..], tail);
      AppendFirst(api.services, services);
    }
  }

  /** The tokens of a file after any number of newlines. */
  function FileLines(api: ApiFile): Kinds {
    Then(Newline, FileTokens(api))
  }

  /** The syntax line and the info block at the top of a file. */
  lemma TopReads(ts: seq<Token>, api: ApiFile, tail: Kinds) returns (q: nat)
    requires Fits(ts, 0, Then(Newline, SyntaxTokens(api.syntax, InfoTokens(api.info, tail)))) && StartsLine(tail)
    ensures q <= |ts| && Fits(ts, q, tail)
    ensures FileAt(ts, 0) == FileLoop(ts, q, EMPTY_FILE.(syntax := api.syntax, info := api.info))
  {
    SkipBreak(ts, 0, SyntaxTokens(api.syntax, InfoTokens(api.info, tail)));
    var p := SkipNewlines(ts, 0);
    SyntaxReads(ts, p, api.syntax, InfoTokens(api.info, tail));
    var first := EMPTY_FILE.(syntax := api.syntax);
    q := DeclarationReads(ts, p, EMPTY_FILE, "syntax", first, p + 3, InfoTokens(api.info, tail));
    var e := InfoReads(ts, q, api.info, tail);
    q := DeclarationReads(ts, q, first, "info", first.(info := api.info), e, tail);
  }

  /**
   Parsing the tokens of a well-formed file, wherever they come from and however many newlines they
   have, returns that file.
   */
  lemma FileReads(ts: seq<Token>, api: ApiFile)
    requires WellFormed(api) && Fits(ts, 0, FileLines(api))
    ensures FileAt(ts, 0).Ok? && FileAt(ts, 0).value == api
  {
    var last := Then(Eof, End);
    var services := Each(api.services, ServiceTokens, last);
    EachStartsLine(api.services, ServiceTokens, last);
    EachStartsLine(api.types, TypeTokens, services);
    var p := TopReads(ts, api, Each(api.types, TypeTokens, services));
    var top := EMPTY_FILE.(syntax := api.syntax, info := api.info);
    var q := TypesRead(ts, p, top, api.types, services);
    assert top.types + api.types == api.types;
    var r := ServicesRead(ts, q, top.(types := api.types), api.services, last);
    assert top.services + api.services == api.services;
    Next(ts, r, Eof, End);
  }

  // ------------------------------------------------------ what can be written

  predicate Plain(kind: TokenKind) {
    Spellable(kind) && !kind.Eof?
  }

  /** Tokens in front of writable ones are writable. */
  lemma Prefixed(a: TokenKind, b: TokenKind, tail: Kinds)
    requires Plain(a) && Plain(b) && tail.Writable()
    ensures Then(a, Then(b, tail)).Writable()
  {
    assert Then(b, tail).Writable();
  }

  /** Printing a list keeps what follows it writable, if printing each item does. */
  lemma {:induction false} EachWritable<T>(items: seq<T>, print1: (T, Kinds) -> Kinds, tail: Kinds)
    requires tail.Writable()
    requires forall x, k: Kinds :: x in items && k.Writable() ==> print1(x, k).Writable()
    ensures Each(items, print1, tail).Writable()
    decreases |items|
  {
    if items != [] {
      EachWritable(items[1..], print1, tail);
      assert items[0] in items;
    }
  }

  lemma PairWritable(pair: (string, string), tail: Kinds)
    requires WellFormedPair(pair) && tail.Writable()
    ensures PairTokens(pair, tail).Writable()
  {
    Prefixed(Str(pair.1), Newline, tail);
    Prefixed(Ident(pair.0), Colon, Then(Str(pair.1), Then(Newline, tail)));
  }

  lemma FieldWritable(f: Field, tail: Kinds)
    requires WellFormedField(f) && tail.Writable()
    ensures FieldTokens(f, tail).Writable()
  {
    if f.tag.Some? {
      Prefixed(Backtick(f.tag.value), Newline, tail);
    }
    Prefixed(Ident(f.name), Ident(f.ty), TagTokens(f.tag, Then(Newline, tail)));
  }

  lemma {:induction false} PathWritable(path: string, tail: Kinds)
    requires PathText(path, false) && tail.Writable()
    ensures PathTokens(path, tail).Writable()
    decreases |path|
  {
    if path != "" {
      PathFirst(path);
      PathWritable(path[PathCut(path)..], tail);
    }
  }

  lemma ParenthesizedWritable(name: string, tail: Kinds)
    requires IsIdent(name) && tail.Writable()
    ensures ParenthesizedTokens(name, tail).Writable()
  {
    Prefixed(Ident(name), RParen, tail);
  }

  lemma BodyWritable(r: Route, tail: Kinds)
    requires WellFormedRoute(r) && tail.Writable()
    ensures BodyTokens(r, tail).Writable()
  {
    var last := Then(Newline, tail);
    if r.response.Some? {
      ParenthesizedWritable(r.response.value, last);
    }
    var response := ResponseTokens(r.response, last);
    if r.request.Some? {
      ParenthesizedWritable(r.request.value, response);
    }
    PathWritable(r.path, RequestTokens(r.request, response));
  }

  lemma RouteWritable(r: Route, tail: Kinds)
    requires WellFormedRoute(r) && tail.Writable()
    ensures RouteTokens(r, tail).Writable()
  {
    BodyWritable(r, tail);
    var body := Then(Ident(MethodName(r.verb)), BodyTokens(r, tail));
    Prefixed(Newline, Ident(MethodName(r.verb)), BodyTokens(r, tail));
    Prefixed(Ident("handler"), Ident(r.handler), Then(Newline, body));
  }

  lemma TypeWritable(t: TypeDef, tail: Kinds)
    requires WellFormedType(t) && tail.Writable()
    ensures TypeTokens(t, tail).Writable()
  {
    Prefixed(RBrace, Newline, tail);
    forall f, k: Kinds | f in t.fields && k.Writable()
      ensures FieldTokens(f, k).Writable()
    {
      FieldWritable(f, k);
    }
    var close := Then(RBrace, Then(Newline, tail));
    EachWritable(t.fields, FieldTokens, close);
    Prefixed(LBrace, Newline, Each(t.fields, FieldTokens, close));
    Prefixed(Ident("type"), Ident(t.name), Then(LBrace, Then(Newline, Each(t.fields, FieldTokens, close))));
  }

  lemma ServiceWritable(s: Service, tail: Kinds)
    requires WellFormedService(s) && tail.Writable()
    ensures ServiceTokens(s, tail).Writable()
  {
    Prefixed(RBrace, Newline, tail);
    forall r, k: Kinds | r in s.routes && k.Writable()
      ensures RouteTokens(r, k).Writable()
    {
      RouteWritable(r, k);
    }
    var close := Then(RBrace, Then(Newline, tail));
    EachWritable(s.routes, RouteTokens, close);
    Prefixed(LBrace, Newline, Each(s.routes, RouteTokens, close));
    Prefixed(Ident("service"), Ident(s.name), Then(LBrace, Then(Newline, Each(s.routes, RouteTokens, close))));
  }

  lemma InfoWritable(info: seq<(string, string)>, tail: Kinds)
    requires (forall pair :: pair in info ==> WellFormedPair(pair)) && tail.Writable()
    ensures InfoTokens(info, tail).Writable()
  {
    Prefixed(RParen, Newline, tail);
    forall pair, k: Kinds | pair in info && k.Writable()
      ensures PairTokens(pair, k).Writable()
    {
      PairWritable(pair, k);
    }
    var close := Then(RParen, Then(Newline, tail));
    EachWritable(info, PairTokens, close);
    Prefixed(LParen, Newline, Each(info, PairTokens, close));
  }

  /** The tokens of a well-formed file can be written. */
  lemma FileWritable(api: ApiFile)
    requires WellFormed(api)
    ensures FileTokens(api).Writable()
  {
    forall s, k: Kinds | s in api.services && k.Writable()
      ensures ServiceTokens(s, k).Writable()
    {
      ServiceWritable(s, k);
    }
    forall t, k: Kinds | t in api.types && k.Writable()
      ensures TypeTokens(t, k).Writable()
    {
      TypeWritable(t, k);
    }
    EachWritable(api.services, ServiceTokens, Then(Eof, End));
    var services := Each(api.services, ServiceTokens, Then(Eof, End));
    EachWritable(api.types, TypeTokens, services);
    var info := InfoTokens(api.info, Each(api.types, TypeTokens, services));
    InfoWritable(api.info, Each(api.types, TypeTokens, services));
    Prefixed(Str(api.syntax), Newline, info);
    Prefixed(Ident("syntax"), Eq, Then(Str(api.syntax), Then(Newline, info)));
  }

  /** Newlines more or less do not make tokens unwritable. */
  lemma {:induction false} LoosensWritable(kinds: Kinds, spec: Kinds)
    requires Loosens(kinds, spec) && spec.Writable()
    ensures kinds.Writable()
    decreases spec, kinds
  {
    if spec.head.Newline? {
      if Loosens(kinds, spec.rest) {
        LoosensWritable(kinds, spec.rest);
      } else {
        LoosensWritable(kinds.rest, spec);
      }
    } else if !spec.head.Eof? {
      LoosensWritable(kinds.rest, spec.rest);
    }
  }

  /**
   A well-formed file is read back from every layout of its tokens: with blanks, comments, blank
   lines and comment lines wherever a line may end, or without any newline at all.
   */
  lemma ParseUndoesRender(api: ApiFile, kinds: Kinds, gaps: seq<string>)
    requires WellFormed(api) && Loosens(kinds, FileLines(api)) && Admissible(kinds, gaps)
    ensures var read := ParseApi(Render(kinds, gaps)); read.Ok? && read.value == api
  {
    var src := Render(kinds, gaps);
    FileWritable(api);
    LoosensWritable(kinds, FileLines(api));
    assert src[0..] == src;
    LexUndoesRender(src, 0, kinds, gaps);
    FileReads(TokensFrom(src, 0), api);
  }

  // ------------------------------------------------------- paths as they are

  predicate SlashesAt(path: string, k: nat) {
    k + 1 < |path| && path[k] == '/' && path[k + 1] == '/'
  }

  /** Where the first two slashes next to each other stand, or the end. */
  function DoubleSlash(path: string): (n: nat)
    ensures n <= |path|
  {
    if |path| < 2 then |path| else if SlashesAt(path, 0) then 0 else 1 + DoubleSlash(path[1..])
  }

  lemma {:induction false} DoubleSlashSkips(path: string, e: nat)
    requires e <= |path| && forall k :: 0 <= k < e ==> !SlashesAt(path, k)
    ensures DoubleSlash(path) == e + DoubleSlash(path[e..])
    decreases e
  {
    if e == 0 {
      assert path[e..] == path;
    } else {
      assert !SlashesAt(path, 0);
      forall k | 0 <= k < e - 1 ensures !SlashesAt(path[1..], k) {
        assert !SlashesAt(path, k + 1);
      }
      DoubleSlashSkips(path[1..], e - 1);
      assert path[1..][e - 1..] == path[e..];
    }
  }

  lemma {:induction false} DoubleSlashIff(path: string)
    ensures DoubleSlash(path) == |path| <==> forall k :: 0 <= k < |path| ==> !SlashesAt(path, k)
  {
    if |path| >= 2 && !SlashesAt(path, 0) {
      DoubleSlashIff(path[1..]);
      forall k | 0 <= k < |path| - 1 ensures SlashesAt(path[1..], k) == SlashesAt(path, k + 1) {
      }
      assert forall k :: 0 < k < |path| ==> SlashesAt(path, k) == SlashesAt(path[1..], k - 1);
    }
  }

  /** What follows a path does not prolong its last token. */
  predicate EndsPath(after: string) {
    after == "" || (!IsIdentChar(after[0]) && after[0] != '/')
  }

  predicate StartsComment(path: string) {
    SlashesAt(path, 0)
  }

  lemma PathHeadText(path: string)
    requires path != "" && PathText(path, false)
    ensures Text(PathHead(path)) == path[..PathCut(path)] && !PathHead(path).Newline? && !PathHead(path).Eof?
  {
    assert path[..1] == [path[0]];
  }

  /** The first token of a path written as it is. */
  lemma PathHeadScans(src: string, i: nat, path: string, after: string)
    requires i <= |src| && src[i..] == path + after && EndsPath(after)
    requires path != "" && PathText(path, false) && !StartsComment(path)
    ensures var x := Scan(src, i); x.kind == PathHead(path) && src[x.end..] == path[PathCut(path)..] + after
  {
    var e := PathCut(path);
    var rest := path[e..] + after;
    PathFirst(path);
    PathHeadText(path);
    assert src[i..] == "" + Text(PathHead(path)) + rest;
    assert rest != "" ==> rest[0] == if e < |path| then path[e] else after[0];
    FirstTokenScans(src, i, "", PathHead(path), rest);
  }

  lemma CommentScans(src: string, i: nat, path: string, after: string)
    requires i <= |src| && src[i..] == path + after && StartsComment(path)
    ensures PathPiece(Scan(src, i).kind).None?
  {
    assert src[i] == (path + after)[0] && src[i + 1] == (path + after)[1];
    assert Until(src, i, NotBlank) == i;
  }

  lemma {:induction false} PathLoopShift(t: Token, ts: seq<Token>, p: nat, path: string)
    requires p <= |ts|
    ensures PathLoop([t] + ts, p + 1, path).0 == PathLoop(ts, p, path).0
    decreases |ts| - p
  {
    if p < |ts| && PathPiece(ts[p].kind).Some? {
      PathLoopShift(t, ts, p + 1, path + PathPiece(ts[p].kind).value);
    }
  }

  lemma PathLoopOne(src: string, i: nat, done: string)
    requires i <= |src|
    ensures var x := Scan(src, i);
            PathLoop(TokensFrom(src, i), 0, done).0 ==
            if PathPiece(x.kind).None? then done
            else PathLoop(TokensFrom(src, x.end), 0, done + PathPiece(x.kind).value).0
  {
    var x := Scan(src, i);
    if PathPiece(x.kind).Some? {
      PathLoopShift(Stamp(src, x), TokensFrom(src, x.end), 0, done + PathPiece(x.kind).value);
    }
  }

  lemma PathCutSkips(path: string)
    requires path != "" && PathText(path, false) && !StartsComment(path)
    ensures DoubleSlash(path) == PathCut(path) + DoubleSlash(path[PathCut(path)..])
  {
    DoubleSlashSkips(path, PathCut(path));
  }

  /** At offset `i` a path is written as it is, and what follows it is no piece of a path. */
  predicate Verbatim(src: string, i: nat, path: string, after: string) {
    && i <= |src| && src[i..] == path + after && PathText(path, false) && EndsPath(after)
    && PathPiece(Scan(src, |src| - |after|).kind).None?
  }

  lemma VerbatimEnd(src: string, i: nat, path: string, after: string, done: string)
    requires Verbatim(src, i, path, after) && (path == "" || StartsComment(path))
    ensures PathLoop(TokensFrom(src, i), 0, done).0 == done
  {
    PathLoopOne(src, i, done);
    if path == "" {
      assert i == |src| - |after|;
    } else {
      CommentScans(src, i, path, after);
    }
  }

  lemma VerbatimStep(src: string, i: nat, path: string, after: string, done: string) returns (j: nat, e: nat)
    requires Verbatim(src, i, path, after) && path != "" && !StartsComment(path)
    ensures 0 < e <= |path| && j <= |src| && Verbatim(src, j, path[e..], after)
    ensures DoubleSlash(path) == e + DoubleSlash(path[e..])
    ensures PathLoop(TokensFrom(src, i), 0, done).0 == PathLoop(TokensFrom(src, j), 0, done + path[..e]).0
  {
    PathLoopOne(src, i, done);
    PathHeadScans(src, i, path, after);
    PathFirst(path);
    PathCutSkips(path);
    j, e := Scan(src, i).end, PathCut(path);
  }

  lemma VerbatimParts(done: string, path: string, e: nat, n: nat)
    requires e + n <= |path|
    ensures done + path[..e] + path[e..][..n] == done + path[..e + n]
  {
  }

  /** A path written as it is, is read up to the first two slashes next to each other: they start a comment. */
  lemma {:induction false} PathVerbatim(src: string, i: nat, path: string, after: string, done: string)
    requires Verbatim(src, i, path, after)
    ensures PathLoop(TokensFrom(src, i), 0, done).0 == done + path[..DoubleSlash(path)]
    decreases |path|
  {
    if path == "" || StartsComment(path) {
      VerbatimEnd(src, i, path, after, done);
      AppendNone(done, path[..DoubleSlash(path)]);
    } else {
      var j, e := VerbatimStep(src, i, path, after, done);
      PathVerbatim(src, j, path[e..], after, done + path[..e]);
      VerbatimParts(done, path, e, DoubleSlash(path[e..]));
    }
  }

  /**
   A path written without blanks is read back if and only if it has no two slashes next to each
   other, whatever stands behind it that is no part of a path.
   */
  lemma PathVerbatimIff(src: string, i: nat, path: string, after: string)
    requires Verbatim(src, i, path, after) && path != ""
    ensures var read := PathAt(TokensFrom(src, i), 0);
            read.Ok? && read.value == path <==>
            forall k :: 0 <= k < |path| ==> !SlashesAt(path, k)
  {
    PathVerbatim(src, i, path, after, "");
    DoubleSlashIff(path);
    var n := DoubleSlash(path);
    assert "" + path[..n] == path[..n];
    assert n == |path| ==> path[..n] == path;
  }

  // ------------------------------------------------------- what can be returned

  predicate AllSpellable(ts: seq<Token>) {
    forall k :: 0 <= k < |ts| ==> Spellable(ts[k].kind)
  }

  lemma {:induction false} WritableTokens(ts: seq<Token>, p: nat)
    requires p <= |ts| && (p < |ts| ==> View(ts, p).Writable())
    ensures forall k :: p <= k < |ts| ==> Spellable(ts[k].kind)
    decreases |ts| - p
  {
    if p < |ts| {
      WritableTokens(ts, p + 1);
    }
  }

  lemma {:induction false} PathTextAppend(a: string, b: string, inIdent: bool)
    requires PathText(a, inIdent) && PathText(b, false)
    ensures PathText(a + b, inIdent)
    decreases |a| + |b|
  {
    if a != "" {
      var rest := a[1..];
      assert (a + b)[1..] == rest + b;
      PathTextAppend(rest, b, if a[0] == ':' || a[0] == '/' then false else if IsDigit(a[0]) then inIdent else true);
    } else {
      assert a + b == b;
      if b != "" && IsDigit(b[0]) {
        PathTextAppend("", b[1..], inIdent);
        assert "" + b[1..] == b[1..];
      }
    }
  }

  lemma {:induction false} RunIsPathText(s: string, inIdent: bool)
    requires forall k :: 0 <= k < |s| ==> IsIdentChar(s[k])
    requires inIdent || (forall k :: 0 <= k < |s| ==> IsDigit(s[k])) || (s != "" && IsIdentStart(s[0]))
    ensures PathText(s, inIdent)
  {
    if s != "" {
      RunIsPathText(s[1..], if IsDigit(s[0]) then inIdent else true);
    }
  }

  lemma {:induction false} PathLoopText(ts: seq<Token>, p: nat, path: string)
    requires AllSpellable(ts) && p <= |ts| && PathText(path, false)
    ensures PathText(PathLoop(ts, p, path).0, false)
    decreases |ts| - p
  {
    if p < |ts| && PathPiece(ts[p].kind).Some? {
      var piece := PathPiece(ts[p].kind).value;
      assert PathText(piece, false) by {
        if ts[p].kind.Ident? || ts[p].kind.Number? {
          RunIsPathText(piece, false);
        }
      }
      PathTextAppend(path, piece, false);
      PathLoopText(ts, p + 1, path + piece);
    }
  }

  lemma RouteIsWellFormed(ts: seq<Token>, p: nat)
    requires AllSpellable(ts) && p <= |ts| && RouteAt(ts, p).Ok?
    ensures WellFormedRoute(RouteAt(ts, p).value)
  {
    var (_, p1) := Expect(ts, p, At).Extract();
    var (_, p2) := ExpectWord(ts, p1, "handler").Extract();
    var (_, p3) := ExpectIdent(ts, p2).Extract();
    var (_, q) := MethodAt(ts, SkipNewlines(ts, p3)).Extract();
    PathLoopText(ts, q, "");
  }

  lemma {:induction false} RoutesAreWellFormed(ts: seq<Token>, p: nat, routes: seq<Route>)
    requires AllSpellable(ts) && p <= |ts| && RoutesLoop(ts, p, routes).Ok?
    requires forall r :: r in routes ==> WellFormedRoute(r)
    ensures forall r :: r in RoutesLoop(ts, p, routes).value ==> WellFormedRoute(r)
    decreases |ts| - p
  {
    if !Check(ts, p, RBrace) && !AtEof(ts, p) {
      if Check(ts, p, At) {
        assert RoutesLoop(ts, p, routes) == RouteOrSkip(ts, p, routes);
        assert RouteOrSkip(ts, p, routes) == RouteThen(ts, p, routes);
        RouteIsWellFormed(ts, p);
        var (route, q) := RouteAt(ts, p).Extract();
        RoutesAreWellFormed(ts, SkipNewlines(ts, q), routes + [route]);
      } else {
        RoutesAreWellFormed(ts, SkipNewlines(ts, p + 1), routes);
      }
    }
  }

  lemma {:induction false} PairsAreWellFormed(ts: seq<Token>, p: nat, pairs: seq<(string, string)>)
    requires AllSpellable(ts) && p <= |ts| && InfoLoop(ts, p, pairs).Ok?
    requires forall pair :: pair in pairs ==> WellFormedPair(pair)
    ensures forall pair :: pair in InfoLoop(ts, p, pairs).value ==> WellFormedPair(pair)
    decreases |ts| - p
  {
    if !Check(ts, p, RParen) && !AtEof(ts, p) {
      if PeekIdent(ts, p).Some? {
        var (_, p1) := Expect(ts, p + 1, Colon).Extract();
        var (value, p2) := ExpectStr(ts, p1).Extract();
        PairsAreWellFormed(ts, SkipNewlines(ts, p2), pairs + [(PeekIdent(ts, p).value, value)]);
      } else {
        PairsAreWellFormed(ts, SkipNewlines(ts, p + 1), pairs);
      }
    }
  }

  lemma {:induction false} FieldsAreWellFormed(ts: seq<Token>, p: nat, fields: seq<Field>)
    requires AllSpellable(ts) && p <= |ts| && FieldsLoop(ts, p, fields).Ok?
    requires forall f :: f in fields ==> WellFormedField(f)
    ensures forall f :: f in FieldsLoop(ts, p, fields).value ==> WellFormedField(f)
    decreases |ts| - p
  {
    if !Check(ts, p, RBrace) && !AtEof(ts, p) {
      if PeekIdent(ts, p).Some? {
        var (ty, p1) := ExpectIdent(ts, p + 1).Extract();
        var (tag, p2) := TagAt(ts, p1).Extract();
        FieldsAreWellFormed(ts, SkipNewlines(ts, p2), fields + [Field(PeekIdent(ts, p).value, ty, tag)]);
      } else {
        FieldsAreWellFormed(ts, SkipNewlines(ts, p + 1), fields);
      }
    }
  }

  lemma InfoIsWellFormed(ts: seq<Token>, p: nat)
    requires AllSpellable(ts) && p <= |ts| && InfoAt(ts, p).Ok?
    ensures forall pair :: pair in InfoAt(ts, p).value ==> WellFormedPair(pair)
  {
    var (_, p1) := ExpectWord(ts, p, "info").Extract();
    var (_, p2) := Expect(ts, p1, LParen).Extract();
    PairsAreWellFormed(ts, SkipNewlines(ts, p2), []);
  }

  lemma TypeIsWellFormed(ts: seq<Token>, p: nat)
    requires AllSpellable(ts) && p <= |ts| && TypeAt(ts, p).Ok?
    ensures WellFormedType(TypeAt(ts, p).value)
  {
    var (_, p1) := ExpectWord(ts, p, "type").Extract();
    var (_, p2) := ExpectIdent(ts, p1).Extract();
    var (_, p3) := Expect(ts, p2, LBrace).Extract();
    FieldsAreWellFormed(ts, SkipNewlines(ts, p3), []);
  }

  lemma ServiceIsWellFormed(ts: seq<Token>, p: nat)
    requires AllSpellable(ts) && p <= |ts| && ServiceAt(ts, p).Ok?
    ensures WellFormedService(ServiceAt(ts, p).value)
  {
    var (_, p1) := ExpectWord(ts, p, "service").Extract();
    var (_, p2) := ExpectIdent(ts, p1).Extract();
    var (_, p3) := Expect(ts, p2, LBrace).Extract();
    RoutesAreWellFormed(ts, SkipNewlines(ts, p3), []);
  }

  /** One declaration keeps a file well formed. */
  lemma DeclarationIsWellFormed(ts: seq<Token>, p: nat, word: string, api: ApiFile) returns (next: ApiFile, q: nat)
    requires AllSpellable(ts) && p <= |ts| && WellFormed(api) && DeclarationThen(ts, p, word, api).Ok?
    ensures WellFormed(next) && p < q <= |ts| && DeclarationThen(ts, p, word, api) == FileLoop(ts, q, next)
  {
    if word == "syntax" {
      var (syntax, e) := SyntaxAt(ts, p).Extract();
      next, q := api.(syntax := syntax), SkipNewlines(ts, e);
    } else if word == "info" {
      InfoIsWellFormed(ts, p);
      var (info, e) := InfoAt(ts, p).Extract();
      next, q := api.(info := info), SkipNewlines(ts, e);
    } else if word == "type" {
      TypeIsWellFormed(ts, p);
      var (def, e) := TypeAt(ts, p).Extract();
      next, q := api.(types := api.types + [def]), SkipNewlines(ts, e);
    } else {
      ServiceIsWellFormed(ts, p);
      var (service, e) := ServiceAt(ts, p).Extract();
      next, q := api.(services := api.services + [service]), SkipNewlines(ts, e);
    }
  }

  lemma {:induction false} FileIsWellFormed(ts: seq<Token>, p: nat, api: ApiFile)
    requires AllSpellable(ts) && p <= |ts| && WellFormed(api) && FileLoop(ts, p, api).Ok?
    ensures WellFormed(FileLoop(ts, p, api).value)
    decreases |ts| - p
  {
    if !AtEof(ts, p) {
      if PeekIdent(ts, p).Some? {
        var next, q := DeclarationIsWellFormed(ts, p, PeekIdent(ts, p).value, api);
        FileIsWellFormed(ts, q, next);
      } else {
        FileIsWellFormed(ts, SkipNewlines(ts, p + 1), api);
      }
    }
  }

  /** Whatever the source, a file that the parser returns is well formed. */
  lemma ParsedIsWellFormed(src: string)
    requires ParseApi(src).Ok?
    ensures WellFormed(ParseApi(src).value)
  {
    var ts := TokensFrom(src, 0);
    TokensAreWritable(src, 0);
    WritableTokens(ts, 0);
    FileIsWellFormed(ts, SkipNewlines(ts, 0), EMPTY_FILE);
  }

  /** Printing then parsing returns the file exactly when it is well formed. */
  lemma RoundTrip(api: ApiFile)
    ensures WellFormed(api) <==> ParseApi(Print(api)).Ok? && ParseApi(Print(api)).value == api
  {
    if WellFormed(api) {
      SpacesAdmissible(FileTokens(api));
      LoosensItself(FileTokens(api));
      ParseUndoesRender(api, FileTokens(api), Spaces(FileTokens(api).Length()));
    } else if ParseApi(Print(api)).Ok? {
      ParsedIsWellFormed(Print(api));
    }
  }

  /** The files that some source is parsed to are the well-formed ones. */
  lemma ParseableIffWellFormed(api: ApiFile)
    ensures WellFormed(api) <==> exists src :: ParseApi(src).Ok? && ParseApi(src).value == api
  {
    RoundTrip(api);
    forall src | ParseApi(src).Ok? && ParseApi(src).value == api
      ensures WellFormed(api)
    {
      ParsedIsWellFormed(src);
    }
  }

  lemma {:induction false} WritableEof(ts: seq<Token>, p: nat)
    requires p < |ts| && View(ts, p).Writable()
    ensures forall k :: p <= k < |ts| ==> (ts[k].kind.Eof? <==> k == |ts| - 1)
    decreases |ts| - p
  {
    assert View(ts, p) == Then(ts[p].kind, View(ts, p + 1));
    if ts[p].kind.Eof? {
      assert View(ts, p + 1) == End;
    } else {
      WritableEof(ts, p + 1);
    }
  }

  /** The end of file occurs once among the tokens of a source, as the last. */
  lemma OneEof(src: string)
    ensures var ts := TokensFrom(src, 0); ts != [] && forall k :: 0 <= k < |ts| ==> (ts[k].kind.Eof? <==> k == |ts| - 1)
  {
    TokensAreWritable(src, 0);
    WritableEof(TokensFrom(src, 0), 0);
  }

  /** A file that is accepted is read up to its end: the cursor stops on the one end-of-file token. */
  lemma WholeFileIsRead(src: string)
    requires ParseApi(src).Ok?
    ensures ParseApi(src).pos == |TokensFrom(src, 0)| - 1
  {
    var ts := TokensFrom(src, 0);
    OneEof(src);
    assert ts[|ts| - 1].kind.Eof?;
  }
}

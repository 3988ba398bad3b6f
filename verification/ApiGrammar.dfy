/**
 The grammar of `.api` files, as a relation between tokens and what they say, without a cursor,
 loops or errors. The parser accepts exactly what the grammar derives, and returns what it says.

 Between the parts of a block, and between declarations, tokens that begin nothing are passed over.
 */
module ApiGrammar {
  import opened Wrappers
  import opened ApiLexer
  import opened ApiLayout
  import opened ApiParser
  import opened ApiRoundTrip
  import opened ApiErrors
  import opened ApiDeclarations

  // ------------------------------------------------------------------- grammar

  /** The token at `p` is this one. */
  predicate Has(ts: seq<Token>, p: nat, kind: TokenKind) {
    p < |ts| && ts[p].kind == kind
  }

  /** From `p` to `q`: a key, a colon and a string for each pair. */
  predicate IsPairs(ts: seq<Token>, p: nat, pairs: seq<(string, string)>, q: nat)
    requires q <= |ts|
    decreases |ts| - p
  {
    if p >= q then p == q && pairs == []
    else if ts[p].kind.Ident? then
      && pairs != [] && ts[p].kind.name == pairs[0].0 && Has(ts, p + 1, Colon) && Has(ts, p + 2, Str(pairs[0].1))
      && IsPairs(ts, p + 3, pairs[1..], q)
    else ForeignInInfo(ts[p].kind) && IsPairs(ts, p + 1, pairs, q)
  }

  predicate IsInfo(ts: seq<Token>, p: nat, info: seq<(string, string)>, e: nat) {
    && p + 3 <= e <= |ts| && Has(ts, p, Ident("info")) && Has(ts, p + 1, LParen)
    && IsPairs(ts, p + 2, info, e - 1) && Has(ts, e - 1, RParen)
  }

  predicate HasTag(ts: seq<Token>, p: nat) {
    p < |ts| && ts[p].kind.Backtick?
  }

  /** A name, a type and a tag, if one follows, for each field. */
  predicate IsFields(ts: seq<Token>, p: nat, fields: seq<Field>, q: nat)
    requires q <= |ts|
    decreases |ts| - p
  {
    if p >= q then p == q && fields == []
    else if ts[p].kind.Ident? then
      && fields != [] && ts[p].kind.name == fields[0].name && Has(ts, p + 1, Ident(fields[0].ty))
      && fields[0].tag == (if HasTag(ts, p + 2) then Some(ts[p + 2].kind.raw) else None)
      && IsFields(ts, if HasTag(ts, p + 2) then p + 3 else p + 2, fields[1..], q)
    else ForeignInType(ts[p].kind) && IsFields(ts, p + 1, fields, q)
  }

  predicate IsType(ts: seq<Token>, p: nat, t: TypeDef, e: nat) {
    && p + 4 <= e <= |ts| && Has(ts, p, Ident("type")) && Has(ts, p + 1, Ident(t.name)) && Has(ts, p + 2, LBrace)
    && IsFields(ts, p + 3, t.fields, e - 1) && Has(ts, e - 1, RBrace)
  }

  /** The pieces of a path put together. */
  predicate IsPieces(ts: seq<Token>, p: nat, path: string, x: nat)
    requires x <= |ts|
    decreases |ts| - p
  {
    if p >= x then p == x && path == ""
    else
      match PathPiece(ts[p].kind)
      case None => false
      case Some(piece) => piece <= path && IsPieces(ts, p + 1, path[|piece|..], x)
  }

  predicate IsParenthesized(ts: seq<Token>, p: nat, name: string) {
    Has(ts, p, LParen) && Has(ts, p + 1, Ident(name)) && Has(ts, p + 2, RParen)
  }

  /** A request type, if a parenthesis follows. */
  predicate IsRequest(ts: seq<Token>, p: nat, request: Option<string>, e: nat) {
    if Has(ts, p, LParen) then request.Some? && IsParenthesized(ts, p, request.value) && e == p + 3
    else request.None? && e == p
  }

  /** A response type, if the word `returns` follows. */
  predicate IsResponse(ts: seq<Token>, p: nat, response: Option<string>, e: nat) {
    if Has(ts, p, Ident("returns")) then response.Some? && IsParenthesized(ts, p + 1, response.value) && e == p + 4
    else response.None? && e == p
  }

  /** The longest path that begins at `p`. */
  predicate IsPath(ts: seq<Token>, p: nat, path: string, x: nat) {
    p <= x <= |ts| && path != "" && IsPieces(ts, p, path, x) && (x < |ts| ==> PathPiece(ts[x].kind).None?)
  }

  ghost predicate IsTypes(ts: seq<Token>, x: nat, r: Route, e: nat) {
    exists y :: x <= y <= |ts| && IsRequest(ts, x, r.request, y) && IsResponse(ts, y, r.response, e)
  }

  /** A method in any letter case, a path and the types. */
  ghost predicate IsBody(ts: seq<Token>, m: nat, r: Route, e: nat) {
    && m < |ts| && ts[m].kind.Ident? && Spells(ts[m].kind.name, r.verb)
    && exists x :: IsPath(ts, m + 1, r.path, x) && IsTypes(ts, x, r, e)
  }

  /** A handler line, newlines, and the body. */
  ghost predicate IsRoute(ts: seq<Token>, p: nat, r: Route, e: nat) {
    && Has(ts, p, At) && Has(ts, p + 1, Ident("handler")) && Has(ts, p + 2, Ident(r.handler))
    && exists m :: p + 3 <= m <= |ts| && (forall k :: p + 3 <= k < m ==> ts[k].kind.Newline?) && IsBody(ts, m, r, e)
  }

  ghost predicate IsRoutes(ts: seq<Token>, p: nat, routes: seq<Route>, q: nat)
    requires q <= |ts|
    decreases |ts| - p
  {
    if p >= q then p == q && routes == []
    else if ts[p].kind.At? then
      routes != [] && exists e :: p < e <= q && IsRoute(ts, p, routes[0], e) && IsRoutes(ts, e, routes[1..], q)
    else ForeignInService(ts[p].kind) && IsRoutes(ts, p + 1, routes, q)
  }

  ghost predicate IsService(ts: seq<Token>, p: nat, s: Service, e: nat) {
    && p + 4 <= e <= |ts| && Has(ts, p, Ident("service")) && Has(ts, p + 1, Ident(s.name)) && Has(ts, p + 2, LBrace)
    && IsRoutes(ts, p + 3, s.routes, e - 1) && Has(ts, e - 1, RBrace)
  }

  ghost predicate IsDeclaration(ts: seq<Token>, p: nat, d: Declaration, e: nat) {
    match d
    case SyntaxLine(text) =>
      Has(ts, p, Ident("syntax")) && Has(ts, p + 1, Eq) && Has(ts, p + 2, Str(text)) && e == p + 3
    case InfoBlock(info) => IsInfo(ts, p, info, e)
    case TypeBlock(def) => IsType(ts, p, def, e)
    case ServiceBlock(service) => IsService(ts, p, service, e)
  }

  ghost predicate IsFile(ts: seq<Token>, p: nat, ds: seq<Declaration>, q: nat)
    requires q <= |ts|
    decreases |ts| - p
  {
    if p >= q then p == q && ds == []
    else if ts[p].kind.Ident? then
      ds != [] && exists e :: p < e <= q && IsDeclaration(ts, p, ds[0], e) && IsFile(ts, e, ds[1..], q)
    else ForeignInFile(ts[p].kind) && IsFile(ts, p + 1, ds, q)
  }

  // ---------------------------------------------------------------------- info

  lemma {:induction false} PairsAfterNewlines(ts: seq<Token>, p: nat, pairs: seq<(string, string)>, q: nat)
    requires p <= q <= |ts| && SkipNewlines(ts, p) <= q && IsPairs(ts, SkipNewlines(ts, p), pairs, q)
    ensures IsPairs(ts, p, pairs, q)
    decreases |ts| - p
  {
    if Check(ts, p, Newline) {
      PairsAfterNewlines(ts, p + 1, pairs, q);
    }
  }

  /** What the loop accepts is derived. */
  lemma {:induction false} PairsDerived(ts: seq<Token>, p: nat, done: seq<(string, string)>, q: nat)
    returns (pairs: seq<(string, string)>)
    requires p <= |ts| && InfoLoop(ts, p, done).Ok? && InfoLoop(ts, p, done).pos == q
    ensures p <= q <= |ts| && IsPairs(ts, p, pairs, q) && InfoLoop(ts, p, done).value == done + pairs
    decreases |ts| - p
  {
    if Check(ts, p, RParen) || AtEof(ts, p) {
      pairs := [];
      AppendNone(done, pairs);
    } else if PeekIdent(ts, p).Some? {
      var pair := (ts[p].kind.name, ts[p + 2].kind.text);
      var rest := PairsDerived(ts, SkipNewlines(ts, p + 3), done + [pair], q);
      PairsAfterNewlines(ts, p + 3, rest, q);
      pairs := [pair] + rest;
      AppendFirst(done, pairs);
    } else {
      pairs := PairsDerived(ts, SkipNewlines(ts, p + 1), done, q);
      PairsAfterNewlines(ts, p + 1, pairs, q);
    }
  }

  lemma PairNext(ts: seq<Token>, p: nat, done: seq<(string, string)>)
    requires p + 3 <= |ts| && ts[p].kind.Ident? && ts[p + 1].kind == Colon && ts[p + 2].kind.Str?
    ensures InfoLoop(ts, p, done) == InfoLoop(ts, p + 3, done + [(ts[p].kind.name, ts[p + 2].kind.text)])
  {
    InfoAfterNewlines(ts, p + 3, done + [(ts[p].kind.name, ts[p + 2].kind.text)]);
  }

  /** What is derived, up to the closing parenthesis, is accepted. */
  lemma {:induction false} PairsAccepted(
    ts: seq<Token>, p: nat, done: seq<(string, string)>, pairs: seq<(string, string)>, q: nat)
    requires q < |ts| && ts[q].kind == RParen && IsPairs(ts, p, pairs, q)
    ensures p <= q && InfoLoop(ts, p, done) == Ok(done + pairs, q)
    decreases |ts| - p
  {
    if p >= q {
      AppendNone(done, pairs);
    } else if ts[p].kind.Ident? {
      PairsAccepted(ts, p + 3, done + [pairs[0]], pairs[1..], q);
      PairNext(ts, p, done);
      AppendFirst(done, pairs);
    } else {
      PairsAccepted(ts, p + 1, done, pairs, q);
      InfoSkipsForeignOne(ts, p, done);
    }
  }

  /** The first two tokens, the loop, and the last token. */
  lemma InfoTaken(ts: seq<Token>, p: nat) returns (info: seq<(string, string)>, q: nat)
    requires p <= |ts| && InfoAt(ts, p).Ok?
    ensures p + 2 <= q < |ts| && InfoAt(ts, p) == Ok(info, q + 1)
    ensures Has(ts, p, Ident("info")) && Has(ts, p + 1, LParen) && Has(ts, q, RParen)
    ensures InfoLoop(ts, SkipNewlines(ts, p + 2), []) == Ok(info, q)
  {
    info, q := InfoAt(ts, p).value, InfoAt(ts, p).pos - 1;
  }

  lemma InfoGiven(ts: seq<Token>, p: nat, info: seq<(string, string)>, q: nat)
    requires Has(ts, p, Ident("info")) && Has(ts, p + 1, LParen) && Has(ts, q, RParen)
    requires InfoLoop(ts, SkipNewlines(ts, p + 2), []) == Ok(info, q)
    ensures InfoAt(ts, p) == Ok(info, q + 1)
  {
  }

  lemma PairsFromStart(ts: seq<Token>, p: nat, info: seq<(string, string)>, q: nat)
    requires p <= |ts| && InfoLoop(ts, SkipNewlines(ts, p), []) == Ok(info, q)
    ensures q <= |ts| && IsPairs(ts, p, info, q)
  {
    var pairs := PairsDerived(ts, SkipNewlines(ts, p), [], q);
    PairsAfterNewlines(ts, p, pairs, q);
    assert [] + pairs == pairs;
  }

  lemma InfoDerived(ts: seq<Token>, p: nat) returns (info: seq<(string, string)>, e: nat)
    requires p <= |ts| && InfoAt(ts, p).Ok?
    ensures InfoAt(ts, p) == Ok(info, e) && IsInfo(ts, p, info, e)
  {
    var q;
    info, q := InfoTaken(ts, p);
    PairsFromStart(ts, p + 2, info, q);
    e := q + 1;
  }

  lemma InfoAccepted(ts: seq<Token>, p: nat, info: seq<(string, string)>, e: nat)
    requires IsInfo(ts, p, info, e)
    ensures InfoAt(ts, p) == Ok(info, e)
  {
    PairsAccepted(ts, p + 2, [], info, e - 1);
    InfoAfterNewlines(ts, p + 2, []);
    assert [] + info == info;
    InfoGiven(ts, p, info, e - 1);
  }

  // --------------------------------------------------------------------- types

  lemma {:induction false} FieldsAfter(ts: seq<Token>, p: nat, fields: seq<Field>, q: nat)
    requires p <= q <= |ts| && SkipNewlines(ts, p) <= q && IsFields(ts, SkipNewlines(ts, p), fields, q)
    ensures IsFields(ts, p, fields, q)
    decreases |ts| - p
  {
    if Check(ts, p, Newline) {
      FieldsAfter(ts, p + 1, fields, q);
    }
  }

  /** The field at `p`, and where it ends. */
  function FieldOf(ts: seq<Token>, p: nat): (Field, nat)
    requires p + 2 <= |ts| && ts[p].kind.Ident? && ts[p + 1].kind.Ident?
  {
    if HasTag(ts, p + 2) then (Field(ts[p].kind.name, ts[p + 1].kind.name, Some(ts[p + 2].kind.raw)), p + 3)
    else (Field(ts[p].kind.name, ts[p + 1].kind.name, None), p + 2)
  }

  lemma FieldNext(ts: seq<Token>, p: nat, done: seq<Field>)
    requires p + 2 <= |ts| && ts[p].kind.Ident? && ts[p + 1].kind.Ident?
    ensures var (f, e) := FieldOf(ts, p);
            e <= |ts| && FieldsLoop(ts, p, done) == FieldsLoop(ts, SkipNewlines(ts, e), done + [f])
  {
  }

  lemma {:induction false} FieldsDerived(ts: seq<Token>, p: nat, done: seq<Field>, q: nat) returns (fields: seq<Field>)
    requires p <= |ts| && FieldsLoop(ts, p, done).Ok? && FieldsLoop(ts, p, done).pos == q
    ensures p <= q <= |ts| && IsFields(ts, p, fields, q) && FieldsLoop(ts, p, done).value == done + fields
    decreases |ts| - p
  {
    if Check(ts, p, RBrace) || AtEof(ts, p) {
      fields := [];
      AppendNone(done, fields);
    } else if PeekIdent(ts, p).Some? {
      FieldNext(ts, p, done);
      var (f, e) := FieldOf(ts, p);
      var rest := FieldsDerived(ts, SkipNewlines(ts, e), done + [f], q);
      FieldsAfter(ts, e, rest, q);
      fields := [f] + rest;
      AppendFirst(done, fields);
    } else {
      fields := FieldsDerived(ts, SkipNewlines(ts, p + 1), done, q);
      FieldsAfter(ts, p + 1, fields, q);
    }
  }

  lemma {:induction false} FieldsAccepted(ts: seq<Token>, p: nat, done: seq<Field>, fields: seq<Field>, q: nat)
    requires q < |ts| && ts[q].kind == RBrace && IsFields(ts, p, fields, q)
    ensures p <= q && FieldsLoop(ts, p, done) == Ok(done + fields, q)
    decreases |ts| - p
  {
    if p >= q {
      AppendNone(done, fields);
    } else if ts[p].kind.Ident? {
      FieldNext(ts, p, done);
      var (f, e) := FieldOf(ts, p);
      assert f == fields[0];
      FieldsAccepted(ts, e, done + [f], fields[1..], q);
      FieldsAfterNewlines(ts, e, done + [f]);
      AppendFirst(done, fields);
    } else {
      FieldsAccepted(ts, p + 1, done, fields, q);
      FieldsSkipForeignOne(ts, p, done);
    }
  }

  lemma TypeTaken(ts: seq<Token>, p: nat) returns (t: TypeDef, q: nat)
    requires p <= |ts| && TypeAt(ts, p).Ok?
    ensures p + 3 <= q < |ts| && TypeAt(ts, p) == Ok(t, q + 1)
    ensures Has(ts, p, Ident("type")) && Has(ts, p + 1, Ident(t.name)) && Has(ts, p + 2, LBrace) && Has(ts, q, RBrace)
    ensures FieldsLoop(ts, SkipNewlines(ts, p + 3), []) == Ok(t.fields, q)
  {
    t, q := TypeAt(ts, p).value, TypeAt(ts, p).pos - 1;
  }

  lemma TypeGiven(ts: seq<Token>, p: nat, t: TypeDef, q: nat)
    requires Has(ts, p, Ident("type")) && Has(ts, p + 1, Ident(t.name)) && Has(ts, p + 2, LBrace) && Has(ts, q, RBrace)
    requires FieldsLoop(ts, SkipNewlines(ts, p + 3), []) == Ok(t.fields, q)
    ensures TypeAt(ts, p) == Ok(t, q + 1)
  {
  }

  lemma FieldsFromStart(ts: seq<Token>, p: nat, fields: seq<Field>, q: nat)
    requires p <= |ts| && FieldsLoop(ts, SkipNewlines(ts, p), []) == Ok(fields, q)
    ensures q <= |ts| && IsFields(ts, p, fields, q)
  {
    var all := FieldsDerived(ts, SkipNewlines(ts, p), [], q);
    FieldsAfter(ts, p, all, q);
    assert [] + all == all;
  }

  lemma TypeMade(ts: seq<Token>, p: nat, t: TypeDef, q: nat)
    requires Has(ts, p, Ident("type")) && Has(ts, p + 1, Ident(t.name)) && Has(ts, p + 2, LBrace)
    requires p + 3 <= q && Has(ts, q, RBrace) && IsFields(ts, p + 3, t.fields, q)
    ensures IsType(ts, p, t, q + 1)
  {
  }

  lemma TypeDerived(ts: seq<Token>, p: nat) returns (t: TypeDef, e: nat)
    requires p <= |ts| && TypeAt(ts, p).Ok?
    ensures TypeAt(ts, p) == Ok(t, e) && IsType(ts, p, t, e)
  {
    var q;
    t, q := TypeTaken(ts, p);
    FieldsFromStart(ts, p + 3, t.fields, q);
    TypeMade(ts, p, t, q);
    e := q + 1;
  }

  lemma TypeAccepted(ts: seq<Token>, p: nat, t: TypeDef, e: nat)
    requires IsType(ts, p, t, e)
    ensures TypeAt(ts, p) == Ok(t, e)
  {
    FieldsAccepted(ts, p + 3, [], t.fields, e - 1);
    FieldsAfterNewlines(ts, p + 3, []);
    assert [] + t.fields == t.fields;
    TypeGiven(ts, p, t, e - 1);
  }

  // -------------------------------------------------------------------- routes

  /** The path loop puts pieces together up to the first token that is none. */
  lemma {:induction false} PathDerived(ts: seq<Token>, p: nat, done: string) returns (path: string)
    requires p <= |ts|
    ensures var (all, x) := PathLoop(ts, p, done);
            all == done + path && IsPieces(ts, p, path, x) && p <= x <= |ts|
    decreases |ts| - p
  {
    if p < |ts| && PathPiece(ts[p].kind).Some? {
      var piece := PathPiece(ts[p].kind).value;
      var rest := PathDerived(ts, p + 1, done + piece);
      path := piece + rest;
      assert path[|piece|..] == rest;
    } else {
      path := "";
    }
  }

  lemma {:induction false} PathAccepted(ts: seq<Token>, p: nat, done: string, path: string, x: nat)
    requires p <= x <= |ts| && IsPieces(ts, p, path, x) && (x < |ts| ==> PathPiece(ts[x].kind).None?)
    ensures PathLoop(ts, p, done) == (done + path, x)
    decreases |ts| - p
  {
    if p < x {
      var piece := PathPiece(ts[p].kind).value;
      PathAccepted(ts, p + 1, done + piece, path[|piece|..], x);
      assert done + piece + path[|piece|..] == done + path;
    } else {
      AppendNone(done, path);
    }
  }

  lemma PathIff(ts: seq<Token>, p: nat, path: string, x: nat)
    requires p <= |ts|
    ensures PathAt(ts, p) == Ok(path, x) <==> IsPath(ts, p, path, x)
  {
    if PathAt(ts, p) == Ok(path, x) {
      var pieces := PathDerived(ts, p, "");
      assert "" + pieces == pieces;
    }
    if IsPath(ts, p, path, x) {
      PathAccepted(ts, p, "", path, x);
      assert "" + path == path;
    }
  }

  lemma RequestIff(ts: seq<Token>, p: nat, request: Option<string>, e: nat)
    requires p <= |ts|
    ensures RequestAt(ts, p) == Ok(request, e) <==> IsRequest(ts, p, request, e)
  {
  }

  lemma ResponseIff(ts: seq<Token>, p: nat, response: Option<string>, e: nat)
    requires p <= |ts|
    ensures ResponseAt(ts, p) == Ok(response, e) <==> IsResponse(ts, p, response, e)
  {
  }

  lemma BodyDerived(ts: seq<Token>, m: nat, handler: string)
    requires m <= |ts| && RouteBodyAt(ts, m, handler).Ok?
    ensures IsBody(ts, m, RouteBodyAt(ts, m, handler).value, RouteBodyAt(ts, m, handler).pos)
  {
    var (r, e) := RouteBodyAt(ts, m, handler).Extract();
    MethodInAnyCase(ts, m, r.verb);
    var (path, x) := PathAt(ts, m + 1).Extract();
    var (request, y) := RequestAt(ts, x).Extract();
    PathIff(ts, m + 1, path, x);
    RequestIff(ts, x, request, y);
    ResponseIff(ts, y, r.response, e);
    assert IsTypes(ts, x, r, e);
  }

  lemma BodyAccepted(ts: seq<Token>, m: nat, r: Route, e: nat)
    requires IsBody(ts, m, r, e)
    ensures RouteBodyAt(ts, m, r.handler) == Ok(r, e)
  {
    MethodInAnyCase(ts, m, r.verb);
    var x: nat :| IsPath(ts, m + 1, r.path, x) && IsTypes(ts, x, r, e);
    var y: nat :| x <= y <= |ts| && IsRequest(ts, x, r.request, y) && IsResponse(ts, y, r.response, e);
    PathIff(ts, m + 1, r.path, x);
    RequestIff(ts, x, r.request, y);
    ResponseIff(ts, y, r.response, e);
    BodyReads(ts, m, r, x, y, e);
  }

  lemma {:induction false} NewlinesEnd(ts: seq<Token>, p: nat, m: nat)
    requires p <= m <= |ts| && (forall k :: p <= k < m ==> ts[k].kind.Newline?) && !Check(ts, m, Newline)
    ensures SkipNewlines(ts, p) == m
    decreases m - p
  {
    if p < m {
      NewlinesEnd(ts, p + 1, m);
    }
  }

  lemma RouteDerived(ts: seq<Token>, p: nat)
    requires p <= |ts| && RouteAt(ts, p).Ok?
    ensures IsRoute(ts, p, RouteAt(ts, p).value, RouteAt(ts, p).pos)
  {
    BodyDerived(ts, SkipNewlines(ts, p + 3), ts[p + 2].kind.name);
  }

  lemma RouteGiven(ts: seq<Token>, p: nat, r: Route, e: nat)
    requires Has(ts, p, At) && Has(ts, p + 1, Ident("handler")) && Has(ts, p + 2, Ident(r.handler))
    requires RouteBodyAt(ts, SkipNewlines(ts, p + 3), r.handler) == Ok(r, e)
    ensures RouteAt(ts, p) == Ok(r, e)
  {
  }

  lemma RouteAccepted(ts: seq<Token>, p: nat, r: Route, e: nat)
    requires IsRoute(ts, p, r, e)
    ensures RouteAt(ts, p) == Ok(r, e)
  {
    var m: nat :| p + 3 <= m <= |ts| && (forall k :: p + 3 <= k < m ==> ts[k].kind.Newline?) && IsBody(ts, m, r, e);
    NewlinesEnd(ts, p + 3, m);
    BodyAccepted(ts, m, r, e);
    RouteGiven(ts, p, r, e);
  }

  lemma RouteNext(ts: seq<Token>, p: nat, done: seq<Route>, r: Route, e: nat)
    requires p < |ts| && ts[p].kind.At? && p < e <= |ts| && RouteAt(ts, p) == Ok(r, e)
    ensures RoutesLoop(ts, p, done) == RoutesLoop(ts, SkipNewlines(ts, e), done + [r])
  {
    RoutesTurn(ts, p, done);
    RouteGoesOn(ts, p, done, r, e);
  }

  lemma RouteGoesOn(ts: seq<Token>, p: nat, done: seq<Route>, r: Route, e: nat)
    requires p < |ts| && ts[p].kind.At? && p < e <= |ts| && RouteAt(ts, p) == Ok(r, e)
    ensures RouteOrSkip(ts, p, done) == RoutesLoop(ts, SkipNewlines(ts, e), done + [r])
  {
    assert RouteOrSkip(ts, p, done) == RouteThen(ts, p, done);
  }

  lemma {:induction false} RoutesAfter(ts: seq<Token>, p: nat, routes: seq<Route>, q: nat)
    requires p <= q <= |ts| && SkipNewlines(ts, p) <= q && IsRoutes(ts, SkipNewlines(ts, p), routes, q)
    ensures IsRoutes(ts, p, routes, q)
    decreases |ts| - p
  {
    if Check(ts, p, Newline) {
      RoutesAfter(ts, p + 1, routes, q);
    }
  }

  /** A route at `p`, and the rest of the loop. */
  lemma RouteTaken(ts: seq<Token>, p: nat, done: seq<Route>) returns (r: Route, e: nat)
    requires p < |ts| && ts[p].kind.At? && RoutesLoop(ts, p, done).Ok?
    ensures p < e <= |ts| && IsRoute(ts, p, r, e)
    ensures RoutesLoop(ts, p, done) == RoutesLoop(ts, SkipNewlines(ts, e), done + [r])
  {
    RoutesTurn(ts, p, done);
    assert RouteOrSkip(ts, p, done) == RouteThen(ts, p, done);
    r, e := RouteAt(ts, p).value, RouteAt(ts, p).pos;
    RouteNext(ts, p, done, r, e);
    RouteDerived(ts, p);
  }

  lemma {:induction false} RoutesDerived(ts: seq<Token>, p: nat, done: seq<Route>, q: nat) returns (routes: seq<Route>)
    requires p <= |ts| && RoutesLoop(ts, p, done).Ok? && RoutesLoop(ts, p, done).pos == q
    ensures p <= q <= |ts| && IsRoutes(ts, p, routes, q) && RoutesLoop(ts, p, done).value == done + routes
    decreases |ts| - p
  {
    if Check(ts, p, RBrace) || AtEof(ts, p) {
      routes := [];
      AppendNone(done, routes);
    } else if Check(ts, p, At) {
      var r, e := RouteTaken(ts, p, done);
      var rest := RoutesDerived(ts, SkipNewlines(ts, e), done + [r], q);
      RoutesAfter(ts, e, rest, q);
      routes := [r] + rest;
      AppendFirst(done, routes);
    } else {
      RoutesSkipForeignTurn(ts, p, done);
      routes := RoutesDerived(ts, SkipNewlines(ts, p + 1), done, q);
      RoutesAfter(ts, p + 1, routes, q);
    }
  }

  lemma {:induction false} RoutesAccepted(ts: seq<Token>, p: nat, done: seq<Route>, routes: seq<Route>, q: nat)
    requires q < |ts| && ts[q].kind == RBrace && IsRoutes(ts, p, routes, q)
    ensures p <= q && RoutesLoop(ts, p, done) == Ok(done + routes, q)
    decreases |ts| - p
  {
    if p >= q {
      AppendNone(done, routes);
    } else if ts[p].kind.At? {
      var e: nat :| p < e <= q && IsRoute(ts, p, routes[0], e) && IsRoutes(ts, e, routes[1..], q);
      RouteAccepted(ts, p, routes[0], e);
      RouteNext(ts, p, done, routes[0], e);
      RoutesAccepted(ts, e, done + [routes[0]], routes[1..], q);
      RoutesAfterNewlines(ts, e, done + [routes[0]]);
      AppendFirst(done, routes);
    } else {
      RoutesAccepted(ts, p + 1, done, routes, q);
      RoutesSkipForeignOne(ts, p, done);
    }
  }

  lemma ServiceTaken(ts: seq<Token>, p: nat) returns (s: Service, q: nat)
    requires p <= |ts| && ServiceAt(ts, p).Ok?
    ensures p + 3 <= q < |ts| && ServiceAt(ts, p) == Ok(s, q + 1)
    ensures Has(ts, p, Ident("service")) && Has(ts, p + 1, Ident(s.name)) && Has(ts, p + 2, LBrace)
    ensures Has(ts, q, RBrace) && RoutesLoop(ts, SkipNewlines(ts, p + 3), []) == Ok(s.routes, q)
  {
    s, q := ServiceAt(ts, p).value, ServiceAt(ts, p).pos - 1;
  }

  lemma ServiceGiven(ts: seq<Token>, p: nat, s: Service, q: nat)
    requires Has(ts, p, Ident("service")) && Has(ts, p + 1, Ident(s.name)) && Has(ts, p + 2, LBrace)
    requires Has(ts, q, RBrace) && RoutesLoop(ts, SkipNewlines(ts, p + 3), []) == Ok(s.routes, q)
    ensures ServiceAt(ts, p) == Ok(s, q + 1)
  {
  }

  lemma RoutesFromStart(ts: seq<Token>, p: nat, routes: seq<Route>, q: nat)
    requires p <= |ts| && RoutesLoop(ts, SkipNewlines(ts, p), []) == Ok(routes, q)
    ensures q <= |ts| && IsRoutes(ts, p, routes, q)
  {
    var all := RoutesDerived(ts, SkipNewlines(ts, p), [], q);
    RoutesAfter(ts, p, all, q);
    assert [] + all == all;
  }

  lemma ServiceMade(ts: seq<Token>, p: nat, s: Service, q: nat)
    requires Has(ts, p, Ident("service")) && Has(ts, p + 1, Ident(s.name)) && Has(ts, p + 2, LBrace)
    requires p + 3 <= q && Has(ts, q, RBrace) && IsRoutes(ts, p + 3, s.routes, q)
    ensures IsService(ts, p, s, q + 1)
  {
  }

  lemma ServiceDerived(ts: seq<Token>, p: nat) returns (s: Service, e: nat)
    requires p <= |ts| && ServiceAt(ts, p).Ok?
    ensures ServiceAt(ts, p) == Ok(s, e) && IsService(ts, p, s, e)
  {
    var q;
    s, q := ServiceTaken(ts, p);
    RoutesFromStart(ts, p + 3, s.routes, q);
    ServiceMade(ts, p, s, q);
    e := q + 1;
  }

  lemma ServiceAccepted(ts: seq<Token>, p: nat, s: Service, e: nat)
    requires IsService(ts, p, s, e)
    ensures ServiceAt(ts, p) == Ok(s, e)
  {
    RoutesAccepted(ts, p + 3, [], s.routes, e - 1);
    RoutesAfterNewlines(ts, p + 3, []);
    assert [] + s.routes == s.routes;
    ServiceGiven(ts, p, s, e - 1);
  }

  // --------------------------------------------------------------------- files

  lemma {:induction false} FileAfter(ts: seq<Token>, p: nat, ds: seq<Declaration>, q: nat)
    requires p <= q <= |ts| && SkipNewlines(ts, p) <= q && IsFile(ts, SkipNewlines(ts, p), ds, q)
    ensures IsFile(ts, p, ds, q)
    decreases |ts| - p
  {
    if Check(ts, p, Newline) {
      FileAfter(ts, p + 1, ds, q);
    }
  }

  lemma DeclarationDerived(ts: seq<Token>, p: nat, api: ApiFile) returns (d: Declaration, e: nat)
    requires p < |ts| && ts[p].kind.Ident? && FileLoop(ts, p, api).Ok?
    ensures p < e <= |ts| && IsDeclaration(ts, p, d, e)
    ensures FileLoop(ts, p, api) == FileLoop(ts, SkipNewlines(ts, e), Declared(api, d))
  {
    var word := ts[p].kind.name;
    assert FileLoop(ts, p, api) == DeclarationThen(ts, p, word, api);
    if word == "syntax" {
      d, e := SyntaxLine(SyntaxAt(ts, p).value), p + 3;
    } else if word == "info" {
      var info;
      info, e := InfoDerived(ts, p);
      d := InfoBlock(info);
    } else if word == "type" {
      var def;
      def, e := TypeDerived(ts, p);
      d := TypeBlock(def);
    } else {
      var service;
      service, e := ServiceDerived(ts, p);
      d := ServiceBlock(service);
    }
  }

  /** The keyword at `p` chooses the declaration. */
  lemma KeywordChooses(ts: seq<Token>, p: nat, api: ApiFile, word: string)
    requires Has(ts, p, Ident(word))
    ensures FileLoop(ts, p, api) == DeclarationThen(ts, p, word, api)
  {
  }

  lemma SyntaxAccepted(ts: seq<Token>, p: nat, text: string)
    requires Has(ts, p, Ident("syntax")) && Has(ts, p + 1, Eq) && Has(ts, p + 2, Str(text))
    ensures SyntaxAt(ts, p) == Ok(text, p + 3)
  {
  }

  lemma SyntaxChosen(ts: seq<Token>, p: nat, api: ApiFile, text: string, e: nat)
    requires Has(ts, p, Ident("syntax")) && SyntaxAt(ts, p) == Ok(text, e)
    ensures FileLoop(ts, p, api) == FileLoop(ts, SkipNewlines(ts, e), api.(syntax := text))
  {
    KeywordChooses(ts, p, api, "syntax");
  }

  lemma InfoChosen(ts: seq<Token>, p: nat, api: ApiFile, info: seq<(string, string)>, e: nat)
    requires Has(ts, p, Ident("info")) && InfoAt(ts, p) == Ok(info, e)
    ensures FileLoop(ts, p, api) == FileLoop(ts, SkipNewlines(ts, e), api.(info := info))
  {
    KeywordChooses(ts, p, api, "info");
  }

  lemma TypeChosen(ts: seq<Token>, p: nat, api: ApiFile, def: TypeDef, e: nat)
    requires Has(ts, p, Ident("type")) && TypeAt(ts, p) == Ok(def, e)
    ensures FileLoop(ts, p, api) == FileLoop(ts, SkipNewlines(ts, e), api.(types := api.types + [def]))
  {
    KeywordChooses(ts, p, api, "type");
  }

  lemma ServiceChosen(ts: seq<Token>, p: nat, api: ApiFile, service: Service, e: nat)
    requires Has(ts, p, Ident("service")) && ServiceAt(ts, p) == Ok(service, e)
    ensures FileLoop(ts, p, api) == FileLoop(ts, SkipNewlines(ts, e), api.(services := api.services + [service]))
  {
    KeywordChooses(ts, p, api, "service");
  }

  lemma DeclarationAccepted(ts: seq<Token>, p: nat, api: ApiFile, d: Declaration, e: nat)
    requires p < e <= |ts| && IsDeclaration(ts, p, d, e)
    ensures FileLoop(ts, p, api) == FileLoop(ts, SkipNewlines(ts, e), Declared(api, d))
  {
    match d
    case SyntaxLine(text) =>
      SyntaxAccepted(ts, p, text);
      SyntaxChosen(ts, p, api, text, e);
    case InfoBlock(info) =>
      InfoAccepted(ts, p, info, e);
      InfoChosen(ts, p, api, info, e);
    case TypeBlock(def) =>
      TypeAccepted(ts, p, def, e);
      TypeChosen(ts, p, api, def, e);
    case ServiceBlock(service) =>
      ServiceAccepted(ts, p, service, e);
      ServiceChosen(ts, p, api, service, e);
  }

  lemma {:induction false} FileDerived(ts: seq<Token>, p: nat, done: seq<Declaration>, q: nat)
    returns (ds: seq<Declaration>)
    requires p <= |ts| && FileLoop(ts, p, FileOf(done)).Ok? && FileLoop(ts, p, FileOf(done)).pos == q
    ensures p <= q <= |ts| && IsFile(ts, p, ds, q) && FileLoop(ts, p, FileOf(done)).value == FileOf(done + ds)
    decreases |ts| - p
  {
    if AtEof(ts, p) {
      ds := [];
      AppendNone(done, ds);
    } else if PeekIdent(ts, p).Some? {
      var d, e := DeclarationDerived(ts, p, FileOf(done));
      FileOfMore(done, d);
      var rest := FileDerived(ts, SkipNewlines(ts, e), done + [d], q);
      FileAfter(ts, e, rest, q);
      ds := [d] + rest;
      AppendFirst(done, ds);
    } else {
      FileTurn(ts, p, FileOf(done));
      ds := FileDerived(ts, SkipNewlines(ts, p + 1), done, q);
      FileAfter(ts, p + 1, ds, q);
    }
  }

  lemma FileTurn(ts: seq<Token>, p: nat, api: ApiFile)
    requires p < |ts| && ForeignInFile(ts[p].kind)
    ensures FileLoop(ts, p, api) == FileLoop(ts, SkipNewlines(ts, p + 1), api)
  {
    assert FileLoop(ts, p, api) == DeclarationOrSkip(ts, p, api);
  }

  lemma {:induction false} FileAccepted(
    ts: seq<Token>, p: nat, done: seq<Declaration>, ds: seq<Declaration>, q: nat)
    requires q <= |ts| && AtEof(ts, q) && IsFile(ts, p, ds, q)
    ensures p <= q && FileLoop(ts, p, FileOf(done)) == Ok(FileOf(done + ds), q)
    decreases |ts| - p
  {
    if p >= q {
      AppendNone(done, ds);
    } else if ts[p].kind.Ident? {
      var e: nat :| p < e <= q && IsDeclaration(ts, p, ds[0], e) && IsFile(ts, e, ds[1..], q);
      DeclarationAccepted(ts, p, FileOf(done), ds[0], e);
      FileOfMore(done, ds[0]);
      FileAccepted(ts, e, done + [ds[0]], ds[1..], q);
      FileAfterNewlines(ts, e, FileOf(done + [ds[0]]));
      AppendFirst(done, ds);
    } else {
      FileAccepted(ts, p + 1, done, ds, q);
      FileSkipsForeignOne(ts, p, FileOf(done));
    }
  }

  lemma SourceDerived(src: string) returns (ds: seq<Declaration>)
    requires ParseApi(src).Ok?
    ensures var ts := TokensFrom(src, 0);
            ts != [] && IsFile(ts, 0, ds, |ts| - 1) && ParseApi(src).value == FileOf(ds)
  {
    var ts := TokensFrom(src, 0);
    OneEof(src);
    WholeFileIsRead(src);
    FileAfterNewlines(ts, 0, FileOf([]));
    ds := FileDerived(ts, 0, [], |ts| - 1);
    assert [] + ds == ds;
  }

  lemma SourceAccepted(src: string, ds: seq<Declaration>)
    requires var ts := TokensFrom(src, 0); ts != [] && IsFile(ts, 0, ds, |ts| - 1)
    ensures ParseApi(src) == Ok(FileOf(ds), |TokensFrom(src, 0)| - 1)
  {
    var ts := TokensFrom(src, 0);
    OneEof(src);
    FileAfterNewlines(ts, 0, FileOf([]));
    FileAccepted(ts, 0, [], ds, |ts| - 1);
    assert [] + ds == ds;
  }

  /**
   A source is accepted exactly if its tokens up to the end of file are derived from declarations, and
   the file is then what these declare.
   */
  lemma AcceptedIff(src: string, api: ApiFile)
    ensures TokensFrom(src, 0) != []
    ensures ParseApi(src).Ok? && ParseApi(src).value == api <==>
            exists ds :: IsFile(TokensFrom(src, 0), 0, ds, |TokensFrom(src, 0)| - 1) && FileOf(ds) == api
  {
    OneEof(src);
    if ParseApi(src).Ok? {
      var ds := SourceDerived(src);
    }
    forall ds | IsFile(TokensFrom(src, 0), 0, ds, |TokensFrom(src, 0)| - 1)
      ensures ParseApi(src).Ok? && ParseApi(src).value == FileOf(ds)
    {
      SourceAccepted(src, ds);
    }
  }
}

/**
 What the parser passes over, and what it says when it gives up: tokens that do not belong where
 they stand are skipped and nothing that was read is lost; methods are read in any letter case; an
 error names the token that it was found at, and the line of that token.
 */
module ApiErrors {
  import opened Wrappers
  import opened ApiLexer
  import opened ApiLayout
  import opened ApiParser
  import opened ApiRoundTrip

  // --------------------------------------------------------------- foreign tokens

  /** A token that no pair begins with and that does not end the block. */
  predicate ForeignInInfo(kind: TokenKind) {
    !kind.Ident? && !kind.RParen? && !kind.Eof?
  }

  predicate ForeignInType(kind: TokenKind) {
    !kind.Ident? && !kind.RBrace? && !kind.Eof?
  }

  predicate ForeignInService(kind: TokenKind) {
    !kind.At? && !kind.RBrace? && !kind.Eof?
  }

  predicate ForeignInFile(kind: TokenKind) {
    !kind.Ident? && !kind.Eof?
  }

  lemma InfoAfterNewlines(ts: seq<Token>, p: nat, pairs: seq<(string, string)>)
    requires p <= |ts|
    ensures InfoLoop(ts, p, pairs) == InfoLoop(ts, SkipNewlines(ts, p), pairs)
  {
  }

  lemma InfoSkipsForeignTurn(ts: seq<Token>, p: nat, pairs: seq<(string, string)>)
    requires p < |ts| && ForeignInInfo(ts[p].kind)
    ensures InfoLoop(ts, p, pairs) == InfoLoop(ts, SkipNewlines(ts, p + 1), pairs)
  {
  }

  lemma InfoSkipsForeignOne(ts: seq<Token>, p: nat, pairs: seq<(string, string)>)
    requires p < |ts| && ForeignInInfo(ts[p].kind)
    ensures InfoLoop(ts, p, pairs) == InfoLoop(ts, p + 1, pairs)
  {
    InfoSkipsForeignTurn(ts, p, pairs);
    InfoAfterNewlines(ts, p + 1, pairs);
  }

  /** Foreign tokens between the pairs of an info block are skipped, and the pairs read so far are kept. */
  lemma {:induction false} InfoSkipsForeign(ts: seq<Token>, p: nat, q: nat, pairs: seq<(string, string)>)
    requires p <= q <= |ts| && forall k :: p <= k < q ==> ForeignInInfo(ts[k].kind)
    ensures InfoLoop(ts, p, pairs) == InfoLoop(ts, q, pairs)
    decreases q - p
  {
    if p < q {
      assert ForeignInInfo(ts[p].kind);
      InfoSkipsForeignOne(ts, p, pairs);
      InfoSkipsForeign(ts, p + 1, q, pairs);
    }
  }

  lemma FieldsAfterNewlines(ts: seq<Token>, p: nat, fields: seq<Field>)
    requires p <= |ts|
    ensures FieldsLoop(ts, p, fields) == FieldsLoop(ts, SkipNewlines(ts, p), fields)
  {
  }

  lemma FieldsSkipForeignOne(ts: seq<Token>, p: nat, fields: seq<Field>)
    requires p < |ts| && ForeignInType(ts[p].kind)
    ensures FieldsLoop(ts, p, fields) == FieldsLoop(ts, p + 1, fields)
  {
    FieldsAfterNewlines(ts, p + 1, fields);
  }

  lemma {:induction false} FieldsSkipForeign(ts: seq<Token>, p: nat, q: nat, fields: seq<Field>)
    requires p <= q <= |ts| && forall k :: p <= k < q ==> ForeignInType(ts[k].kind)
    ensures FieldsLoop(ts, p, fields) == FieldsLoop(ts, q, fields)
    decreases q - p
  {
    if p < q {
      assert ForeignInType(ts[p].kind);
      FieldsSkipForeignOne(ts, p, fields);
      FieldsSkipForeign(ts, p + 1, q, fields);
    }
  }

  lemma RoutesAfterNewlines(ts: seq<Token>, p: nat, routes: seq<Route>)
    requires p <= |ts|
    ensures RoutesLoop(ts, p, routes) == RoutesLoop(ts, SkipNewlines(ts, p), routes)
  {
    if Check(ts, p, Newline) {
      assert RoutesLoop(ts, p, routes) == RouteOrSkip(ts, p, routes);
    }
  }

  lemma RoutesTurn(ts: seq<Token>, p: nat, routes: seq<Route>)
    requires p < |ts| && !Check(ts, p, RBrace) && !AtEof(ts, p)
    ensures RoutesLoop(ts, p, routes) == RouteOrSkip(ts, p, routes)
  {
  }

  lemma NoRoute(ts: seq<Token>, p: nat, routes: seq<Route>)
    requires p < |ts| && !Check(ts, p, At) && !AtEof(ts, p)
    ensures RouteOrSkip(ts, p, routes) == RoutesLoop(ts, SkipNewlines(ts, p + 1), routes)
  {
  }

  lemma RoutesSkipForeignTurn(ts: seq<Token>, p: nat, routes: seq<Route>)
    requires p < |ts| && ForeignInService(ts[p].kind)
    ensures RoutesLoop(ts, p, routes) == RoutesLoop(ts, SkipNewlines(ts, p + 1), routes)
  {
    RoutesTurn(ts, p, routes);
    NoRoute(ts, p, routes);
  }

  lemma RoutesSkipForeignOne(ts: seq<Token>, p: nat, routes: seq<Route>)
    requires p < |ts| && ForeignInService(ts[p].kind)
    ensures RoutesLoop(ts, p, routes) == RoutesLoop(ts, p + 1, routes)
  {
    RoutesSkipForeignTurn(ts, p, routes);
    RoutesAfterNewlines(ts, p + 1, routes);
  }

  lemma {:induction false} RoutesSkipForeign(ts: seq<Token>, p: nat, q: nat, routes: seq<Route>)
    requires p <= q <= |ts| && forall k :: p <= k < q ==> ForeignInService(ts[k].kind)
    ensures RoutesLoop(ts, p, routes) == RoutesLoop(ts, q, routes)
    decreases q - p
  {
    if p < q {
      assert ForeignInService(ts[p].kind);
      RoutesSkipForeignOne(ts, p, routes);
      RoutesSkipForeign(ts, p + 1, q, routes);
    }
  }

  lemma FileAfterNewlines(ts: seq<Token>, p: nat, api: ApiFile)
    requires p <= |ts|
    ensures FileLoop(ts, p, api) == FileLoop(ts, SkipNewlines(ts, p), api)
  {
    if Check(ts, p, Newline) {
      assert FileLoop(ts, p, api) == DeclarationOrSkip(ts, p, api);
    }
  }

  lemma FileSkipsForeignOne(ts: seq<Token>, p: nat, api: ApiFile)
    requires p < |ts| && ForeignInFile(ts[p].kind)
    ensures FileLoop(ts, p, api) == FileLoop(ts, p + 1, api)
  {
    assert FileLoop(ts, p, api) == DeclarationOrSkip(ts, p, api);
    FileAfterNewlines(ts, p + 1, api);
  }

  lemma {:induction false} FileSkipsForeign(ts: seq<Token>, p: nat, q: nat, api: ApiFile)
    requires p <= q <= |ts| && forall k :: p <= k < q ==> ForeignInFile(ts[k].kind)
    ensures FileLoop(ts, p, api) == FileLoop(ts, q, api)
    decreases q - p
  {
    if p < q {
      assert ForeignInFile(ts[p].kind);
      FileSkipsForeignOne(ts, p, api);
      FileSkipsForeign(ts, p + 1, q, api);
    }
  }

  // --------------------------------------------------------------------- methods

  /** The same letter, as it is or as a capital. */
  predicate AnyCase(c: char, letter: char) {
    c == letter || (c as int) + 32 == letter as int
  }

  /** The word is the name of the method, in any letter case. */
  predicate Spells(word: string, m: Method) {
    |word| == |MethodName(m)| && forall k :: 0 <= k < |word| ==> AnyCase(word[k], MethodName(m)[k])
  }

  lemma LowerIsAnyCase(word: string, name: string)
    requires forall k :: 0 <= k < |name| ==> 'a' <= name[k] <= 'z'
    ensures Lower(word) == name <==>
            |word| == |name| && forall k :: 0 <= k < |word| ==> AnyCase(word[k], name[k])
  {
    if Lower(word) == name {
      forall k | 0 <= k < |word| ensures AnyCase(word[k], name[k]) {
        assert name[k] == LowerChar(word[k]);
      }
    } else if |word| == |name| && forall k :: 0 <= k < |word| ==> AnyCase(word[k], name[k]) {
      forall k | 0 <= k < |word| ensures Lower(word)[k] == name[k] {
        assert AnyCase(word[k], name[k]);
      }
    }
  }

  lemma NamedIff(word: string, m: Method)
    ensures MethodNamed(word) == Some(m) <==> word == MethodName(m)
  {
  }

  /** A word is read as a method exactly if it is the name of the method, in any letter case. */
  lemma MethodInAnyCase(ts: seq<Token>, p: nat, m: Method)
    requires p <= |ts|
    ensures MethodAt(ts, p) == Ok(m, p + 1) <==> p < |ts| && ts[p].kind.Ident? && Spells(ts[p].kind.name, m)
  {
    if p < |ts| && ts[p].kind.Ident? {
      LowerIsAnyCase(ts[p].kind.name, MethodName(m));
      NamedIff(Lower(ts[p].kind.name), m);
    }
  }

  // ---------------------------------------------------------------------- errors

  /** The token that was found instead, in its line, or the end of the tokens. */
  predicate Found(ts: seq<Token>, line: nat, got: Option<Token>) {
    if got.None? then line == 0 else got.value in ts && line == got.value.line
  }

  /** Some token in this line is one of those. */
  ghost predicate InLine(ts: seq<Token>, line: nat, kinds: TokenKind -> bool) {
    exists t :: t in ts && t.line == line && kinds(t.kind)
  }

  const KEYWORDS: set<string> := {"syntax", "info", "type", "service"}

  /** The error is about a token of the source, which is not what was expected there. */
  ghost predicate Located(ts: seq<Token>, e: ParseError) {
    match e
    case UnexpectedKeyword(word, line) => word !in KEYWORDS && InLine(ts, line, k => k == Ident(word))
    case ExpectedKind(kind, line, got) =>
      Found(ts, line, got) && (got.Some? ==> Discriminant(got.value.kind) != Discriminant(kind))
    case ExpectedWord(word, line, got) => Found(ts, line, got) && (got.Some? ==> got.value.kind != Ident(word))
    case ExpectedIdentifier(line, got) => Found(ts, line, got) && (got.Some? ==> !got.value.kind.Ident?)
    case ExpectedString(line, got) => Found(ts, line, got) && (got.Some? ==> !got.value.kind.Str?)
    case ExpectedBacktick(line, got) => Found(ts, line, got) && (got.Some? ==> !got.value.kind.Backtick?)
    case ExpectedPath(line) => line == 0 || InLine(ts, line, k => PathPiece(k).None?)
    case UnknownMethod(word) =>
      exists t :: t in ts && t.kind.Ident? && word == Lower(t.kind.name) && forall m :: !Spells(t.kind.name, m)
  }

  /** If it gave up, it was at a token that it names. */
  ghost predicate Explained<T>(ts: seq<Token>, r: Parsed<T>) {
    r.Err? ==> Located(ts, r.error)
  }

  lemma BasicsExplained(ts: seq<Token>, p: nat, kind: TokenKind, word: string)
    requires p <= |ts|
    ensures Explained(ts, Expect(ts, p, kind)) && Explained(ts, ExpectWord(ts, p, word))
    ensures Explained(ts, ExpectIdent(ts, p)) && Explained(ts, ExpectStr(ts, p)) && Explained(ts, TagAt(ts, p))
  {
  }

  lemma PathExplained(ts: seq<Token>, p: nat)
    requires p <= |ts|
    ensures Explained(ts, PathAt(ts, p))
  {
    var (path, q) := PathLoop(ts, p, "");
    if q < |ts| {
      assert ts[q] in ts;
    }
  }

  lemma MethodExplained(ts: seq<Token>, p: nat)
    requires p <= |ts|
    ensures Explained(ts, MethodAt(ts, p))
  {
    BasicsExplained(ts, p, At, "");
    if ExpectIdent(ts, p).Ok? && MethodAt(ts, p).Err? {
      assert ts[p] in ts;
      forall m ensures !Spells(ts[p].kind.name, m) {
        MethodInAnyCase(ts, p, m);
        NamedIff(Lower(ts[p].kind.name), m);
      }
    }
  }

  lemma SyntaxExplained(ts: seq<Token>, p: nat)
    requires p <= |ts|
    ensures Explained(ts, SyntaxAt(ts, p))
  {
    BasicsExplained(ts, p, Eq, "syntax");
    if p + 1 <= |ts| {
      BasicsExplained(ts, p + 1, Eq, "");
    }
    if p + 2 <= |ts| {
      BasicsExplained(ts, p + 2, Eq, "");
    }
  }

  lemma {:induction false} InfoLoopExplained(ts: seq<Token>, p: nat, pairs: seq<(string, string)>)
    requires p <= |ts|
    ensures Explained(ts, InfoLoop(ts, p, pairs))
    decreases |ts| - p
  {
    if Check(ts, p, RParen) || AtEof(ts, p) {
    } else if PeekIdent(ts, p).Some? {
      BasicsExplained(ts, p + 1, Colon, "");
      if Expect(ts, p + 1, Colon).Ok? {
        BasicsExplained(ts, p + 2, Colon, "");
        var read := ExpectStr(ts, p + 2);
        if read.Ok? {
          InfoLoopExplained(ts, SkipNewlines(ts, p + 3), pairs + [(PeekIdent(ts, p).value, read.value)]);
        }
      }
    } else {
      InfoLoopExplained(ts, SkipNewlines(ts, p + 1), pairs);
    }
  }

  lemma InfoExplained(ts: seq<Token>, p: nat)
    requires p <= |ts|
    ensures Explained(ts, InfoAt(ts, p))
  {
    BasicsExplained(ts, p, LParen, "info");
    if ExpectWord(ts, p, "info").Ok? {
      BasicsExplained(ts, p + 1, LParen, "");
      if Expect(ts, p + 1, LParen).Ok? {
        var q := SkipNewlines(ts, p + 2);
        InfoLoopExplained(ts, q, []);
        if InfoLoop(ts, q, []).Ok? {
          BasicsExplained(ts, InfoLoop(ts, q, []).pos, RParen, "");
        }
      }
    }
  }

  /** A field that is none explains itself; otherwise the loop goes on behind it. */
  lemma FieldExplained(ts: seq<Token>, p: nat, fields: seq<Field>) returns (q: nat, more: seq<Field>)
    requires PeekIdent(ts, p).Some?
    ensures p < q <= |ts|
    ensures var r := FieldsLoop(ts, p, fields); Explained(ts, r) || r == FieldsLoop(ts, q, more)
  {
    q, more := p + 1, fields;
    BasicsExplained(ts, p + 1, RBrace, "");
    var ty := ExpectIdent(ts, p + 1);
    if ty.Ok? {
      BasicsExplained(ts, p + 2, RBrace, "");
      var tag := TagAt(ts, p + 2);
      if tag.Ok? {
        q := SkipNewlines(ts, tag.pos);
        more := fields + [Field(PeekIdent(ts, p).value, ty.value, tag.value)];
      }
    }
  }

  lemma {:induction false} FieldsExplained(ts: seq<Token>, p: nat, fields: seq<Field>)
    requires p <= |ts|
    ensures Explained(ts, FieldsLoop(ts, p, fields))
    decreases |ts| - p
  {
    if Check(ts, p, RBrace) || AtEof(ts, p) {
    } else if PeekIdent(ts, p).Some? {
      var q, more := FieldExplained(ts, p, fields);
      FieldsExplained(ts, q, more);
    } else {
      FieldsExplained(ts, SkipNewlines(ts, p + 1), fields);
    }
  }

  lemma TypeExplained(ts: seq<Token>, p: nat)
    requires p <= |ts|
    ensures Explained(ts, TypeAt(ts, p))
  {
    BasicsExplained(ts, p, LBrace, "type");
    if ExpectWord(ts, p, "type").Ok? {
      BasicsExplained(ts, p + 1, LBrace, "");
      if ExpectIdent(ts, p + 1).Ok? {
        BasicsExplained(ts, p + 2, LBrace, "");
        if Expect(ts, p + 2, LBrace).Ok? {
          var q := SkipNewlines(ts, p + 3);
          FieldsExplained(ts, q, []);
          if FieldsLoop(ts, q, []).Ok? {
            BasicsExplained(ts, FieldsLoop(ts, q, []).pos, RBrace, "");
          }
        }
      }
    }
  }

  lemma ParenthesizedExplained(ts: seq<Token>, p: nat)
    requires p <= |ts|
    ensures Explained(ts, ParenthesizedAt(ts, p))
  {
    BasicsExplained(ts, p, LParen, "");
    if Expect(ts, p, LParen).Ok? {
      BasicsExplained(ts, p + 1, LParen, "");
      if ExpectIdent(ts, p + 1).Ok? {
        BasicsExplained(ts, p + 2, RParen, "");
      }
    }
  }

  lemma TypesExplained(ts: seq<Token>, p: nat)
    requires p <= |ts|
    ensures Explained(ts, RequestAt(ts, p)) && Explained(ts, ResponseAt(ts, p))
  {
    ParenthesizedExplained(ts, p);
    if p < |ts| {
      ParenthesizedExplained(ts, p + 1);
    }
  }

  lemma BodyExplained(ts: seq<Token>, p: nat, handler: string)
    requires p <= |ts|
    ensures Explained(ts, RouteBodyAt(ts, p, handler))
  {
    MethodExplained(ts, p);
    var verb := MethodAt(ts, p);
    if verb.Ok? {
      PathExplained(ts, verb.pos);
      var path := PathAt(ts, verb.pos);
      if path.Ok? {
        TypesExplained(ts, path.pos);
        var request := RequestAt(ts, path.pos);
        if request.Ok? {
          TypesExplained(ts, request.pos);
        }
      }
    }
  }

  lemma RouteExplained(ts: seq<Token>, p: nat)
    requires p <= |ts|
    ensures Explained(ts, RouteAt(ts, p))
  {
    BasicsExplained(ts, p, At, "");
    if Expect(ts, p, At).Ok? {
      BasicsExplained(ts, p + 1, At, "handler");
      if ExpectWord(ts, p + 1, "handler").Ok? {
        BasicsExplained(ts, p + 2, At, "");
        if ExpectIdent(ts, p + 2).Ok? {
          BodyExplained(ts, SkipNewlines(ts, p + 3), ExpectIdent(ts, p + 2).value);
        }
      }
    }
  }

  lemma {:induction false} RoutesExplained(ts: seq<Token>, p: nat, routes: seq<Route>)
    requires p <= |ts|
    ensures Explained(ts, RoutesLoop(ts, p, routes))
    decreases |ts| - p
  {
    if Check(ts, p, RBrace) || AtEof(ts, p) {
    } else if Check(ts, p, At) {
      assert RoutesLoop(ts, p, routes) == RouteThen(ts, p, routes);
      RouteExplained(ts, p);
      var route := RouteAt(ts, p);
      if route.Ok? {
        RoutesExplained(ts, SkipNewlines(ts, route.pos), routes + [route.value]);
      }
    } else {
      assert RoutesLoop(ts, p, routes) == RouteOrSkip(ts, p, routes);
      RoutesExplained(ts, SkipNewlines(ts, p + 1), routes);
    }
  }

  lemma ServiceExplained(ts: seq<Token>, p: nat)
    requires p <= |ts|
    ensures Explained(ts, ServiceAt(ts, p))
  {
    BasicsExplained(ts, p, LBrace, "service");
    if ExpectWord(ts, p, "service").Ok? {
      BasicsExplained(ts, p + 1, LBrace, "");
      if ExpectIdent(ts, p + 1).Ok? {
        BasicsExplained(ts, p + 2, LBrace, "");
        if Expect(ts, p + 2, LBrace).Ok? {
          var q := SkipNewlines(ts, p + 3);
          RoutesExplained(ts, q, []);
          if RoutesLoop(ts, q, []).Ok? {
            BasicsExplained(ts, RoutesLoop(ts, q, []).pos, RBrace, "");
          }
        }
      }
    }
  }

  /** A declaration that fails, or is none, explains itself; otherwise the loop goes on behind it. */
  lemma DeclarationExplained(ts: seq<Token>, p: nat, word: string, api: ApiFile) returns (q: nat, next: ApiFile)
    requires p < |ts| && ts[p].kind == Ident(word)
    ensures p < q <= |ts|
    ensures var r := DeclarationThen(ts, p, word, api); Explained(ts, r) || r == FileLoop(ts, q, next)
  {
    q, next := p + 1, api;
    if word == "syntax" {
      SyntaxExplained(ts, p);
      var read := SyntaxAt(ts, p);
      if read.Ok? {
        q, next := SkipNewlines(ts, read.pos), api.(syntax := read.value);
      }
    } else if word == "info" {
      InfoExplained(ts, p);
      var read := InfoAt(ts, p);
      if read.Ok? {
        q, next := SkipNewlines(ts, read.pos), api.(info := read.value);
      }
    } else if word == "type" {
      TypeExplained(ts, p);
      var read := TypeAt(ts, p);
      if read.Ok? {
        q, next := SkipNewlines(ts, read.pos), api.(types := api.types + [read.value]);
      }
    } else if word == "service" {
      ServiceExplained(ts, p);
      var read := ServiceAt(ts, p);
      if read.Ok? {
        q, next := SkipNewlines(ts, read.pos), api.(services := api.services + [read.value]);
      }
    } else {
      assert ts[p] in ts;
    }
  }

  lemma {:induction false} FileLoopExplained(ts: seq<Token>, p: nat, api: ApiFile)
    requires p <= |ts|
    ensures Explained(ts, FileLoop(ts, p, api))
    decreases |ts| - p
  {
    if AtEof(ts, p) {
    } else if PeekIdent(ts, p).Some? {
      var word := PeekIdent(ts, p).value;
      assert FileLoop(ts, p, api) == DeclarationThen(ts, p, word, api);
      var q, next := DeclarationExplained(ts, p, word, api);
      FileLoopExplained(ts, q, next);
    } else {
      assert FileLoop(ts, p, api) == DeclarationOrSkip(ts, p, api);
      FileLoopExplained(ts, SkipNewlines(ts, p + 1), api);
    }
  }

  /** Every error about a source is about a token of it that is not what was expected, in its own line. */
  lemma ErrorsAreLocated(src: string)
    requires ParseApi(src).Err?
    ensures Located(TokensFrom(src, 0), ParseApi(src).error)
  {
    FileLoopExplained(TokensFrom(src, 0), SkipNewlines(TokensFrom(src, 0), 0), EMPTY_FILE);
  }

  /** Any other word where a declaration may begin is an error, in its line. */
  lemma OtherWordsAreErrors(ts: seq<Token>, p: nat, api: ApiFile)
    requires p < |ts| && ts[p].kind.Ident? && ts[p].kind.name !in KEYWORDS
    ensures FileLoop(ts, p, api) == Err(UnexpectedKeyword(ts[p].kind.name, ts[p].line))
  {
    assert FileLoop(ts, p, api) == DeclarationThen(ts, p, ts[p].kind.name, api);
  }
}

/**
 Blank lines and comment lines. Two token lists that differ in the length of their runs of
 newlines only, and not in where there is one, are parsed to the same file, or rejected with
 the same error at another place. This holds for every token list, whatever it says.
 */
module ApiNewlines {
  import opened Wrappers
  import opened ApiLexer
  import opened ApiLayout
  import opened ApiParser

  /** One newline in place of every run of them. */
  function Squeeze(kinds: Kinds): (r: Kinds)
    ensures kinds.End? == r.End?
    ensures kinds.Then? ==> r.head == kinds.head
  {
    match kinds
    case End => End
    case Then(kind, rest) =>
      if kind.Newline? && rest.Then? && rest.head.Newline? then Squeeze(rest) else Then(kind, Squeeze(rest))
  }

  /** From `p` and from `q` on, the two lists differ in the length of their runs of newlines only. */
  predicate Same(ts: seq<Token>, p: nat, us: seq<Token>, q: nat) {
    p <= |ts| && q <= |us| && Squeeze(View(ts, p)) == Squeeze(View(us, q))
  }

  /** The same error, wherever in the source it was found. */
  predicate Alike(e: ParseError, f: ParseError) {
    match (e, f)
    case (UnexpectedKeyword(v, _), UnexpectedKeyword(w, _)) => v == w
    case (ExpectedKind(k, _, t), ExpectedKind(l, _, u)) => k == l && AlikeTokens(t, u)
    case (ExpectedWord(v, _, t), ExpectedWord(w, _, u)) => v == w && AlikeTokens(t, u)
    case (ExpectedIdentifier(_, t), ExpectedIdentifier(_, u)) => AlikeTokens(t, u)
    case (ExpectedString(_, t), ExpectedString(_, u)) => AlikeTokens(t, u)
    case (ExpectedBacktick(_, t), ExpectedBacktick(_, u)) => AlikeTokens(t, u)
    case (ExpectedPath(_), ExpectedPath(_)) => true
    case (UnknownMethod(v), UnknownMethod(w)) => v == w
    case _ => false
  }

  predicate AlikeTokens(t: Option<Token>, u: Option<Token>) {
    t.None? == u.None? && (t.Some? ==> t.value.kind == u.value.kind)
  }

  /** The two parsers did the same, and the same is left for them to read. */
  predicate Agree<T(==)>(ts: seq<Token>, r: Parsed<T>, us: seq<Token>, s: Parsed<T>) {
    match (r, s)
    case (Ok(x, p), Ok(y, q)) => x == y && Same(ts, p, us, q)
    case (Err(e), Err(f)) => Alike(e, f)
    case _ => false
  }

  // ---------------------------------------------------------------- the cursor

  lemma SameToken(ts: seq<Token>, p: nat, us: seq<Token>, q: nat)
    requires Same(ts, p, us, q)
    ensures p < |ts| <==> q < |us|
    ensures p < |ts| ==> ts[p].kind == us[q].kind
  {
    assert Squeeze(View(ts, p)).End? == (p >= |ts|);
    assert Squeeze(View(us, q)).End? == (q >= |us|);
  }

  lemma SameNext(ts: seq<Token>, p: nat, us: seq<Token>, q: nat)
    requires Same(ts, p, us, q) && p < |ts| && !ts[p].kind.Newline?
    ensures q < |us| && Same(ts, p + 1, us, q + 1)
  {
    SameToken(ts, p, us, q);
  }

  /** Skipping newlines drops the one that is left of a run. */
  lemma {:induction false} SkipSqueezed(ts: seq<Token>, p: nat)
    requires p <= |ts|
    ensures var all := Squeeze(View(ts, p));
            Squeeze(View(ts, SkipNewlines(ts, p))) == if Check(ts, p, Newline) then all.rest else all
    decreases |ts| - p
  {
    if Check(ts, p, Newline) {
      SkipSqueezed(ts, p + 1);
    }
  }

  lemma SameSkip(ts: seq<Token>, p: nat, us: seq<Token>, q: nat)
    requires Same(ts, p, us, q)
    ensures Same(ts, SkipNewlines(ts, p), us, SkipNewlines(us, q))
  {
    SameToken(ts, p, us, q);
    SkipSqueezed(ts, p);
    SkipSqueezed(us, q);
  }

  /** A token is passed over, and the newlines after it. */
  lemma SamePass(ts: seq<Token>, p: nat, us: seq<Token>, q: nat)
    requires Same(ts, p, us, q) && p < |ts|
    ensures q < |us| && Same(ts, SkipNewlines(ts, p + 1), us, SkipNewlines(us, q + 1))
  {
    SameToken(ts, p, us, q);
    if ts[p].kind.Newline? {
      SameSkip(ts, p, us, q);
      assert Check(ts, p, Newline) && Check(us, q, Newline);
    } else {
      SameNext(ts, p, us, q);
      SameSkip(ts, p + 1, us, q + 1);
    }
  }

  lemma SameExpect(ts: seq<Token>, p: nat, us: seq<Token>, q: nat, kind: TokenKind)
    requires Same(ts, p, us, q) && !kind.Newline?
    ensures Agree(ts, Expect(ts, p, kind), us, Expect(us, q, kind))
  {
    SameToken(ts, p, us, q);
    if Check(ts, p, kind) {
      SameNext(ts, p, us, q);
    }
  }

  lemma SameWord(ts: seq<Token>, p: nat, us: seq<Token>, q: nat, word: string)
    requires Same(ts, p, us, q)
    ensures Agree(ts, ExpectWord(ts, p, word), us, ExpectWord(us, q, word))
  {
    SameToken(ts, p, us, q);
    if PeekIdent(ts, p).Some? {
      SameNext(ts, p, us, q);
    }
  }

  lemma SameIdent(ts: seq<Token>, p: nat, us: seq<Token>, q: nat)
    requires Same(ts, p, us, q)
    ensures PeekIdent(ts, p) == PeekIdent(us, q)
    ensures Agree(ts, ExpectIdent(ts, p), us, ExpectIdent(us, q))
  {
    SameToken(ts, p, us, q);
    if PeekIdent(ts, p).Some? {
      SameNext(ts, p, us, q);
    }
  }

  lemma SameStr(ts: seq<Token>, p: nat, us: seq<Token>, q: nat)
    requires Same(ts, p, us, q)
    ensures Agree(ts, ExpectStr(ts, p), us, ExpectStr(us, q))
  {
    SameToken(ts, p, us, q);
    if p < |ts| && ts[p].kind.Str? {
      SameNext(ts, p, us, q);
    }
  }

  lemma SameTag(ts: seq<Token>, p: nat, us: seq<Token>, q: nat)
    requires Same(ts, p, us, q)
    ensures Agree(ts, TagAt(ts, p), us, TagAt(us, q))
  {
    SameToken(ts, p, us, q);
    if Check(ts, p, Backtick("")) {
      SameNext(ts, p, us, q);
    }
  }

  lemma {:induction false} SamePathLoop(ts: seq<Token>, p: nat, us: seq<Token>, q: nat, path: string)
    requires Same(ts, p, us, q)
    ensures var (x, a) := PathLoop(ts, p, path);
            var (y, b) := PathLoop(us, q, path);
            x == y && Same(ts, a, us, b)
    decreases |ts| - p
  {
    SameToken(ts, p, us, q);
    if p < |ts| && PathPiece(ts[p].kind).Some? {
      SameNext(ts, p, us, q);
      SamePathLoop(ts, p + 1, us, q + 1, path + PathPiece(ts[p].kind).value);
    }
  }

  // --------------------------------------------------------------- the grammar

  lemma SameSyntax(ts: seq<Token>, p: nat, us: seq<Token>, q: nat)
    requires Same(ts, p, us, q)
    ensures Agree(ts, SyntaxAt(ts, p), us, SyntaxAt(us, q))
  {
    SameWord(ts, p, us, q, "syntax");
    if ExpectWord(ts, p, "syntax").Ok? {
      SameExpect(ts, p + 1, us, q + 1, Eq);
      if Expect(ts, p + 1, Eq).Ok? {
        SameStr(ts, p + 2, us, q + 2);
      }
    }
  }

  lemma {:induction false} SameInfoLoop(ts: seq<Token>, p: nat, us: seq<Token>, q: nat, pairs: seq<(string, string)>)
    requires Same(ts, p, us, q)
    ensures Agree(ts, InfoLoop(ts, p, pairs), us, InfoLoop(us, q, pairs))
    decreases |ts| - p
  {
    SameToken(ts, p, us, q);
    if Check(ts, p, RParen) || AtEof(ts, p) {
    } else if PeekIdent(ts, p).Some? {
      SameNext(ts, p, us, q);
      SameExpect(ts, p + 1, us, q + 1, Colon);
      if Expect(ts, p + 1, Colon).Ok? {
        SameStr(ts, p + 2, us, q + 2);
        var read := ExpectStr(ts, p + 2);
        if read.Ok? {
          SameSkip(ts, p + 3, us, q + 3);
          SameInfoLoop(ts, SkipNewlines(ts, p + 3), us, SkipNewlines(us, q + 3),
                       pairs + [(PeekIdent(ts, p).value, read.value)]);
        }
      }
    } else {
      SamePass(ts, p, us, q);
      SameInfoLoop(ts, SkipNewlines(ts, p + 1), us, SkipNewlines(us, q + 1), pairs);
    }
  }

  lemma SameInfo(ts: seq<Token>, p: nat, us: seq<Token>, q: nat)
    requires Same(ts, p, us, q)
    ensures Agree(ts, InfoAt(ts, p), us, InfoAt(us, q))
  {
    SameWord(ts, p, us, q, "info");
    if ExpectWord(ts, p, "info").Ok? {
      SameExpect(ts, p + 1, us, q + 1, LParen);
      if Expect(ts, p + 1, LParen).Ok? {
        SameSkip(ts, p + 2, us, q + 2);
        var a, b := SkipNewlines(ts, p + 2), SkipNewlines(us, q + 2);
        SameInfoLoop(ts, a, us, b, []);
        if InfoLoop(ts, a, []).Ok? {
          SameExpect(ts, InfoLoop(ts, a, []).pos, us, InfoLoop(us, b, []).pos, RParen);
        }
      }
    }
  }

  lemma {:induction false} SameFieldsLoop(ts: seq<Token>, p: nat, us: seq<Token>, q: nat, fields: seq<Field>)
    requires Same(ts, p, us, q)
    ensures Agree(ts, FieldsLoop(ts, p, fields), us, FieldsLoop(us, q, fields))
    decreases |ts| - p
  {
    SameToken(ts, p, us, q);
    if Check(ts, p, RBrace) || AtEof(ts, p) {
    } else if PeekIdent(ts, p).Some? {
      SameNext(ts, p, us, q);
      SameIdent(ts, p + 1, us, q + 1);
      var ty := ExpectIdent(ts, p + 1);
      if ty.Ok? {
        SameTag(ts, p + 2, us, q + 2);
        var a, b := TagAt(ts, p + 2), TagAt(us, q + 2);
        if a.Ok? {
          SameSkip(ts, a.pos, us, b.pos);
          SameFieldsLoop(ts, SkipNewlines(ts, a.pos), us, SkipNewlines(us, b.pos),
                         fields + [Field(PeekIdent(ts, p).value, ty.value, a.value)]);
        }
      }
    } else {
      SamePass(ts, p, us, q);
      SameFieldsLoop(ts, SkipNewlines(ts, p + 1), us, SkipNewlines(us, q + 1), fields);
    }
  }

  lemma SameType(ts: seq<Token>, p: nat, us: seq<Token>, q: nat)
    requires Same(ts, p, us, q)
    ensures Agree(ts, TypeAt(ts, p), us, TypeAt(us, q))
  {
    SameWord(ts, p, us, q, "type");
    if ExpectWord(ts, p, "type").Ok? {
      SameIdent(ts, p + 1, us, q + 1);
      if ExpectIdent(ts, p + 1).Ok? {
        SameExpect(ts, p + 2, us, q + 2, LBrace);
        if Expect(ts, p + 2, LBrace).Ok? {
          SameSkip(ts, p + 3, us, q + 3);
          var a, b := SkipNewlines(ts, p + 3), SkipNewlines(us, q + 3);
          SameFieldsLoop(ts, a, us, b, []);
          if FieldsLoop(ts, a, []).Ok? {
            SameExpect(ts, FieldsLoop(ts, a, []).pos, us, FieldsLoop(us, b, []).pos, RBrace);
          }
        }
      }
    }
  }

  lemma SameParenthesized(ts: seq<Token>, p: nat, us: seq<Token>, q: nat)
    requires Same(ts, p, us, q)
    ensures Agree(ts, ParenthesizedAt(ts, p), us, ParenthesizedAt(us, q))
  {
    SameExpect(ts, p, us, q, LParen);
    if Expect(ts, p, LParen).Ok? {
      SameIdent(ts, p + 1, us, q + 1);
      if ExpectIdent(ts, p + 1).Ok? {
        SameExpect(ts, p + 2, us, q + 2, RParen);
      }
    }
  }

  /** The types of a route. */
  lemma SameTypes(ts: seq<Token>, p: nat, us: seq<Token>, q: nat)
    requires Same(ts, p, us, q)
    ensures Agree(ts, RequestAt(ts, p), us, RequestAt(us, q))
    ensures Agree(ts, ResponseAt(ts, p), us, ResponseAt(us, q))
  {
    SameToken(ts, p, us, q);
    SameParenthesized(ts, p, us, q);
    SameWord(ts, p, us, q, "returns");
    if PeekIdent(ts, p) == Some("returns") {
      SameParenthesized(ts, p + 1, us, q + 1);
    }
  }

  lemma SameBothTypes(ts: seq<Token>, p: nat, us: seq<Token>, q: nat)
    requires Same(ts, p, us, q)
    ensures var a, b := RequestAt(ts, p), RequestAt(us, q);
            Agree(ts, a, us, b) && (a.Ok? ==> Agree(ts, ResponseAt(ts, a.pos), us, ResponseAt(us, b.pos)))
  {
    SameTypes(ts, p, us, q);
    if RequestAt(ts, p).Ok? {
      SameTypes(ts, RequestAt(ts, p).pos, us, RequestAt(us, q).pos);
    }
  }

  lemma SamePath(ts: seq<Token>, p: nat, us: seq<Token>, q: nat)
    requires Same(ts, p, us, q)
    ensures Agree(ts, PathAt(ts, p), us, PathAt(us, q))
  {
    SamePathLoop(ts, p, us, q, "");
  }

  lemma SameBody(ts: seq<Token>, p: nat, us: seq<Token>, q: nat, handler: string)
    requires Same(ts, p, us, q)
    ensures Agree(ts, RouteBodyAt(ts, p, handler), us, RouteBodyAt(us, q, handler))
  {
    SameIdent(ts, p, us, q);
    if MethodAt(ts, p).Ok? {
      SamePath(ts, p + 1, us, q + 1);
      var a, b := PathAt(ts, p + 1), PathAt(us, q + 1);
      if a.Ok? {
        SameBothTypes(ts, a.pos, us, b.pos);
      }
    }
  }

  lemma SameRoute(ts: seq<Token>, p: nat, us: seq<Token>, q: nat)
    requires Same(ts, p, us, q)
    ensures Agree(ts, RouteAt(ts, p), us, RouteAt(us, q))
  {
    SameExpect(ts, p, us, q, At);
    if Expect(ts, p, At).Ok? {
      SameWord(ts, p + 1, us, q + 1, "handler");
      if ExpectWord(ts, p + 1, "handler").Ok? {
        SameIdent(ts, p + 2, us, q + 2);
        if ExpectIdent(ts, p + 2).Ok? {
          SameSkip(ts, p + 3, us, q + 3);
          SameBody(ts, SkipNewlines(ts, p + 3), us, SkipNewlines(us, q + 3), ExpectIdent(ts, p + 2).value);
        }
      }
    }
  }

  lemma RouteThenLoop(ts: seq<Token>, p: nat, routes: seq<Route>)
    requires p < |ts| && Check(ts, p, At)
    ensures var r := RouteAt(ts, p);
            RoutesLoop(ts, p, routes) ==
            if r.Ok? then RoutesLoop(ts, SkipNewlines(ts, r.pos), routes + [r.value]) else Err(r.error)
  {
    assert RoutesLoop(ts, p, routes) == RouteThen(ts, p, routes);
  }

  lemma {:induction false} SameRoutesLoop(ts: seq<Token>, p: nat, us: seq<Token>, q: nat, routes: seq<Route>)
    requires Same(ts, p, us, q)
    ensures Agree(ts, RoutesLoop(ts, p, routes), us, RoutesLoop(us, q, routes))
    decreases |ts| - p
  {
    SameToken(ts, p, us, q);
    if Check(ts, p, RBrace) || AtEof(ts, p) {
    } else if Check(ts, p, At) {
      RouteThenLoop(ts, p, routes);
      RouteThenLoop(us, q, routes);
      SameRoute(ts, p, us, q);
      var a, b := RouteAt(ts, p), RouteAt(us, q);
      if a.Ok? {
        SameSkip(ts, a.pos, us, b.pos);
        SameRoutesLoop(ts, SkipNewlines(ts, a.pos), us, SkipNewlines(us, b.pos), routes + [a.value]);
      }
    } else {
      SamePass(ts, p, us, q);
      SameRoutesLoop(ts, SkipNewlines(ts, p + 1), us, SkipNewlines(us, q + 1), routes);
    }
  }

  lemma SameService(ts: seq<Token>, p: nat, us: seq<Token>, q: nat)
    requires Same(ts, p, us, q)
    ensures Agree(ts, ServiceAt(ts, p), us, ServiceAt(us, q))
  {
    SameWord(ts, p, us, q, "service");
    if ExpectWord(ts, p, "service").Ok? {
      SameIdent(ts, p + 1, us, q + 1);
      if ExpectIdent(ts, p + 1).Ok? {
        SameExpect(ts, p + 2, us, q + 2, LBrace);
        if Expect(ts, p + 2, LBrace).Ok? {
          SameSkip(ts, p + 3, us, q + 3);
          var a, b := SkipNewlines(ts, p + 3), SkipNewlines(us, q + 3);
          SameRoutesLoop(ts, a, us, b, []);
          if RoutesLoop(ts, a, []).Ok? {
            SameExpect(ts, RoutesLoop(ts, a, []).pos, us, RoutesLoop(us, b, []).pos, RBrace);
          }
        }
      }
    }
  }

  /** What one declaration does to the file read so far, and the cursor after it. */
  function DeclarationAt(ts: seq<Token>, p: nat, word: string, api: ApiFile): (r: Parsed<ApiFile>)
    requires p <= |ts|
    ensures r.Ok? ==> p < r.pos <= |ts|
  {
    if word == "syntax" then
      var (syntax, q) :- SyntaxAt(ts, p);
      Ok(api.(syntax := syntax), q)
    else if word == "info" then
      var (info, q) :- InfoAt(ts, p);
      Ok(api.(info := info), q)
    else if word == "type" then
      var (def, q) :- TypeAt(ts, p);
      Ok(api.(types := api.types + [def]), q)
    else if word == "service" then
      var (service, q) :- ServiceAt(ts, p);
      Ok(api.(services := api.services + [service]), q)
    else
      Err(UnexpectedKeyword(word, CurrentLine(ts, p)))
  }

  lemma DeclarationThenLoop(ts: seq<Token>, p: nat, word: string, api: ApiFile)
    requires p < |ts| && PeekIdent(ts, p) == Some(word)
    ensures var r := DeclarationAt(ts, p, word, api);
            FileLoop(ts, p, api) == if r.Ok? then FileLoop(ts, SkipNewlines(ts, r.pos), r.value) else r
  {
    assert FileLoop(ts, p, api) == DeclarationThen(ts, p, word, api);
  }

  lemma SameDeclaration(ts: seq<Token>, p: nat, us: seq<Token>, q: nat, word: string, api: ApiFile)
    requires Same(ts, p, us, q)
    ensures Agree(ts, DeclarationAt(ts, p, word, api), us, DeclarationAt(us, q, word, api))
  {
    if word == "syntax" {
      SameSyntax(ts, p, us, q);
    } else if word == "info" {
      SameInfo(ts, p, us, q);
    } else if word == "type" {
      SameType(ts, p, us, q);
    } else if word == "service" {
      SameService(ts, p, us, q);
    }
  }

  lemma {:induction false} SameFileLoop(ts: seq<Token>, p: nat, us: seq<Token>, q: nat, api: ApiFile)
    requires Same(ts, p, us, q)
    ensures Agree(ts, FileLoop(ts, p, api), us, FileLoop(us, q, api))
    decreases |ts| - p
  {
    SameToken(ts, p, us, q);
    if AtEof(ts, p) {
    } else if PeekIdent(ts, p).Some? {
      var word := PeekIdent(ts, p).value;
      DeclarationThenLoop(ts, p, word, api);
      DeclarationThenLoop(us, q, word, api);
      SameDeclaration(ts, p, us, q, word, api);
      var a, b := DeclarationAt(ts, p, word, api), DeclarationAt(us, q, word, api);
      if a.Ok? {
        SameSkip(ts, a.pos, us, b.pos);
        SameFileLoop(ts, SkipNewlines(ts, a.pos), us, SkipNewlines(us, b.pos), a.value);
      }
    } else {
      SamePass(ts, p, us, q);
      SameFileLoop(ts, SkipNewlines(ts, p + 1), us, SkipNewlines(us, q + 1), api);
    }
  }

  /**
   Blank lines, comment lines and indentation mean nothing: two sources whose tokens differ in
   the length of the runs of newlines only, with or without newlines in front, are parsed alike.
   */
  lemma BlankLinesDoNotMatter(a: string, b: string)
    requires Squeeze(Then(Newline, View(TokensFrom(a, 0), 0))) == Squeeze(Then(Newline, View(TokensFrom(b, 0), 0)))
    ensures Agree(TokensFrom(a, 0), ParseApi(a), TokensFrom(b, 0), ParseApi(b))
  {
    var ts, us := TokensFrom(a, 0), TokensFrom(b, 0);
    SkipSqueezed(ts, 0);
    SkipSqueezed(us, 0);
    SameFileLoop(ts, SkipNewlines(ts, 0), us, SkipNewlines(us, 0), EMPTY_FILE);
  }
}

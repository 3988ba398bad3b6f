/**
 Files as they are written: declarations of the four kinds, in any order and any number of times,
 or not at all. The last syntax line and the last info block count, types and services add up, and
 what is left out has its default.
 */
module ApiDeclarations {
  import opened Wrappers
  import opened ApiLexer
  import opened ApiLayout
  import opened ApiParser
  import opened ApiRoundTrip

  datatype Declaration =
    | SyntaxLine(syntax: string)
    | InfoBlock(info: seq<(string, string)>)
    | TypeBlock(def: TypeDef)
    | ServiceBlock(service: Service)

  predicate WellFormedDeclaration(d: Declaration) {
    match d
    case SyntaxLine(syntax) => '"' !in syntax
    case InfoBlock(info) => forall pair :: pair in info ==> WellFormedPair(pair)
    case TypeBlock(def) => WellFormedType(def)
    case ServiceBlock(service) => WellFormedService(service)
  }

  function DeclarationTokens(d: Declaration, tail: Kinds): Kinds {
    match d
    case SyntaxLine(syntax) => SyntaxTokens(syntax, tail)
    case InfoBlock(info) => InfoTokens(info, tail)
    case TypeBlock(def) => TypeTokens(def, tail)
    case ServiceBlock(service) => ServiceTokens(service, tail)
  }

  /** The declarations one after the other, after any number of newlines. */
  function Lines(ds: seq<Declaration>): Kinds {
    Then(Newline, Each(ds, DeclarationTokens, Then(Eof, End)))
  }

  // ---------------------------------------------------------- what they declare

  /** The last syntax line, or `v1`. */
  function SyntaxOf(ds: seq<Declaration>): string {
    if ds == [] then "v1"
    else if ds[|ds| - 1].SyntaxLine? then ds[|ds| - 1].syntax
    else SyntaxOf(ds[..|ds| - 1])
  }

  /** The last info block, or nothing. */
  function InfoOf(ds: seq<Declaration>): seq<(string, string)> {
    if ds == [] then []
    else if ds[|ds| - 1].InfoBlock? then ds[|ds| - 1].info
    else InfoOf(ds[..|ds| - 1])
  }

  /** All types. */
  function TypesOf(ds: seq<Declaration>): seq<TypeDef> {
    if ds == [] then []
    else TypesOf(ds[..|ds| - 1]) + if ds[|ds| - 1].TypeBlock? then [ds[|ds| - 1].def] else []
  }

  /** All services. */
  function ServicesOf(ds: seq<Declaration>): seq<Service> {
    if ds == [] then []
    else ServicesOf(ds[..|ds| - 1]) + if ds[|ds| - 1].ServiceBlock? then [ds[|ds| - 1].service] else []
  }

  function FileOf(ds: seq<Declaration>): ApiFile {
    ApiFile(SyntaxOf(ds), InfoOf(ds), TypesOf(ds), ServicesOf(ds))
  }

  /** What one more declaration changes. */
  function Declared(api: ApiFile, d: Declaration): ApiFile {
    match d
    case SyntaxLine(syntax) => api.(syntax := syntax)
    case InfoBlock(info) => api.(info := info)
    case TypeBlock(def) => api.(types := api.types + [def])
    case ServiceBlock(service) => api.(services := api.services + [service])
  }

  lemma FileOfMore(ds: seq<Declaration>, d: Declaration)
    ensures FileOf(ds + [d]) == Declared(FileOf(ds), d)
  {
    assert (ds + [d])[..|ds|] == ds;
  }

  // -------------------------------------------------------------------- parsing

  lemma DeclarationIsRead(ts: seq<Token>, p: nat, api: ApiFile, d: Declaration, tail: Kinds) returns (q: nat)
    requires WellFormedDeclaration(d) && Fits(ts, p, DeclarationTokens(d, tail)) && StartsLine(tail)
    ensures p < q <= |ts| && Fits(ts, q, tail) && FileLoop(ts, p, api) == FileLoop(ts, q, Declared(api, d))
  {
    match d
    case SyntaxLine(syntax) =>
      SyntaxReads(ts, p, syntax, tail);
      q := DeclarationReads(ts, p, api, "syntax", Declared(api, d), p + 3, tail);
    case InfoBlock(info) =>
      var e := InfoReads(ts, p, info, tail);
      q := DeclarationReads(ts, p, api, "info", Declared(api, d), e, tail);
    case TypeBlock(def) =>
      var e := TypeReads(ts, p, def, tail);
      q := TypeIsNext(ts, p, api, def, e, tail);
    case ServiceBlock(service) =>
      var e := ServiceReads(ts, p, service, tail);
      q := ServiceIsNext(ts, p, api, service, e, tail);
  }

  lemma {:induction false} DeclarationsAreRead(
    ts: seq<Token>, p: nat, done: seq<Declaration>, ds: seq<Declaration>)
    requires forall d :: d in ds ==> WellFormedDeclaration(d)
    requires p <= |ts| && Fits(ts, p, Each(ds, DeclarationTokens, Then(Eof, End)))
    ensures FileLoop(ts, p, FileOf(done)).Ok? && FileLoop(ts, p, FileOf(done)).value == FileOf(done + ds)
    decreases |ds|
  {
    var last := Then(Eof, End);
    if ds == [] {
      Next(ts, p, Eof, End);
      AppendNone(done, ds);
    } else {
      var rest := Each(ds[1..], DeclarationTokens, last);
      EachStartsLine(ds[1..], DeclarationTokens, last);
      var q := DeclarationIsRead(ts, p, FileOf(done), ds[0], rest);
      FileOfMore(done, ds[0]);
      DeclarationsAreRead(ts, q, done + [ds[0]], ds[1..]);
      AppendFirst(done, ds);
    }
  }

  /** Whatever is declared in whatever order, the tokens are parsed to the file that it declares. */
  lemma LinesRead(ts: seq<Token>, ds: seq<Declaration>)
    requires (forall d :: d in ds ==> WellFormedDeclaration(d)) && Fits(ts, 0, Lines(ds))
    ensures FileAt(ts, 0).Ok? && FileAt(ts, 0).value == FileOf(ds)
  {
    EachStartsLine(ds, DeclarationTokens, Then(Eof, End));
    SkipBreak(ts, 0, Each(ds, DeclarationTokens, Then(Eof, End)));
    DeclarationsAreRead(ts, SkipNewlines(ts, 0), [], ds);
    assert [] + ds == ds;
  }

  // -------------------------------------------------------------------- writing

  lemma DeclarationWritable(d: Declaration, tail: Kinds)
    requires WellFormedDeclaration(d) && tail.Writable()
    ensures DeclarationTokens(d, tail).Writable()
  {
    match d
    case SyntaxLine(syntax) =>
      Prefixed(Str(syntax), Newline, tail);
      Prefixed(Ident("syntax"), Eq, Then(Str(syntax), Then(Newline, tail)));
    case InfoBlock(info) => InfoWritable(info, tail);
    case TypeBlock(def) => TypeWritable(def, tail);
    case ServiceBlock(service) => ServiceWritable(service, tail);
  }

  lemma LinesWritable(ds: seq<Declaration>)
    requires forall d :: d in ds ==> WellFormedDeclaration(d)
    ensures Lines(ds).Writable()
  {
    forall d, k: Kinds | d in ds && k.Writable() ensures DeclarationTokens(d, k).Writable() {
      DeclarationWritable(d, k);
    }
    EachWritable(ds, DeclarationTokens, Then(Eof, End));
  }

  /** And so is every text of them, in every layout. */
  lemma TextRead(ds: seq<Declaration>, kinds: Kinds, gaps: seq<string>)
    requires (forall d :: d in ds ==> WellFormedDeclaration(d)) && Loosens(kinds, Lines(ds)) && Admissible(kinds, gaps)
    ensures var read := ParseApi(Render(kinds, gaps)); read.Ok? && read.value == FileOf(ds)
  {
    var src := Render(kinds, gaps);
    LinesWritable(ds);
    LoosensWritable(kinds, Lines(ds));
    assert src[0..] == src;
    LexUndoesRender(src, 0, kinds, gaps);
    LinesRead(TokensFrom(src, 0), ds);
  }

  // ------------------------------------------------------- optional declarations

  function TypeBlocks(types: seq<TypeDef>): (ds: seq<Declaration>)
    ensures |ds| == |types| && forall i :: 0 <= i < |ds| ==> ds[i] == TypeBlock(types[i])
  {
    seq(|types|, i requires 0 <= i < |types| => TypeBlock(types[i]))
  }

  function ServiceBlocks(services: seq<Service>): (ds: seq<Declaration>)
    ensures |ds| == |services| && forall i :: 0 <= i < |ds| ==> ds[i] == ServiceBlock(services[i])
  {
    seq(|services|, i requires 0 <= i < |services| => ServiceBlock(services[i]))
  }

  /** The syntax line, unless it is that of `v1`. */
  function Top(api: ApiFile): seq<Declaration> {
    if api.syntax == "v1" then [] else [SyntaxLine(api.syntax)]
  }

  /** After it the info block, unless there is no info. */
  function Head(api: ApiFile): seq<Declaration> {
    if api.info == [] then Top(api) else Top(api) + [InfoBlock(api.info)]
  }

  /** The declarations of a file, with nothing in it that is the default. */
  function Shortest(api: ApiFile): seq<Declaration> {
    Head(api) + TypeBlocks(api.types) + ServiceBlocks(api.services)
  }

  lemma {:induction false} MoreTypes(ds: seq<Declaration>, types: seq<TypeDef>)
    ensures FileOf(ds + TypeBlocks(types)) == FileOf(ds).(types := FileOf(ds).types + types)
    decreases |types|
  {
    if types == [] {
      assert ds + TypeBlocks(types) == ds;
    } else {
      var n := |types| - 1;
      MoreTypes(ds, types[..n]);
      assert TypeBlocks(types) == TypeBlocks(types[..n]) + [TypeBlock(types[n])];
      assert ds + TypeBlocks(types) == ds + TypeBlocks(types[..n]) + [TypeBlock(types[n])];
      FileOfMore(ds + TypeBlocks(types[..n]), TypeBlock(types[n]));
      assert types[..n] + [types[n]] == types;
    }
  }

  lemma {:induction false} MoreServices(ds: seq<Declaration>, services: seq<Service>)
    ensures FileOf(ds + ServiceBlocks(services)) == FileOf(ds).(services := FileOf(ds).services + services)
    decreases |services|
  {
    if services == [] {
      assert ds + ServiceBlocks(services) == ds;
    } else {
      var n := |services| - 1;
      MoreServices(ds, services[..n]);
      assert ServiceBlocks(services) == ServiceBlocks(services[..n]) + [ServiceBlock(services[n])];
      assert ds + ServiceBlocks(services) == ds + ServiceBlocks(services[..n]) + [ServiceBlock(services[n])];
      FileOfMore(ds + ServiceBlocks(services[..n]), ServiceBlock(services[n]));
      assert services[..n] + [services[n]] == services;
    }
  }

  lemma TopIsFile(api: ApiFile)
    ensures FileOf(Top(api)) == ApiFile(api.syntax, [], [], [])
  {
    if api.syntax != "v1" {
      FileOfMore([], SyntaxLine(api.syntax));
      assert [] + [SyntaxLine(api.syntax)] == Top(api);
    }
  }

  lemma HeadIsFile(api: ApiFile)
    ensures FileOf(Head(api)) == ApiFile(api.syntax, api.info, [], [])
  {
    TopIsFile(api);
    if api.info != [] {
      FileOfMore(Top(api), InfoBlock(api.info));
    }
  }

  lemma AddTypes(ds: seq<Declaration>, api: ApiFile, types: seq<TypeDef>) returns (more: seq<Declaration>)
    requires FileOf(ds) == api && api.types == []
    ensures more == ds + TypeBlocks(types) && FileOf(more) == api.(types := types)
  {
    MoreTypes(ds, types);
    assert [] + types == types;
    more := ds + TypeBlocks(types);
  }

  lemma AddServices(ds: seq<Declaration>, api: ApiFile, services: seq<Service>) returns (more: seq<Declaration>)
    requires FileOf(ds) == api && api.services == []
    ensures more == ds + ServiceBlocks(services) && FileOf(more) == api.(services := services)
  {
    MoreServices(ds, services);
    assert [] + services == services;
    more := ds + ServiceBlocks(services);
  }

  lemma ShortestIsFile(api: ApiFile) returns (ds: seq<Declaration>)
    ensures ds == Shortest(api) && FileOf(ds) == api
  {
    HeadIsFile(api);
    ds := AddTypes(Head(api), ApiFile(api.syntax, api.info, [], []), api.types);
    ds := AddServices(ds, ApiFile(api.syntax, api.info, api.types, []), api.services);
  }

  lemma ShortestIsWellFormed(api: ApiFile)
    requires WellFormed(api)
    ensures forall d :: d in Shortest(api) ==> WellFormedDeclaration(d)
  {
    forall d | d in Shortest(api) ensures WellFormedDeclaration(d) {
      assert d in Head(api) || d in TypeBlocks(api.types) || d in ServiceBlocks(api.services);
    }
  }

  /**
   A well-formed file whose syntax is `v1` may be written without its syntax line, and one without
   info without its info block: every text of what is left is read back.
   */
  lemma DefaultsMayBeLeftOut(api: ApiFile, kinds: Kinds, gaps: seq<string>)
    requires WellFormed(api) && Loosens(kinds, Lines(Shortest(api))) && Admissible(kinds, gaps)
    ensures var read := ParseApi(Render(kinds, gaps)); read.Ok? && read.value == api
  {
    var ds := ShortestIsFile(api);
    ShortestIsWellFormed(api);
    TextRead(ds, kinds, gaps);
  }
}

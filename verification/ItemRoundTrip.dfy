/** Reading back printed items and files. */
module ItemRoundTrip {
  import opened Options
  import opened Tokens
  import opened Grammar
  import opened TypeSyntax
  import T = TypeRoundTrip
  import W = VariantRoundTrip
  import P = PatternSyntax
  import R = PatternRoundTrip
  import E = ExprRoundTrip
  import S = ExprSyntax
  import A = Ast

  const PUB := Word(Pub, "pub", 0)
  const FN := Word(Fn, "fn", 0)
  const STRUCT := Word(Struct, "struct", 0)
  const ENUM := Word(Enum, "enum", 0)
  const IMPL := Word(Impl, "impl", 0)
  const MOD := Word(Mod, "mod", 0)
  const STATIC := Word(Static, "static", 0)
  const CONST := Word(Const, "const", 0)
  const USE := Word(Use, "use", 0)
  const ARROW := Word(Arrow, "->", 0)

  // ----- Printing -----

  function PrintParam(p: A.FnParam, k: Stream): Stream {
    P.Print(p.pattern, More(COLON, PrintType(p.paramType, k)))
  }

  function PrintParams(ps: seq<A.FnParam>, k: Stream): Stream {
    if ps == [] then k
    else PrintParam(ps[0], if |ps| == 1 then k else More(COMMA, PrintParams(ps[1..], k)))
  }

  function PrintField(f: A.StructField, k: Stream): Stream {
    More(T.Name(f.name), More(COLON, PrintType(f.fieldType, k)))
  }

  function PrintStructFields(fs: seq<A.StructField>, k: Stream): Stream {
    if fs == [] then k
    else PrintField(fs[0], if |fs| == 1 then k else More(COMMA, PrintStructFields(fs[1..], k)))
  }

  function PrintVariants(vs: seq<A.EnumVariant>, k: Stream): Stream {
    if vs == [] then k
    else W.PrintVariant(vs[0], if |vs| == 1 then k else More(COMMA, PrintVariants(vs[1..], k)))
  }

  function PrintResult(t: Option<A.Type>, k: Stream): Stream {
    if t.None? then k else More(ARROW, PrintType(t.value, k))
  }

  function PrintFn(name: string, params: seq<A.FnParam>, returnType: Option<A.Type>, body: A.Block, k: Stream): Stream {
    More(FN, More(T.Name(name), More(LPAREN, PrintParams(params, More(RPAREN,
      PrintResult(returnType, S.PrintBlock(body, k)))))))
  }

  function PrintValue(name: string, t: A.Type, init: A.Expr, k: Stream): Stream {
    PrintField(A.StructField(name, t), More(S.EQ, S.Bare(init, k)))
  }

  function PrintUse(path: A.Path, alias: Option<string>, k: Stream): Stream {
    PrintPath(path, if alias.None? then More(S.SEMICOLON, k) else More(S.AS, More(T.Name(alias.value), More(S.SEMICOLON, k))))
  }

  function PrintItem(i: A.Item, k: Stream): Stream
    decreases i, 1
  {
    if i.isPub then More(PUB, PrintBare(i, k)) else PrintBare(i, k)
  }

  function PrintBare(i: A.Item, k: Stream): Stream
    decreases i, 0
  {
    match i
    case FnItem(_, name, params, returnType, body) => PrintFn(name, params, returnType, body, k)
    case StructItem(_, name, fields) =>
      More(STRUCT, More(T.Name(name), More(LBRACE, PrintStructFields(fields, More(RBRACE, k)))))
    case EnumItem(_, name, variants) =>
      More(ENUM, More(T.Name(name), More(LBRACE, PrintVariants(variants, More(RBRACE, k)))))
    case ImplItem(_, target, methods) =>
      More(IMPL, PrintType(target, More(LBRACE, PrintItems(methods, More(RBRACE, k)))))
    case ModItem(_, name, items, isInline) =>
      More(MOD, More(T.Name(name), if isInline then More(LBRACE, PrintItems(items, More(RBRACE, k)))
                                   else More(S.SEMICOLON, k)))
    case StaticItem(_, name, itemType, init) => More(STATIC, PrintValue(name, itemType, init, k))
    case ConstItem(_, name, itemType, init) => More(CONST, PrintValue(name, itemType, init, k))
    case UseItem(_, path, alias) => More(USE, PrintUse(path, alias, k))
  }

  /** Each item with a semicolon behind it, as the lexer puts one at the end of the line. */
  function PrintItems(items: seq<A.Item>, k: Stream): Stream
    decreases items, 0
  {
    if items == [] then k else PrintItem(items[0], More(S.SEMICOLON, PrintItems(items[1..], k)))
  }

  /** The items that are covered. */
  predicate IsItem(i: A.Item)
    decreases i
  {
    match i
    case FnItem(_, _, params, returnType, body) =>
      AreParams(params) && (returnType.Some? ==> IsType(returnType.value)) && S.IsBlock(body, true)
    case StructItem(_, _, fields) => AreFields(fields)
    case EnumItem(_, _, variants) => forall v <- variants :: W.IsVariant(v)
    case ImplItem(_, target, methods) =>
      IsType(target) && forall m <- methods :: m.FnItem? && !m.isPub && IsItem(m)
    case ModItem(_, _, items, isInline) => (!isInline ==> items == []) && forall m <- items :: IsItem(m)
    case StaticItem(_, _, itemType, init) => IsType(itemType) && S.IsPlain(init, true)
    case ConstItem(_, _, itemType, init) => IsType(itemType) && S.IsPlain(init, true)
    case UseItem(_, path, _) => path != []
  }

  predicate AreParams(ps: seq<A.FnParam>) {
    forall p <- ps :: P.IsPattern(p.pattern) && IsType(p.paramType)
  }

  predicate AreFields(fs: seq<A.StructField>) {
    forall f <- fs :: IsType(f.fieldType)
  }

  /** What comes after an item and cannot become part of it. */
  predicate EndsItem(k: Stream) {
    k.More? && k.head == S.SEMICOLON
  }

  // ----- Functions -----

  lemma ParamReads(p: A.FnParam, k: Stream, c: Cursor)
    requires P.IsPattern(p.pattern) && IsType(p.paramType) && c.bank == 0 && c.lit && c.ts == PrintParam(p, k)
    requires k.More? && (k.head == COMMA || k.head == RPAREN)
    ensures ParseParam(c) == Ok(p, c.(ts := k)) && !c.Check(RParen)
  {
    var typed := PrintType(p.paramType, k);
    R.PatternHead(p.pattern, More(COLON, typed));
    R.PatternReads(p.pattern, More(COLON, typed), c);
    R.Step(COLON, typed, c.(ts := More(COLON, typed)));
    T.PrintedTypeReads(p.paramType, c.(ts := typed), k);
  }

  lemma {:induction false} ParamListReads(ps: seq<A.FnParam>, before: seq<A.FnParam>, k: Stream, c: Cursor)
    requires ps != [] && AreParams(ps) && c.bank == 0 && c.lit && c.ts == PrintParams(ps, More(RPAREN, k))
    ensures ParseParamList(c, before) == Ok(before + ps, c.(ts := More(RPAREN, k))) && !c.Check(RParen)
    decreases |ps|
  {
    var close := More(RPAREN, k);
    var tail := if |ps| == 1 then close else More(COMMA, PrintParams(ps[1..], close));
    ParamReads(ps[0], tail, c);
    T.Regroup(before, ps);
    if |ps| > 1 {
      var later := PrintParams(ps[1..], close);
      R.Step(COMMA, later, c.(ts := tail));
      ParamListReads(ps[1..], before + [ps[0]], k, c.(ts := later));
    }
  }

  lemma ParamsRead(ps: seq<A.FnParam>, k: Stream, c: Cursor)
    requires AreParams(ps) && c.bank == 0 && c.lit && c.ts == PrintParams(ps, More(RPAREN, k))
    ensures ParseParams(c) == Ok(ps, c.(ts := k))
  {
    R.Step(RPAREN, k, c.(ts := More(RPAREN, k)));
    if ps != [] {
      ParamListReads(ps, [], k, c);
      assert [] + ps == ps;
    }
  }

  lemma ResultReads(t: Option<A.Type>, k: Stream, c: Cursor)
    requires (t.Some? ==> IsType(t.value)) && c.bank == 0 && c.lit && c.ts == PrintResult(t, k) && k.More? && k.head == LBRACE
    ensures ParseReturnType(c) == Ok(t, c.(ts := k))
  {
    if t.Some? {
      R.Step(ARROW, PrintType(t.value, k), c);
      T.PrintedTypeReads(t.value, Advance(c), k);
    }
  }

  lemma FnReads(i: A.Item, k: Stream, c: Cursor)
    requires i.FnItem? && IsItem(i) && c.bank == 0 && c.lit && c.ts == PrintBare(i, k)
    ensures ParseFn(c, i.isPub) == Ok(i, c.(ts := k)) && c.Check(Fn)
  {
    var block := S.PrintBlock(i.body, k);
    var result := PrintResult(i.returnType, block);
    var params := PrintParams(i.params, More(RPAREN, result));
    R.Step(FN, More(T.Name(i.name), More(LPAREN, params)), c);
    R.Step(T.Name(i.name), More(LPAREN, params), Advance(c));
    R.Step(LPAREN, params, Advance(Advance(c)));
    ParamsRead(i.params, result, c.(ts := params));
    ResultReads(i.returnType, block, c.(ts := result));
    E.BlockReads(i.body, k, c.(ts := block));
    FnStep(c, i.isPub, c.(ts := params), c.(ts := result));
  }

  lemma FnStep(c: Cursor, isPub: bool, c3: Cursor, c4: Cursor)
    requires c.Check(Fn) && Advance(c).Check(Ident) && Advance(Advance(c)).Check(LParen)
    requires c3 == Advance(Advance(Advance(c))) && ParseParams(c3).Ok? && ParseParams(c3).c == c4
    ensures ParseFn(c, isPub) == ParseFnRest(c4, isPub, Advance(c).ts.head.spelling, ParseParams(c3).value)
  {
  }

  // ----- Structs and enums -----

  lemma FieldReads(f: A.StructField, k: Stream, c: Cursor)
    requires IsType(f.fieldType) && c.bank == 0 && c.lit && c.ts == PrintField(f, k)
    requires k.More? && k.head.kind != Less && k.head.kind != ColonColon
    ensures ParseStructField(c) == Ok(f, c.(ts := k)) && !LoopEnds(c)
  {
    var typed := PrintType(f.fieldType, k);
    R.Step(T.Name(f.name), More(COLON, typed), c);
    R.Step(COLON, typed, Advance(c));
    T.PrintedTypeReads(f.fieldType, c.(ts := typed), k);
  }

  lemma {:induction false} FieldsRead(fs: seq<A.StructField>, before: seq<A.StructField>, k: Stream, c: Cursor)
    requires AreFields(fs) && c.bank == 0 && c.lit && c.ts == PrintStructFields(fs, More(RBRACE, k))
    ensures ParseStructFields(c, before) == Ok(before + fs, c.(ts := More(RBRACE, k)))
    decreases |fs|
  {
    var close := More(RBRACE, k);
    if fs == [] {
      assert before + fs == before;
    } else {
      var tail := if |fs| == 1 then close else More(COMMA, PrintStructFields(fs[1..], close));
      FieldReads(fs[0], tail, c);
      T.Regroup(before, fs);
      if |fs| > 1 {
        var later := PrintStructFields(fs[1..], close);
        R.Step(COMMA, later, c.(ts := tail));
        FieldsRead(fs[1..], before + [fs[0]], k, c.(ts := later));
      }
    }
  }

  lemma VariantReads(v: A.EnumVariant, k: Stream, c: Cursor)
    requires W.IsVariant(v) && c.bank == 0 && c.lit && c.ts == W.PrintVariant(v, k) && k.More? && k.head.kind != LParen
    ensures ParseVariant(c) == Ok(v, c.(ts := k)) && !LoopEnds(c)
  {
    W.VariantPrintsMore(v, k);
    UnfusedIsIntact(c.ts, Length(k));
    W.FusedVariantReads(v, c, k);
  }

  lemma {:induction false} VariantsRead(vs: seq<A.EnumVariant>, before: seq<A.EnumVariant>, k: Stream, c: Cursor)
    requires (forall v <- vs :: W.IsVariant(v)) && c.bank == 0 && c.lit && c.ts == PrintVariants(vs, More(RBRACE, k))
    ensures ParseVariants(c, before) == Ok(before + vs, c.(ts := More(RBRACE, k)))
    decreases |vs|
  {
    var close := More(RBRACE, k);
    if vs == [] {
      assert before + vs == before;
    } else {
      var tail := if |vs| == 1 then close else More(COMMA, PrintVariants(vs[1..], close));
      VariantReads(vs[0], tail, c);
      T.Regroup(before, vs);
      if |vs| > 1 {
        var later := PrintVariants(vs[1..], close);
        R.Step(COMMA, later, c.(ts := tail));
        VariantsRead(vs[1..], before + [vs[0]], k, c.(ts := later));
      }
    }
  }

  lemma StructReads(i: A.Item, k: Stream, c: Cursor)
    requires i.StructItem? && IsItem(i) && c.bank == 0 && c.lit && c.ts == PrintBare(i, k)
    ensures c.Check(Struct) && ParseStruct(Advance(c), i.isPub) == Ok(i, c.(ts := k))
  {
    var inside := PrintStructFields(i.fields, More(RBRACE, k));
    R.Step(STRUCT, More(T.Name(i.name), More(LBRACE, inside)), c);
    R.Step(T.Name(i.name), More(LBRACE, inside), Advance(c));
    R.Step(LBRACE, inside, Advance(Advance(c)));
    FieldsRead(i.fields, [], k, c.(ts := inside));
    assert [] + i.fields == i.fields;
    R.Step(RBRACE, k, c.(ts := More(RBRACE, k)));
  }

  lemma EnumReads(i: A.Item, k: Stream, c: Cursor)
    requires i.EnumItem? && IsItem(i) && c.bank == 0 && c.lit && c.ts == PrintBare(i, k)
    ensures c.Check(Enum) && ParseEnum(Advance(c), i.isPub) == Ok(i, c.(ts := k))
  {
    var inside := PrintVariants(i.variants, More(RBRACE, k));
    R.Step(ENUM, More(T.Name(i.name), More(LBRACE, inside)), c);
    R.Step(T.Name(i.name), More(LBRACE, inside), Advance(c));
    R.Step(LBRACE, inside, Advance(Advance(c)));
    VariantsRead(i.variants, [], k, c.(ts := inside));
    assert [] + i.variants == i.variants;
    R.Step(RBRACE, k, c.(ts := More(RBRACE, k)));
  }

  // ----- Values and uses -----

  lemma ValueReads(name: string, t: A.Type, init: A.Expr, k: Stream, c: Cursor)
    requires IsType(t) && S.IsPlain(init, true) && c.bank == 0 && c.lit && c.ts == PrintValue(name, t, init, k) && EndsItem(k)
    ensures ParseValueItem(c) == Ok((name, t, init), c.(ts := k))
  {
    var right := S.Bare(init, k);
    FieldReads(A.StructField(name, t), More(S.EQ, right), c);
    R.Step(S.EQ, right, c.(ts := More(S.EQ, right)));
    E.ExpressionRoundTrip(init, k, c.(ts := right));
  }

  lemma UseReads(i: A.Item, k: Stream, c: Cursor)
    requires i.UseItem? && i.path != [] && c.bank == 0 && c.lit && c.ts == PrintUse(i.path, i.alias, k)
    ensures ParseUse(c, i.isPub) == Ok(i, c.(ts := k))
  {
    var end := More(S.SEMICOLON, k);
    R.Step(S.SEMICOLON, k, c.(ts := end));
    if i.alias.None? {
      T.PrintedPathReads(i.path, c, end);
    } else {
      var named := More(T.Name(i.alias.value), end);
      T.PrintedPathReads(i.path, c, More(S.AS, named));
      R.Step(S.AS, named, c.(ts := More(S.AS, named)));
      R.Step(T.Name(i.alias.value), end, c.(ts := named));
    }
  }

  // ----- Items in items -----

  lemma {:induction false} ImplReads(i: A.Item, k: Stream, c: Cursor)
    requires i.ImplItem? && IsItem(i) && c.bank == 0 && c.lit && c.ts == PrintBare(i, k)
    ensures c.Check(Impl) && ParseImpl(Advance(c), i.isPub) == Ok(i, c.(ts := k))
  {
    var inside := PrintItems(i.methods, More(RBRACE, k));
    var open := More(LBRACE, inside);
    R.Step(IMPL, PrintType(i.target, open), c);
    T.PrintedTypeReads(i.target, Advance(c), open);
    R.Step(LBRACE, inside, c.(ts := open));
    MethodsRead(i.methods, [], k, c.(ts := inside));
    assert [] + i.methods == i.methods;
    R.Step(RBRACE, k, c.(ts := More(RBRACE, k)));
  }

  lemma {:induction false} MethodsRead(ms: seq<A.Item>, before: seq<A.Item>, k: Stream, c: Cursor)
    requires (forall m <- ms :: m.FnItem? && !m.isPub && IsItem(m))
    requires c.bank == 0 && c.lit && c.ts == PrintItems(ms, More(RBRACE, k))
    ensures ParseMethods(c, before) == (before + ms, c.(ts := More(RBRACE, k)))
    decreases |ms|
  {
    if ms == [] {
      assert before + ms == before;
    } else {
      var later := PrintItems(ms[1..], More(RBRACE, k));
      var next := More(S.SEMICOLON, later);
      FnReads(ms[0], next, c);
      R.Step(S.SEMICOLON, later, c.(ts := next));
      T.Regroup(before, ms);
      MethodsRead(ms[1..], before + [ms[0]], k, c.(ts := later));
      MethodStep(before, ms[0], c, c.(ts := next));
    }
  }

  lemma MethodStep(before: seq<A.Item>, m: A.Item, c: Cursor, c1: Cursor)
    requires c.Check(Fn) && ParseFn(c, false) == Ok(m, c1) && c1.Check(Semicolon)
    ensures ParseMethods(c, before) == ParseMethods(Advance(c1), before + [m])
  {
  }

  lemma {:induction false} ModReads(i: A.Item, k: Stream, c: Cursor)
    requires i.ModItem? && IsItem(i) && c.bank == 0 && c.lit && c.ts == PrintBare(i, k)
    ensures c.Check(Mod) && ParseMod(Advance(c), i.isPub) == Ok(i, c.(ts := k))
    decreases i, 0
  {
    var inside := PrintItems(i.items, More(RBRACE, k));
    var open := if i.isInline then More(LBRACE, inside) else More(S.SEMICOLON, k);
    R.Step(MOD, More(T.Name(i.name), open), c);
    R.Step(T.Name(i.name), open, Advance(c));
    if i.isInline {
      R.Step(LBRACE, inside, c.(ts := open));
      ItemsRead(i.items, true, [], More(RBRACE, k), c.(ts := inside));
      assert [] + i.items == i.items;
      R.Step(RBRACE, k, c.(ts := More(RBRACE, k)));
    } else {
      R.Step(S.SEMICOLON, k, c.(ts := open));
    }
  }

  lemma {:induction false} ItemReads(i: A.Item, k: Stream, c: Cursor)
    requires IsItem(i) && EndsItem(k) && c.bank == 0 && c.lit && c.ts == PrintItem(i, k)
    ensures ParseItem(c) == Ok(i, c.(ts := k))
    decreases i, 1
  {
    var c1 := c.(ts := PrintBare(i, k));
    PubReads(i, k, c, c1);
    if i.StaticItem? || i.ConstItem? {
      ValueItemReads(i, k, c1);
      ValueDispatch(c, i.isPub, c1);
    } else if i.FnItem? {
      FnReads(i, k, c1);
      ItemDispatch(c, i.isPub, c1);
    } else if i.ModItem? {
      ModReads(i, k, c1);
      ItemDispatch(c, i.isPub, c1);
    } else {
      FlatItemReads(i, k, c1);
      ItemDispatch(c, i.isPub, c1);
    }
  }

  lemma PubReads(i: A.Item, k: Stream, c: Cursor, c1: Cursor)
    requires c.ts == PrintItem(i, k) && c1 == c.(ts := PrintBare(i, k))
    ensures c.Check(Pub) == i.isPub && c1 == if i.isPub then Advance(c) else c
  {
    BareHead(i, k);
    if i.isPub { R.Step(PUB, c1.ts, c); }
  }

  /** The steps of the item rule. */
  lemma ItemDispatch(c: Cursor, isPub: bool, c1: Cursor)
    requires c.Check(Pub) == isPub && c1 == if isPub then Advance(c) else c
    ensures c1.Peek() == Fn ==> ParseItem(c) == ParseFn(c1, isPub)
    ensures c1.Peek() == Mod ==> ParseItem(c) == ParseMod(Advance(c1), isPub)
    ensures c1.Peek() in {Struct, Enum, Impl, Use} ==> ParseItem(c) == ParseFlatItem(c1, isPub)
  {
  }

  lemma ValueDispatch(c: Cursor, isPub: bool, c1: Cursor)
    requires c.Check(Pub) == isPub && c1 == if isPub then Advance(c) else c
    requires (c1.Peek() == Static || c1.Peek() == Const) && ParseValueItem(Advance(c1)).Ok?
    ensures var r := ParseValueItem(Advance(c1));
      ParseItem(c) == Ok(if c1.Peek() == Static then A.StaticItem(isPub, r.value.0, r.value.1, r.value.2)
                         else A.ConstItem(isPub, r.value.0, r.value.1, r.value.2), r.c)
  {
  }

  lemma FlatItemReads(i: A.Item, k: Stream, c: Cursor)
    requires (i.StructItem? || i.EnumItem? || i.ImplItem? || i.UseItem?) && IsItem(i)
    requires c.bank == 0 && c.lit && c.ts == PrintBare(i, k)
    ensures ParseFlatItem(c, i.isPub) == Ok(i, c.(ts := k)) && c.Peek() in {Struct, Enum, Impl, Use}
  {
    match i
    case StructItem(_, _, _) => StructReads(i, k, c);
    case EnumItem(_, _, _) => EnumReads(i, k, c);
    case ImplItem(_, _, _) => ImplReads(i, k, c);
    case UseItem(_, path, alias) =>
      R.Step(USE, PrintUse(path, alias, k), c);
      UseReads(i, k, Advance(c));
  }

  lemma ValueItemReads(i: A.Item, k: Stream, c: Cursor)
    requires (i.StaticItem? || i.ConstItem?) && IsItem(i) && EndsItem(k) && c.bank == 0 && c.lit && c.ts == PrintBare(i, k)
    ensures c.Check(if i.StaticItem? then Static else Const)
    ensures ParseValueItem(Advance(c)) == Ok((i.name, i.itemType, i.init), c.(ts := k))
  {
    R.Step(if i.StaticItem? then STATIC else CONST, PrintValue(i.name, i.itemType, i.init, k), c);
    ValueReads(i.name, i.itemType, i.init, k, Advance(c));
  }

  lemma BareHead(i: A.Item, k: Stream)
    ensures PrintBare(i, k).More? && PrintBare(i, k).head.kind in {Fn, Struct, Enum, Impl, Mod, Static, Const, Use}
  {
  }

  lemma ItemHead(i: A.Item, k: Stream)
    ensures PrintItem(i, k).More? && PrintItem(i, k).head.kind !in {Eof, RBrace, Semicolon}
  {
    BareHead(i, k);
  }

  /** Items up to the end of the file, or of the module around them. */
  lemma {:induction false} ItemsRead(items: seq<A.Item>, inModule: bool, before: seq<A.Item>, k: Stream, c: Cursor)
    requires (forall i <- items :: IsItem(i)) && c.bank == 0 && c.lit && c.ts == PrintItems(items, k)
    requires if inModule then k.More? && k.head == RBRACE else c.(ts := k).AtEnd()
    ensures ParseItems(c, inModule, before) == (before + items, c.(ts := k))
    decreases items, 0
  {
    if items == [] {
      assert before + items == before;
    } else {
      var later := PrintItems(items[1..], k);
      var next := More(S.SEMICOLON, later);
      ItemHead(items[0], next);
      ItemReads(items[0], next, c);
      R.Step(S.SEMICOLON, later, c.(ts := next));
      T.Regroup(before, items);
      ItemsRead(items[1..], inModule, before + [items[0]], k, c.(ts := later));
      ItemStep(inModule, before, items[0], c, c.(ts := next));
    }
  }

  lemma ItemStep(inModule: bool, before: seq<A.Item>, i: A.Item, c: Cursor, c1: Cursor)
    requires !c.AtEnd() && !c.Check(RBrace) && !c.Check(Semicolon) && ParseItem(c) == Ok(i, c1) && c1.Check(Semicolon)
    ensures ParseItems(c, inModule, before) == ParseItems(Advance(c1), inModule, before + [i])
  {
  }

  /** A printed file reads back as its items, with no diagnostics. */
  lemma FileRoundTrip(items: seq<A.Item>, tokens: TokenList)
    requires forall i <- items :: IsItem(i)
    requires ReservedAhead(tokens, 0) == 0 && Words(tokens, 0) == PrintItems(items, More(Word(Eof, "", 0), End))
    ensures ParseFile(tokens).0 == items && ParseFile(tokens).1.diags == 0
  {
    ItemsRead(items, false, [], More(Word(Eof, "", 0), End), Cursor(Words(tokens, 0), 0, true, 0));
    assert [] + items == items;
  }

  /** Different files are never printed alike. */
  lemma PrintingIsUnambiguous(items: seq<A.Item>, others: seq<A.Item>)
    requires (forall i <- items :: IsItem(i)) && (forall i <- others :: IsItem(i))
    requires PrintItems(items, End) == PrintItems(others, End)
    ensures items == others
  {
    var c := Cursor(PrintItems(items, End), 0, true, 0);
    ItemsRead(items, false, [], End, c);
    ItemsRead(others, false, [], End, c);
    assert [] + items == items && [] + others == others;
  }
}

/** From the text of a file to its items, every name spelled once in its scopes. */
module FrontEnd {
  import opened Options
  import opened Tokens
  import opened SourceNames
  import opened Scoping
  import opened Lowering
  import opened Tokenization
  import Ast
  import Spelling
  import Semicolons
  import Grammar
  import Scanning
  import WrittenText
  import ItemRoundTrip
  import ReadShapes
  import ReadNames
  import Renaming
  import Lexer
  import Parser
  import Desugar
  import NameMeaning

  // ----- The names of a parsed text are names of the text -----

  lemma {:induction false} WordsFromText(b: string, ts: seq<Token>, i: nat)
    requires ts == Spelled(b, Semicolons.LexText(b))
    ensures Grammar.FromText(Words(ts, i))
    decreases |ts| - i
  {
    if i < |ts| {
      WordsFromText(b, ts, i + 1);
      if IsPathSegment(ts[i].kind) {
        NamesComeFromSource(b, Semicolons.LexText(b)[i]);
      }
    }
  }

  lemma {:induction false} PatternLowers(p: Ast.Pattern)
    requires SourcePattern(p)
    ensures FromSourcePattern(LowerPattern(p))
    decreases p, 1
  {
    match p
    case TuplePattern(_, elements) => PatternsLower(elements);
    case StructPattern(_, fields) => FieldsLower(fields);
    case RefPattern(_, inner) => PatternLowers(inner);
    case OrPattern(first, rest) =>
      PatternLowers(first);
      PatternsLower(rest);
    case _ =>
  }

  lemma {:induction false} PatternsLower(ps: seq<Ast.Pattern>)
    requires SourcePatterns(ps)
    ensures forall q <- LowerPatterns(ps) :: FromSourcePattern(q)
    decreases ps, 0
  {
    if ps != [] {
      PatternLowers(ps[0]);
      PatternsLower(ps[1..]);
    }
  }

  lemma {:induction false} FieldsLower(fields: seq<Ast.FieldPattern>)
    requires SourceFields(fields)
    ensures forall q <- LowerFields(fields) :: FromSourcePattern(q)
    decreases fields, 0
  {
    if fields != [] {
      PatternLowers(fields[0].pattern);
      FieldsLower(fields[1..]);
    }
  }

  ghost predicate AllFromSource(ts: seq<Tree<string>>) {
    forall u <- ts :: FromSource(u)
  }

  lemma {:induction false} OptionLowers(e: Option<Ast.Expr>)
    requires SourceOption(e)
    ensures AllFromSource(LowerOptional(e))
    decreases e, 0
  {
    if e.Some? { ExprLowers(e.value); }
  }

  lemma {:induction false} ExprLowers(e: Ast.Expr)
    requires SourceExpr(e)
    ensures FromSource(LowerExpr(e))
    decreases e, 1
  {
    match e
    case PathExpr(path) =>
      if |path| == 1 {
        assert Spelling.IsWord(path[0]);
      }
    case StructExpr(_, init, baseExpr) =>
      InitsLower(init);
      OptionLowers(baseExpr);
    case TupleExpr(elements) => ExprsLower(elements);
    case UnaryExpr(_, inner) => ExprLowers(inner);
    case BorrowExpr(_, inner) => ExprLowers(inner);
    case BinaryExpr(_, lhs, rhs) =>
      ExprLowers(lhs);
      ExprLowers(rhs);
    case CastExpr(inner, _) => ExprLowers(inner);
    case CallExpr(callee, args) =>
      ExprLowers(callee);
      ExprsLower(args);
    case MethodCallExpr(receiver, _, args) =>
      ExprLowers(receiver);
      ExprsLower(args);
    case FieldExpr(receiver, _) => ExprLowers(receiver);
    case IndexExpr(receiver, index) =>
      ExprLowers(receiver);
      ExprLowers(index);
    case QuestionExpr(inner) => ExprLowers(inner);
    case IfExpr(cond, thenBlock, elseBlock) =>
      BlockLowers(thenBlock);
      CondLowers(cond, LowerBlock(thenBlock));
      if elseBlock.Some? { BlockLowers(elseBlock.value); }
    case MatchExpr(scrutinee, arms) =>
      ExprLowers(scrutinee);
      ArmsLower(arms);
    case LoopExpr(body) => BlockLowers(body);
    case WhileExpr(cond, body) =>
      BlockLowers(body);
      CondLowers(cond, LowerBlock(body));
    case BlockExpr(block) => BlockLowers(block);
    case ReturnExpr(result) => OptionLowers(result);
    case RangeExpr(start, end, _) =>
      OptionLowers(start);
      OptionLowers(end);
    case _ =>
  }

  lemma {:induction false} ExprsLower(es: seq<Ast.Expr>)
    requires SourceExprs(es)
    ensures AllFromSource(LowerExprs(es))
    decreases es, 0
  {
    if es != [] {
      ExprLowers(es[0]);
      ExprsLower(es[1..]);
    }
  }

  lemma {:induction false} InitsLower(init: seq<Ast.FieldInit>)
    requires SourceInits(init)
    ensures AllFromSource(LowerInits(init))
    decreases init, 0
  {
    if init != [] {
      ExprLowers(init[0].value);
      InitsLower(init[1..]);
    }
  }

  lemma {:induction false} CondLowers(cond: Ast.Cond, body: Tree<string>)
    requires SourceCond(cond) && FromSource(body)
    ensures AllFromSource(LowerCond(cond, body))
    decreases cond, 0
  {
    match cond
    case PatternCond(pattern, init) =>
      ExprLowers(init);
      PatternLowers(pattern);
    case ExprCond(value) => ExprLowers(value);
  }

  lemma {:induction false} ArmLowers(arm: Ast.MatchArm)
    requires SourceArm(arm)
    ensures FromSource(LowerArm(arm))
    decreases arm, 1
  {
    PatternLowers(arm.pattern);
    ExprLowers(arm.body);
  }

  lemma {:induction false} ArmsLower(arms: seq<Ast.MatchArm>)
    requires SourceArms(arms)
    ensures AllFromSource(LowerArms(arms))
    decreases arms, 0
  {
    if arms != [] {
      ArmLowers(arms[0]);
      ArmsLower(arms[1..]);
    }
  }

  lemma {:induction false} BlockLowers(b: Ast.Block)
    requires SourceBlock(b)
    ensures FromSource(LowerBlock(b))
    decreases b, 0
  {
    StmtsLower(b.statements);
    OptionLowers(b.value);
  }

  lemma {:induction false} StmtLowers(s: Ast.Stmt)
    requires SourceStmt(s)
    ensures FromSource(LowerStmt(s))
    decreases s, 1
  {
    match s
    case DeclStmt(pattern, _, init) =>
      PatternLowers(pattern);
      ExprLowers(init);
    case ReassignStmt(place, _, value) =>
      ExprLowers(place);
      ExprLowers(value);
    case ExprStmt(value) => ExprLowers(value);
  }

  lemma {:induction false} StmtsLower(ss: seq<Ast.Stmt>)
    requires SourceStmts(ss)
    ensures AllFromSource(LowerStmts(ss))
    decreases ss, 0
  {
    if ss != [] {
      StmtLowers(ss[0]);
      StmtsLower(ss[1..]);
    }
  }

  lemma {:induction false} ParamsLower(params: seq<Ast.FnParam>)
    requires SourceParams(params)
    ensures AllFromSource(LowerParams(params))
  {
    if params != [] {
      PatternLowers(params[0].pattern);
      ParamsLower(params[1..]);
    }
  }

  lemma {:induction false} ItemLowers(item: Ast.Item)
    requires SourceItem(item)
    ensures FromSource(LowerItem(item))
    decreases item, 1
  {
    match item
    case FnItem(_, _, params, _, body) =>
      ParamsLower(params);
      BlockLowers(body);
    case StaticItem(_, _, _, init) => ExprLowers(init);
    case ConstItem(_, _, _, init) => ExprLowers(init);
    case ImplItem(_, _, methods) => ItemsLower(methods);
    case ModItem(_, _, items, _) => ItemsLower(items);
    case _ =>
  }

  lemma {:induction false} ItemsLower(items: seq<Ast.Item>)
    requires SourceItems(items)
    ensures AllFromSource(LowerItems(items))
    decreases items, 0
  {
    if items != [] {
      ItemLowers(items[0]);
      ItemsLower(items[1..]);
    }
  }

  // ----- Module names stay as they are -----

  /** The same of scope trees. */
  ghost predicate WordModules(ts: seq<Tree<string>>)
    decreases ts
  {
    forall u <- ts :: WordUse(u) && (u.Group? && u.form.ModForm? ==> Spelling.IsWord(u.form.name) && WordModules(u.parts))
  }

  ghost predicate WordUse(t: Tree<string>) {
    t.Group? && t.form.UnvisitedForm? ==> SourceUse(t.form.item)
  }

  lemma {:induction false} ModulesLower(items: seq<Ast.Item>)
    ensures SourceModules(items) <==> WordModules(LowerItems(items))
    decreases items
  {
    if items != [] {
      var item, rest := items[0], items[1..];
      var t, ts := LowerItem(item), LowerItems(rest);
      ModulesLower(rest);
      if item.ModItem? {
        ModulesLower(item.items);
      }
      SplitModules(items);
      SplitTrees(t, ts);
    }
  }

  lemma SplitModules(items: seq<Ast.Item>)
    requires items != []
    ensures SourceModules(items)
      <==> (SourceUse(items[0])
            && (items[0].ModItem? ==> Spelling.IsWord(items[0].name) && SourceModules(items[0].items))
            && SourceModules(items[1..]))
  {
    assert items == [items[0]] + items[1..];
  }

  lemma SplitTrees(t: Tree<string>, ts: seq<Tree<string>>)
    ensures WordModules([t] + ts)
      <==> (WordUse(t) && (t.Group? && t.form.ModForm? ==> Spelling.IsWord(t.form.name) && WordModules(t.parts))
            && WordModules(ts))
  {
    assert t in [t] + ts;
  }

  lemma {:induction false} RenamingKeepsModules(below: seq<seq<Renaming.Binding>>, st: Renaming.State, ts: seq<Tree<string>>)
    requires WordModules(ts)
    ensures WordModules(Renaming.VisitTrees(below, st, ts).1)
    decreases ts
  {
    if ts != [] {
      var (st1, t') := Renaming.VisitTree(below, st, ts[0]);
      assert ts == [ts[0]] + ts[1..];
      SplitTrees(ts[0], ts[1..]);
      RenamingKeepsModules(below, st1, ts[1..]);
      if ts[0].Group? && ts[0].form.ModForm? {
        RenamingKeepsModules(below, st, ts[0].parts);
      }
      SplitTrees(t', Renaming.VisitTrees(below, st1, ts[1..]).1);
    }
  }

  // ----- Reading -----

  /** What a text says, before any name is changed, and the diagnostics for its syntax. */
  function Read(b: string): (r: (seq<Ast.Item>, nat)) {
    EndsInOneMark(b);
    var (items, c) := Grammar.ParseFile(Spelled(b, Semicolons.LexText(b)));
    (items, c.diags)
  }

  /** Whatever the text, and however much of it does not parse, every name in what was
      read is one that the renaming pass cannot mint. */
  lemma TextHasNoMintedNames(b: string)
    ensures FromSource(LowerProgram(Read(b).0))
  {
    NamesAreWords(b);
    ItemsLower(Read(b).0);
  }

  /** Names are words: letters, digits and underscores. */
  lemma NamesAreWords(b: string)
    ensures SourceItems(Read(b).0)
  {
    EndsInOneMark(b);
    var ts := Spelled(b, Semicolons.LexText(b));
    WordsFromText(b, ts, 0);
    ReadNames.FileIsSource(ts);
  }

  /** Renaming leaves the names of modules alone. */
  lemma ModulesAreNamed(b: string, items: seq<Ast.Item>)
    requires Renaming.Run(LowerProgram(Read(b).0)).1 == LowerProgram(items)
    ensures SourceModules(items)
  {
    var parsed := Read(b).0;
    NamesAreWords(b);
    ItemsNameModules(parsed);
    ModulesLower(parsed);
    RenamingKeepsModules([], Renaming.INITIAL, LowerItems(parsed));
    assert LowerItems(items) == Renaming.VisitTrees([], Renaming.INITIAL, LowerItems(parsed)).1;
    ModulesLower(items);
  }

  // ----- Printing what was read -----

  const END_OF_FILE := More(Word(Eof, "", 0), End)

  /** A printed file, written as text in whatever lines do not add semicolons, is read back by
      the lexer and the parser, without diagnostics. */
  lemma PrintedTextReadsBack(items: seq<Ast.Item>, l: WrittenText.Layout)
    requires forall i <- items :: ItemRoundTrip.IsItem(i)
    requires WrittenText.CanBeWritten(l) && WrittenText.WordsOf(l) == ItemRoundTrip.PrintItems(items, END_OF_FILE)
    ensures Read(WrittenText.TextOf(l)) == (items, 0)
  {
    var b := WrittenText.TextOf(l);
    EndsInOneMark(b);
    WrittenText.WrittenReadsBack(l);
    ItemRoundTrip.FileRoundTrip(items, Spelled(b, Semicolons.LexText(b)));
  }

  /** Whatever a text says, and however much of it does not parse: written out again it says
      the same, without diagnostics. */
  lemma TextReadsAgain(b: string, l: WrittenText.Layout)
    requires WrittenText.CanBeWritten(l) && WrittenText.WordsOf(l) == ItemRoundTrip.PrintItems(Read(b).0, END_OF_FILE)
    ensures Read(WrittenText.TextOf(l)) == (Read(b).0, 0)
  {
    var again := WrittenText.TextOf(l);
    EndsInOneMark(b);
    EndsInOneMark(again);
    WrittenText.WrittenReadsBack(l);
    ReadShapes.FileReadsAgain(Spelled(b, Semicolons.LexText(b)), Spelled(again, Semicolons.LexText(again)));
  }

  /** The path keywords that the renaming pass leaves alone are those of the lexer. */
  lemma KeywordsArePathKeywords(word: string)
    ensures Spelling.IsKeyword(word) <==> Scanning.WordKind(word) in {Self, Super, Package, SelfType}
  {
    Scanning.KeywordsAreSpelled(word, Self);
    Scanning.KeywordsAreSpelled(word, Super);
    Scanning.KeywordsAreSpelled(word, Package);
    Scanning.KeywordsAreSpelled(word, SelfType);
  }

  // ----- The whole way -----

  /** Lexes, parses and renames a file.  For every text: renaming reports nothing exactly
      if what was read is well bound, and then it keeps the meaning of each name, leaves
      nothing shadowed and would not change its own output.  In any case modules have names
      that module paths can be made of. */
  method LexParseFile(bytes: string) returns (items: seq<Ast.Item>, diags: nat, errors: seq<Renaming.Error>)
    ensures diags == Read(bytes).1
    ensures Desugar.IsResult(Read(bytes).0, items)
    ensures errors == [] <==> WellBound(LowerProgram(Read(bytes).0))
    ensures errors == [] ==>
      && NameFree(LowerProgram(items)) == NameFree(LowerProgram(Read(bytes).0))
      && NameMeaning.ItemsOccs(items) == NameMeaning.ItemsOccs(Read(bytes).0)
      && ShadowFree({}, {}, LowerProgram(items)) && WellBound(LowerProgram(items))
      && (forall again :: Desugar.IsResult(items, again) <==> again == items)
      && Renaming.Run(LowerProgram(items)).0.errors == []
    ensures SourceModules(items)
  {
    var lexer := new Lexer.Lexer(bytes);
    var tokens := lexer.Tokenize();
    EndsInOneMark(bytes);
    var parser := new Parser.Parser(Spelled(bytes, tokens));
    var parsed := parser.Parse();
    diags := parser.diags;
    TextHasNoMintedNames(bytes);
    items, errors := Desugar.DesugarShadowing(parsed);
    ModulesAreNamed(bytes, items);
  }
}

# The front end of the compiler, verified

This project models the parts of the compiler that decide what a program means before code
is generated, and proves what they promise.

- **Lexer** (`Scanning`, `Semicolons`, `Lexer`, `Tokenization`): the one-pass lexer with its
  own lookahead does the same as lexing first and inserting semicolons afterwards. `Symbols`,
  `Literals` and `Comments` say what is read where, and `WrittenText` that words written as text
  are read back from it.
- **Parser** (`Tokens`, `Ast`, `Grammar`, `Parser`): the recursive-descent parser, as a class
  over a token list, reads what a functional grammar reads, always ends, and always makes
  progress in recovery. `TypeSyntax`, `PatternSyntax` and `ExprSyntax` print; `TypeRoundTrip`,
  `VariantRoundTrip`, `PatternRoundTrip`, `FormSteps`, `ExprRoundTrip`, `StmtRoundTrip` and
  `ItemRoundTrip` read back what is printed, up to whole files; `ReadShapes` shows that all that is
  ever read can be printed so. `Lookahead` is about how statements are told apart, `Recovery`
  about what is skipped, `TypeBalance` about the split of `>>`, `Trailing` about what is let pass
  beyond the print.
- **The way from text** (`SourceNames`, `ReadNames`, `PrintedWords`, `FrontEnd`): the names of a
  text go through the lexer and the parser into the shadowing pass, and a printed file through
  text back to what it was.
- **Shadowing pass** (`Spelling`, `Scoping`, `Lowering`, `Renaming`, `RenamingMeaning`,
  `RenamingOnce`, `RenamingAccepts`, `RenamingExample`, `Desugar`): the renaming walk over the
  syntax tree keeps the meaning of every name. Syntax trees are lowered to scope trees (uses,
  binders, scopes and or-patterns), on which meaning is a name-free form; `LoweringKeeps` shows
  that nothing is lost, and `NameMeaning` that names mean there what they mean on the syntax tree.
- **Type table** (`TypeTable`, `ValueCycles`, `CycleCheck`, `MutRefs`, `TypeEquality`,
  `StorageBuilder`): three searches over a flat table that may be cyclic, and the builder that
  makes it.
- **Modules** (`ModuleTree`, `TreeBuilder`, `TreeMeaning`, `ModulePaths`, `Imports`,
  `ImportPaths`, `ImportResolver`): the worklist that builds the module tree, and the chase for
  re-exported names, with what each means by module paths and declared items alone.
- **Verifier of the intermediate representation** (`Ir`, `Demands`, `Faults`, `Verifier`,
  `Machine`, `Execution`): what it accepts, and that accepted code never gets stuck.
- **Packages and paths** (`Paths`, `PathMeaning`, `PathNormalizer`, `Packages`, `PackageOrder`,
  `PackageResolver`).

Code that works by changing things step by step is a class or a method with loops, each proved
against a function or a predicate; what the source promises is then proved of those.

`dafny verify dfyconfig.toml` checks everything.

Where the code and its own documentation disagree, the model follows the code. The header of the
renaming pass says that redeclaring a name in one scope is an error, but inside a later
alternative of an or-pattern it is not (`RepeatedNameInLaterAlternative`), and an or-pattern
that binds anything there is always an error (`NestedOrInLaterAlternative`). The parser takes a
comma after a split `>>` for the outer argument list (`CommaAfterPairIsTaken`), and lets half of a
`>>` leak from enum payloads, exactly when their words have more `>` than `<`
(`VariantLeavesSurplus`). A half left over elsewhere is rejected, but without a diagnostic when
another `>` follows, so that an item can vanish in silence (`StaticVanishes`). A declaration whose
pattern is a struct pattern outside parentheses is never read as one: the lookahead takes its brace
for the end of the statement (`StatementRoundTrip`). An `if` whose pattern condition ends in a
path takes an empty block for a struct literal (`PatternConditionLosesBlock`).

## Model

| member | source | states |
|---|---|---|
| `Desugar.DesugarShadowing` | src/parser/desugar.cc:482-487 | The pass over a file: it reports nothing exactly when the file is well bound; then each name of its output stands for the binding that it stands for in its input, said on the syntax trees themselves and on scope trees; no name in it is shadowed, and a second pass over it would report nothing and return the very same items. What follows the first is for names without `$`, and those of a parsed text are (`TextHasNoMintedNames`). |
| `Desugar.SecondPassReturnsTheSame` | src/parser/desugar.cc:482-487 | The items that a second pass over an accepted file's output returns are those it was given, not only the same scope tree. |
| `LoweringKeeps.ProgramKept` | src/parser/desugar.cc:129-477 | Scope trees keep all there is to a program: programs with the same scope tree are the same, so that what is proved of scope trees holds of syntax trees. |
| `FrontEnd.LexParseFile` | src/analyzer/resolve.cc:142-152 | For every text, with whatever errors in it: the file is lexed and parsed as specified, and renaming then reports nothing exactly when what was read is well bound; if so, each name stands for what it stood for in what was read, nothing is shadowed, no scope has a name twice, and renaming again would report nothing and return the very same items. Modules have names of letters, digits and underscores. |
| `NameMeaning.ProgramMeans` | src/parser/desugar.cc:129-477 | The name-free form of a program carries exactly the references that the syntax tree gives its binders and single-segment paths, in the order in which they take effect. Those are defined without scope trees: an initializer is read before the names it is bound to exist, a pattern condition's names are seen in its block alone, an arm's in its body, a block's in what follows and in its value, and functions see nothing of each other. |
| `NameMeaning.StmtMeans` | src/parser/desugar.cc:197-219 | The uses in an initializer have the meaning that they would have before the statement; what comes after it sees the names it declares. |
| `NameMeaning.CondMeans` | src/parser/desugar.cc:313-324 | The initializer of a pattern condition does not see the names of the pattern; what the condition guards does, and nothing after it. |
| `NameMeaning.UseIsInnermost` | src/parser/desugar.cc:66-78 | A use refers to a binding exactly if that is the first of its name in the innermost scope that has one; it is free exactly if no scope has one or it is a path keyword. |
| `NameMeaning.BinderIsFound` | src/parser/desugar.cc:93-127 | A binder stands for the binding that a use of its name right behind it refers to. |
| `RenamingExample.FirstKeepsItsName` | src/parser/desugar.cc:80-127 | A run on `{ x := ..; { x := ..; x }; { x := ..; x } }`, whatever stands around the names: the outer `x` stays, the inner ones become `x$0` and `x$1`. |
| `FrontEnd.KeywordsArePathKeywords` | src/parser/desugar.cc:66-78 | The names that the pass leaves alone are exactly the words that the lexer takes for path keywords. |
| `FrontEnd.TextHasNoMintedNames` | src/lexer/lexer.cc:37-39 | Every name that the renaming pass meets in what was read from a text, through all rules and recoveries of the parser, is spelled without `$`. |
| `FrontEnd.WordsFromText` | src/lexer/lexer.cc:346-356 | Every name among the words that the parser gets from a text is made of letters, digits and underscores. |
| `RenamingMeaning.RunKeepsMeaning` | src/parser/desugar.cc:66-127 | On every program that is accepted, each single-segment path resolves to the same binder, or stays free, before and after renaming: the two programs have the same name-free form. |
| `RenamingMeaning.TreeKeepsMeaning` | src/parser/desugar.cc:183-477 | The same for any part of a program under any stack of scopes: the references after the visit resolve through the new spellings to what they resolved to through the old ones, and every scope stays sound. |
| `RenamingMeaning.PatternKeepsMeaning` | src/parser/desugar.cc:221-311 | A visited pattern introduces, under the new spellings, the binders it introduced before, in the same order, and its scope stays sound; or-patterns included. |
| `RenamingMeaning.OrKeepsMeaning` | src/parser/desugar.cc:261-311 | An or-pattern without errors keeps its meaning: the first alternative makes the spellings, all others reuse them, and they merge into the current scope. |
| `RenamingMeaning.LookupKeepsMeaning` | src/parser/desugar.cc:66-78 | Innermost-scope lookup of the new spelling finds the binder that lookup of the old one finds. |
| `RenamingMeaning.DeclareKeepsMeaning` | src/parser/desugar.cc:93-127 | A name declared under the spelling that the pass chooses is found again at the place it was put, and hides nothing else. |
| `RenamingMeaning.NewSpelling` | src/parser/desugar.cc:80-86 | The spelling chosen for a name not yet in the innermost scope differs from all spellings on the stack. |
| `Spelling.MintedInjective` | src/parser/desugar.cc:80-86 | Two minted spellings agree only when both the name and the number agree. |
| `RenamingOnce.RunIsIdempotent` | src/parser/desugar.cc:80-127 | On the output of a run without errors, the pass reports nothing and changes nothing. |
| `RenamingOnce.RunRemovesShadowing` | src/parser/desugar.cc:261-311 | After a run without errors no binder spells a name of an enclosing scope, nor one that its own scope has already: all spellings that are live at one place are pairwise distinct, those that the alternatives of an or-pattern share counted once. |
| `RenamingAccepts.AcceptedExactlyWhenWellBound` | src/parser/desugar.cc:93-127 | A run reports nothing exactly when no scope declares a name twice and the alternatives of each or-pattern bind the names of the first, with no or-pattern that binds anything inside a later alternative. |
| `RenamingAccepts.PatternIsJudged` | src/parser/desugar.cc:221-311 | A pattern visit reports nothing exactly when the pattern is well bound and its names are new to the scope; the scope then holds its names as well. |
| `RenamingAccepts.PatternBorrows` | src/parser/desugar.cc:97-101 | Inside a later alternative a visit reports nothing and keeps the size of the scope exactly when its names are those of the first alternative and no or-pattern inside it binds anything. |
| `RenamingAccepts.RepeatedNameInLaterAlternative` | src/parser/desugar.cc:97-101 | A run reports `(x, x)` and accepts `(x, _) \| (x, x)`: a name that a later alternative repeats is not reported. |
| `RenamingAccepts.NestedOrInLaterAlternative` | src/parser/desugar.cc:277-309 | A run accepts `x \| x` and reports `x \| (x \| x)`, though each alternative binds the same name: merging the inner or-pattern makes the scope grow. |
| `Desugar.Pass.LookupName` | src/parser/desugar.cc:66-78 | Finds the spelling of the innermost binding, or gives the name back. |
| `Desugar.Pass.FindInnermost` | src/parser/desugar.cc:57-64 | The first binding of the name in the innermost scope, or none. |
| `Desugar.Pass.DeclareNamed` | src/parser/desugar.cc:93-127 | Does to the scopes, the counter and the errors, and gives the spelling, that the specification of a declaration says. |
| `Desugar.Pass.VisitPattern` | src/parser/desugar.cc:221-259 | Rewrites a pattern in one walk, as the specification on scope trees says of the pattern it stands for. |
| `Desugar.Pass.VisitOr` | src/parser/desugar.cc:261-311 | Rewrites an or-pattern: the first alternative in a scope of its own, the others on its preseeded bindings, and the merge, as specified. |
| `Desugar.Pass.MergeNames` | src/parser/desugar.cc:294-310 | Moves the names of the first alternative into the current scope, reporting those that clash. |
| `Desugar.Pass.VisitCond` | src/parser/desugar.cc:313-324 | A condition's initializer is visited outside the scope that its pattern opens. |
| `Desugar.Pass.VisitExpr` | src/parser/desugar.cc:326-477 | Rewrites an expression of any form, with the state and the errors that are specified for its scope tree. |
| `Desugar.Pass.VisitBlock` | src/parser/desugar.cc:183-195 | A block is visited in a scope of its own, which is gone after it. |
| `Desugar.Pass.VisitStmt` | src/parser/desugar.cc:197-219 | Initializers are visited before the bindings they introduce. |
| `Desugar.Pass.VisitItem` | src/parser/desugar.cc:137-181 | Functions, statics and constants are visited in a scope of their own; implementations and modules item by item. |
| `Desugar.Pass.VisitItems` | src/parser/desugar.cc:129-135 | A run over the items is the specified run over the scope trees they stand for. |
| `Parser.Parser.Parse` | src/parser/parser.cc:261-275 | Terminates on every token list whose only end-of-file token is last, at that token, with the items and the diagnostics count that the grammar gives. |
| `Grammar.ParseFile` | src/parser/parser.cc:261-275 | The grammar of a file always ends at the end of the tokens; every rule of it terminates because the tokens left, and then the place in the grammar, decrease. |
| `Grammar.Synchronize` | src/parser/parser.cc:189-222 | Recovery gives no tokens back and consumes one unless it is at the end. |
| `Grammar.ParseBinary` | src/parser/parser.cc:1196-1423 | No rung of the ladder gives tokens back, and success consumes some. |
| `Recovery.RecoveryTakesJunk` | src/parser/parser.cc:189-222 | Recovery goes over any words and bracketed groups, whatever is inside those, up to the first boundary outside them; it takes a `;` or `,` and leaves a closing bracket, unless that comes first. |
| `Recovery.BlockLosesOnlyBad` | src/parser/parser.cc:1974-2013 | A block with a statement in it that cannot begin is read as the block without, whatever balanced words the bad statement has up to its `;`, and with one diagnostic. |
| `Recovery.StatementIsKept` | src/parser/parser.cc:1974-2013 | A statement with balanced words behind it that do not belong there is kept; the words are reported once and skipped. |
| `Recovery.OpenBlockIsReported` | src/parser/parser.cc:161-178 | A block whose brace is missing at the end of the file is reported. |
| `Recovery.ReservedWordsAreReported` | src/parser/parser.cc:121-141 | Whatever else is wrong with a file, each reserved word in it is reported: a file without diagnostics has none. |
| `ExprRoundTrip.ExpressionRoundTrip` | src/parser/parser.cc:1139-1753 | Printing an expression of any form, control forms, blocks and struct literals included, with only the parentheses that the ladder and the lookahead need, and reading it back gives the same expression, no diagnostics, and the cursor just past the print, when what follows cannot extend it and may stand behind a bare `ret` or an open range. |
| `ExprRoundTrip.PrintingIsUnambiguous` | src/parser/parser.cc:1139-1753 | Different expressions are never printed alike. |
| `ExprRoundTrip.PrintedReads` | src/parser/parser.cc:1196-1507 | What is printed for a rung reads back on that rung, if what follows extends nothing on that rung or a tighter one. |
| `ExprRoundTrip.SpineReads` | src/parser/parser.cc:1196-1423 | On a left-associative rung, reading a printed expression is like having it as the left operand already. |
| `ExprRoundTrip.ComparisonReads` | src/parser/parser.cc:1240-1268 | Comparisons do not chain: both operands are read one rung up. |
| `ExprRoundTrip.PowReads` | src/parser/parser.cc:1425-1445 | The power operator is right associative. |
| `ExprRoundTrip.CastReads` | src/parser/parser.cc:1447-1467 | A printed cast reads back; its target ends where it was printed to end. |
| `ExprRoundTrip.UnaryReads` | src/parser/parser.cc:1469-1507 | Printed unary operators and borrows read back. |
| `ExprRoundTrip.IfReads` | src/parser/parser.cc:1844-1870 | A printed `if` reads back with its condition, its block and its `else` block, each in its place. |
| `ExprRoundTrip.CondReads` | src/parser/parser.cc:1805-1842 | A printed condition in front of a block reads back: as a declaration if it is one, else with struct literals off. |
| `ExprRoundTrip.WhileReads` | src/parser/parser.cc:1940-1959 | A printed `while` reads back with its condition and its body. |
| `ExprRoundTrip.MatchReads` | src/parser/parser.cc:1872-1923 | A printed `match` reads back with its arms in order. |
| `ExprRoundTrip.StructReads` | src/parser/parser.cc:1754-1798 | A printed struct literal reads back with its fields in order and its base. |
| `ExprRoundTrip.RangeReads` | src/parser/parser.cc:1143-1194 | A printed range reads back with its bounds and its kind; one without an end needs a boundary behind it. |
| `ExprRoundTrip.ReturnReads` | src/parser/parser.cc:1688-1702 | A printed `ret` takes the whole expression behind it, or none in front of a `;` or a `}`. |
| `ExprRoundTrip.PostfixReads` | src/parser/parser.cc:1509-1613 | Reading a printed primary or postfix form is like having it as the receiver already, whatever comes next; a call of a named field needs parentheses. |
| `TypeRoundTrip.FusedTypeReads` | src/parser/parser.cc:682-697 | However closing `>` words of a printed type are fused into `>>`, it reads back as the type, with the bank empty and the cursor just past it, exactly if no pair stands right before a comma and none takes a `>` from after the type. |
| `TypeRoundTrip.DanglingHalfIsRejected` | src/parser/parser.cc:876-887 | If the only harm is that the last `>` of the type was fused with one after it, the rule fails on the half that dangles; one more `>` is then consumed without a diagnostic, and anything else is reported. |
| `TypeBalance.ClosedExactlyWhenBalanced` | src/parser/parser.cc:876-887 | A type that is read is accepted as a closed one exactly if its words, with what was banked before, have as many `>` as `<`; otherwise it is rejected, and that is reported exactly if no `>` is next, reserved words behind that `>` aside. |
| `TypeBalance.SilentRejection` | src/parser/parser.cc:881-884 | `x<y>> >` is no type, and nothing is reported. |
| `TypeBalance.StaticVanishes` | src/parser/parser.cc:189-222 | `static a: x<y>> > = 1;` gives no item and no diagnostic. |
| `TypeRoundTrip.PrintedTypeReads` | src/parser/parser.cc:699-887 | A printed type reads back as itself with no diagnostics. |
| `TypeRoundTrip.TypeReads` | src/parser/parser.cc:699-874 | For a type inside another: it is read and ends with the bank empty, or with half of a pair that stands for the next `>`; or else a pair stands before a comma, and another type is read, or none, or words after it are taken. |
| `TypeRoundTrip.ArgsRead` | src/parser/parser.cc:844-865 | Type arguments are read up to the `>` that closes them, unless that is banked with a comma next: then the list takes the comma as its own. |
| `TypeRoundTrip.TupleStartsWrong` | src/parser/parser.cc:699-740 | A first element that is misread can never make the rest of the tuple rule arrive at the intended tuple. |
| `TypeRoundTrip.CommaAfterPairIsTaken` | src/parser/parser.cc:849-864 | What such a comma does: `x<y<z>>, w)` with its pair fused reads as `x<y<z>, w>`. |
| `TypeBalance.TypeIsBalanced` | src/parser/parser.cc:699-874 | A type that is read has used up as many `>` as `<`, counting `>>` twice and the bank before and after: no half is lost or made up. It leaves no bracket open. |
| `TypeBalance.VariantLeavesSurplus` | src/parser/parser.cc:466-494 | A variant that is accepted, whose payload types need not be closed, leaves the bank empty exactly if there are as many `>` as `<` in it, up to the parenthesis that matches the one after its name; otherwise it leaves the surplus there. |
| `TypeBalance.EnumLeavesSurplus` | src/parser/parser.cc:449-500 | The same for an enum, up to its closing brace: a surplus that no later payload has used up is still banked at its end. |
| `TypeBalance.VariantLeavesHalf` | src/parser/parser.cc:466-494 | `v(x<y>>)` is accepted with no diagnostics, and the surplus `>` stays in the bank. |
| `TypeBalance.PayloadTakesHalf` | src/parser/parser.cc:466-494 | `v(x<y>>, z<w)` is accepted with no diagnostics: the second payload type takes the `>` that the first has left over. |
| `VariantRoundTrip.FusedVariantReads` | src/parser/parser.cc:466-494 | However closing `>` words of a printed variant are fused into `>>`, it reads back as the variant, with an empty bank, exactly if no pair stands right before a comma. |
| `PatternRoundTrip.PatternReads` | src/parser/parser.cc:890-1137 | A printed pattern, with parentheses only around nested alternatives and around `mut` after a plain `&`, reads back as itself, with no diagnostics and the cursor just past the print, when no `|` or `::` follows. |
| `PatternRoundTrip.FirstLetterTells` | src/parser/parser.cc:1046-1060 | A name by itself binds a variable exactly if it begins with a small letter or an underscore, and names a variant otherwise. |
| `PatternRoundTrip.ReadAgain` | src/parser/parser.cc:890-1137 | Every pattern that is read, from whatever words, is one that reads back from its print. |
| `PatternRoundTrip.PrintingIsUnambiguous` | src/parser/parser.cc:890-1137 | Different patterns are never printed alike. |
| `PatternRoundTrip.SignIsForgotten` | src/parser/parser.cc:983-988 | A negative number is read as the pattern that the number itself is: the sign is dropped. |
| `Lookahead.ExprPasses` | src/parser/parser.cc:224-259 | Inside brackets the lookahead that tells what a statement is goes over a printed expression as if it were not there; outside it stops at the first brace, or sees a declaration in a pattern condition, exactly where the tree says. |
| `Lookahead.PatternPasses` | src/parser/parser.cc:224-259 | The same for a pattern, inside brackets or if no brace of a struct pattern stands outside parentheses. |
| `Lookahead.BraceStops` | src/parser/parser.cc:240-244 | A brace of a struct pattern outside parentheses ends the lookahead, which then has found nothing. |
| `ExprRoundTrip.LeadIs` | src/parser/parser.cc:224-259 | For every printed statement the lookahead finds a declaration, a reassignment or neither, as it was printed, but for what misleads it without parentheses. |
| `StmtRoundTrip.StatementRoundTrip` | src/parser/parser.cc:2015-2082 | A statement printed without parentheses around its beginning reads back as itself, with no diagnostics and the cursor just past the print, exactly if it is no declaration whose pattern has a brace outside parentheses, no assignment to what shows a brace or ends in an open range, and no expression that begins to look like a declaration at a pattern condition. |
| `StmtRoundTrip.PathTakesBlock` | src/parser/parser.cc:1718-1803 | Where a struct literal may start, a path in front of an empty block is read with it as one. |
| `StmtRoundTrip.PatternConditionLosesBlock` | src/parser/parser.cc:1805-1842 | So an `if` whose pattern condition is initialized with a path and whose block is empty is not read, unless another block follows: the initializer takes the block. |
| `StmtRoundTrip.BlockRoundTrip` | src/parser/parser.cc:1974-2013 | A printed block, with or without a value, reads back as itself. |
| `ItemRoundTrip.ItemReads` | src/parser/parser.cc:277-680 | A printed item of any kind reads back as itself, bodies, nested modules and methods included. |
| `ItemRoundTrip.FileRoundTrip` | src/parser/parser.cc:261-275 | A printed file reads back as its items, with no diagnostics. |
| `ItemRoundTrip.PrintingIsUnambiguous` | src/parser/parser.cc:261-275 | Different files are never printed alike. |
| `ReadShapes.TypeReadsAgain` | src/parser/parser.cc:699-887 | Every type that is read, from whatever words, reads back from its print. |
| `ReadShapes.ExprReadsAgain` | src/parser/parser.cc:1139-1753 | Every expression that is read, from whatever words, reads back from its print. |
| `ReadShapes.BlockReadsAgain` | src/parser/parser.cc:1974-2013 | So does every block, whatever was dropped in recovery when it was read. |
| `ReadShapes.FileReadsAgain` | src/parser/parser.cc:261-275 | Whatever the tokens, and however much of them does not parse: the print of the items that were read is read as the same items, without diagnostics. |
| `FrontEnd.PrintedTextReadsBack` | src/parser/parser.cc:261-275 | A printed file, written as text in whatever lines do not add semicolons, is read back from that text by the lexer and the parser, without diagnostics. |
| `FrontEnd.TextReadsAgain` | src/analyzer/resolve.cc:142-152 | What any text says, printed and written as text again, says the same, without diagnostics, if its words are ones that can be written. |
| `Trailing.ArgsMayEndInComma` | src/parser/parser.cc:1516-1536 | Call arguments read the same with a comma behind the last. |
| `Trailing.ParamsMayEndInComma` | src/parser/parser.cc:360-384 | Parameters read the same with a comma behind the last. |
| `Trailing.FieldsMayEndInComma` | src/parser/parser.cc:415-440 | So do the fields of a struct. |
| `Trailing.VariantsMayEndInComma` | src/parser/parser.cc:458-498 | So do the variants of an enum. |
| `Trailing.PatternsMayEndInComma` | src/parser/parser.cc:1046-1137 | So do the patterns in a variant. |
| `Trailing.TypeArgsMayEndInComma` | src/parser/parser.cc:844-865 | So do the type arguments of a path. |
| `Trailing.TupleTypesMayEndInComma` | src/parser/parser.cc:717-735 | So do the elements of a tuple type. |
| `Trailing.PathMayEndInColons` | src/parser/parser.cc:317-344 | A `::` behind a path is read and dropped. |
| `Trailing.SemicolonsAreNothing` | src/parser/parser.cc:1974-2013 | Semicolons with no statements, items or methods between them are nothing. |
| `Trailing.SeparatorsAreNothing` | src/parser/parser.cc:1872-1923 | Nor are commas or semicolons with no arms between them. |
| `Trailing.BaseMayFollowRange` | src/parser/parser.cc:1777-1790 | A base can follow a field without a comma if the value of the field is a range with an end. |
| `ReadNames.FileIsSource` | src/parser/parser.cc:261-275 | Through all rules and recoveries, every name in the items of a file is spelled as a word that was read. |
| `Parser.Parser.constructor` | src/parser/parser.cc:91-103 | Starts at the first significant token, with the reserved words before it reported. |
| `Parser.Parser.SkipInsignificant` | src/parser/parser.cc:121-141 | Moves to the next token the grammar sees and reports each reserved word on the way. |
| `Parser.Parser.Advance` | src/parser/parser.cc:143-147 | Moves one word on, and further in the list. |
| `Parser.Parser.Match` | src/parser/parser.cc:153-159 | Consumes the token if it is of the kind, and tells so. |
| `Parser.Parser.Expect` | src/parser/parser.cc:161-178 | Consumes the token or reports. |
| `Parser.Parser.Synchronize` | src/parser/parser.cc:189-222 | Recovers as the grammar says, with nested brackets skipped. |
| `Parser.Parser.ScanLead` | src/parser/parser.cc:224-259 | Tells declarations, reassignments and expressions apart without moving. |
| `Parser.Parser.ParseIdent` | src/parser/parser.cc:305-315 | Reads a name. The result and the new state are those of the grammar's rule. |
| `Parser.Parser.ParsePath` | src/parser/parser.cc:317-344 | Reads a path; a `::` at its end is dropped. The result and the new state are those of the grammar's rule. |
| `Parser.Parser.ConsumeGt` | src/parser/parser.cc:682-697 | Takes one `>` from the bank, from a token, or from half of a pair, and banks the other half. |
| `Parser.Parser.ParseType` | src/parser/parser.cc:699-837 | Reads a type. The result and the new state are those of the grammar's rule. |
| `Parser.Parser.ParseParenthesizedType` | src/parser/parser.cc:702-739 | Reads the unit type, a parenthesized type or a tuple type. The result and the new state are those of the grammar's rule. |
| `Parser.Parser.ParsePathType` | src/parser/parser.cc:838-874 | Reads a path type with its arguments; the arguments go on after a comma before the bank is looked at. The result and the new state are those of the grammar's rule. |
| `Parser.Parser.ParseTypeArgs` | src/parser/parser.cc:849-864 | Reads type arguments up to what closes them. The result and the new state are those of the grammar's rule. |
| `Parser.Parser.ParseClosedType` | src/parser/parser.cc:876-887 | Rejects a type that leaves half of a pair behind. The result and the new state are those of the grammar's rule. |
| `Parser.Parser.ParsePattern` | src/parser/parser.cc:893-919 | Reads a pattern with its alternatives. The result and the new state are those of the grammar's rule. |
| `Parser.Parser.ParsePrimaryPattern` | src/parser/parser.cc:921-1045 | Reads a pattern without alternatives; the sign of a negative literal is dropped. The result and the new state are those of the grammar's rule. |
| `Parser.Parser.ParsePathPattern` | src/parser/parser.cc:1046-1137 | Reads a binding, a variant or a struct pattern. The result and the new state are those of the grammar's rule. |
| `Parser.Parser.ParseRange` | src/parser/parser.cc:1143-1194 | Reads a range or what is tighter. The result and the new state are those of the grammar's rule. |
| `Parser.Parser.ParseBinary` | src/parser/parser.cc:1196-1423 | Reads one rung of binary operators, left to right. The result and the new state are those of the grammar's rule. |
| `Parser.Parser.ParseCmp` | src/parser/parser.cc:1240-1268 | Reads at most one comparison. The result and the new state are those of the grammar's rule. |
| `Parser.Parser.ParsePow` | src/parser/parser.cc:1425-1445 | Reads powers, right to left. The result and the new state are those of the grammar's rule. |
| `Parser.Parser.ParseCast` | src/parser/parser.cc:1447-1467 | Reads at most one cast. The result and the new state are those of the grammar's rule. |
| `Parser.Parser.ParseUnary` | src/parser/parser.cc:1469-1507 | Reads unary operators and borrows. The result and the new state are those of the grammar's rule. |
| `Parser.Parser.ParsePostfix` | src/parser/parser.cc:1509-1613 | Reads a primary and the postfix forms after it. The result and the new state are those of the grammar's rule. |
| `Parser.Parser.ParseArgs` | src/parser/parser.cc:1516-1536 | Reads call arguments up to their closing parenthesis. The result and the new state are those of the grammar's rule. |
| `Parser.Parser.ParsePrimary` | src/parser/parser.cc:1615-1717 | Reads a literal, a parenthesized form, a block form or a path. The result and the new state are those of the grammar's rule. |
| `Parser.Parser.ParseParenthesized` | src/parser/parser.cc:1648-1680 | Reads a parenthesized expression or a tuple; `()` is none. The result and the new state are those of the grammar's rule. |
| `Parser.Parser.ParsePathExpr` | src/parser/parser.cc:1718-1803 | Reads a path, a call of one, or a struct literal where one may start. The result and the new state are those of the grammar's rule. |
| `Parser.Parser.ParseStructLiteral` | src/parser/parser.cc:1754-1798 | Reads field initializers and a base. The result and the new state are those of the grammar's rule. |
| `Parser.Parser.ParseHeadExpr` | src/parser/parser.cc:1809-1815 | Reads an expression before a block with struct literals off, and turns them back on as they were. The result and the new state are those of the grammar's rule. |
| `Parser.Parser.ParseCond` | src/parser/parser.cc:1805-1842 | Reads a condition: a declaration or an expression. The result and the new state are those of the grammar's rule. |
| `Parser.Parser.ParseIf` | src/parser/parser.cc:1844-1870 | Reads an `if`; there is no `else if`. The result and the new state are those of the grammar's rule. |
| `Parser.Parser.ParseMatch` | src/parser/parser.cc:1872-1923 | Reads a match; an arm that does not parse is dropped after recovery. The result and the new state are those of the grammar's rule. |
| `Parser.Parser.ParseBlock` | src/parser/parser.cc:1974-2013 | Reads a block; a statement that does not parse is dropped after recovery, and a last expression without `;` is the value. The result and the new state are those of the grammar's rule. |
| `Parser.Parser.ParseStmt` | src/parser/parser.cc:2015-2082 | Reads a declaration, a reassignment or an expression. The result and the new state are those of the grammar's rule. |
| `Parser.Parser.ParseItem` | src/parser/parser.cc:277-303 | Reads an item. The result and the new state are those of the grammar's rule. |
| `Parser.Parser.ParseFn` | src/parser/parser.cc:346-404 | Reads a function. The result and the new state are those of the grammar's rule. |
| `Parser.Parser.ParseStruct` | src/parser/parser.cc:406-447 | Reads a struct. The result and the new state are those of the grammar's rule. |
| `Parser.Parser.ParseEnum` | src/parser/parser.cc:449-505 | Reads an enum. The result and the new state are those of the grammar's rule. |
| `Parser.Parser.ParseImpl` | src/parser/parser.cc:507-541 | Reads an implementation; a method that does not parse is dropped after recovery. The result and the new state are those of the grammar's rule. |
| `Parser.Parser.ParseMod` | src/parser/parser.cc:543-584 | Reads a file module or an inline one. The result and the new state are those of the grammar's rule. |
| `Parser.Parser.ParseValueItem` | src/parser/parser.cc:586-650 | Reads the name, type and initializer of a static or a constant. The result and the new state are those of the grammar's rule. |
| `Parser.Parser.ParseUse` | src/parser/parser.cc:652-680 | Reads a use with its alias. The result and the new state are those of the grammar's rule. |
| `Lexer.Lexer.Tokenize` | src/lexer/lexer.cc:763-787 | One pass with lookahead gives the tokens of the two phases: the pieces of the text read without insertion, then `;` inserted at newlines, then one end-of-file token. |
| `Lexer.Lexer.PeekNextKind` | src/lexer/lexer.cc:286-344 | Lookahead over blanks, newlines and comments tells the kind of the lexeme that is read later, as far as it matters; an unclosed comment counts as the end of input. |
| `Tokenization.NewlineRule` | src/lexer/lexer.cc:48-105 | In the finished list a newline outside comments and literals stands as a `;` exactly when the last token before it that is no error ends a statement and the next lexeme does not carry it on. |
| `Tokenization.LookaheadAgrees` | src/lexer/lexer.cc:286-344 | The kind that lookahead tells is that of the first token, not counting comments, that lexing without insertion gives from there. |
| `Tokenization.InsertionOnlyAddsSemicolons` | src/lexer/lexer.cc:230-281 | Taking the inserted `;` out again leaves what lexing without insertion gives. |
| `Tokenization.TokensAreInOrder` | src/lexer/lexer.cc:763-787 | Token spans are in order and do not overlap, and the end-of-file token follows them. |
| `Tokenization.NothingIsLost` | src/lexer/lexer.cc:230-281 | Every character outside the tokens is a blank, a newline or comment text. |
| `Tokenization.TokensStayInText` | src/lexer/lexer.cc:489-557 | A span goes beyond the text exactly for a literal still open at its end when an odd run of backslashes ends the text, and then by one character. |
| `Tokenization.QuotedOvershoots` | src/lexer/lexer.cc:458-497 | The same for the scan of a literal from any place inside it. |
| `Tokenization.EndsInOneMark` | src/lexer/lexer.cc:785-786 | Exactly one end-of-file token comes, and it comes last, as the parser expects. |
| `Tokenization.NamesComeFromSource` | src/lexer/lexer.cc:346-356 | Names, keywords and integers are spelled with letters, digits and underscores only, so no text can spell a minted name. |
| `Tokenization.TokenComesFrom` | src/lexer/lexer.cc:763-787 | Each token is what its place in the text gives: the lexeme or comment that starts there, or a `;` for a newline. |
| `Lexer.Lexer.SkipTrivia` | src/lexer/lexer.cc:230-281 | Skips blanks and comments and turns newlines into `;` where it should; the tokens there will be in the end stay the same. |
| `Lexer.Lexer.SkipNewline` | src/lexer/lexer.cc:235-242 | Inserts a `;` exactly where the second phase does. |
| `Lexer.Lexer.SkipLineComment` | src/lexer/lexer.cc:243-258 | Exactly three slashes make a doc comment token. |
| `Lexer.Lexer.SkipBlockComment` | src/lexer/lexer.cc:259-277 | Skips nested comments; an unclosed one is an error token up to the end. |
| `Lexer.Lexer.LexIdentifier` | src/lexer/lexer.cc:346-356 | A word becomes its keyword, `_` or an identifier. |
| `Lexer.Lexer.LexBased` | src/lexer/lexer.cc:361-411 | A number with a base, or the error that covers it. |
| `Lexer.Lexer.LexDecimal` | src/lexer/lexer.cc:412-451 | A number with fraction, exponent and suffix, or an error after a dangling underscore. |
| `Lexer.Lexer.SkipQuoted` | src/lexer/lexer.cc:458-498 | How far a literal goes, whether it is closed, and what is wrong with it. |
| `Lexer.Lexer.SkipEscape` | src/lexer/lexer.cc:467-494 | A braced escape, or two characters, even past the end. |
| `Lexer.Lexer.LexString` | src/lexer/lexer.cc:453-512 | A string literal or an error. |
| `Lexer.Lexer.LexChar` | src/lexer/lexer.cc:514-584 | A character literal or an error; an empty one is an error. |
| `Lexer.Lexer.LexSymbol` | src/lexer/lexer.cc:586-761 | The longest symbol, or an error as wide as the stray scalar, cut off at the end. |
| `Lexer.Lexer.LexOne` | src/lexer/lexer.cc:770-783 | The lexeme that its first character announces; the tokens there will be in the end stay the same. |
| `Symbols.SymbolIsLongest` | src/lexer/lexer.cc:586-761 | A symbol of a kind is read exactly where its spelling stands and no longer spelling of a symbol does, and covers just that. |
| `Symbols.OtherIsError` | src/lexer/lexer.cc:586-761 | What is no word, number, literal or zero, and starts no symbol, is an error, as wide as the sequence of bytes that it begins or as the text goes. |
| `Symbols.WidthByLeadingBits` | src/lexer/lexer.cc:738-751 | That width is told by the leading bits of the first byte. |
| `WrittenText.WrittenReadsBack` | src/lexer/lexer.cc:763-787 | Words written one after the other, a blank or a newline behind each, are what the parser gets from the text, with a `;` for each newline between a word that ends a statement and one that does not carry it on. |
| `WrittenText.WordIsRead` | src/lexer/lexer.cc:770-783 | A keyword, symbol, name, number or literal is read as what it is wherever it stands with a blank or a newline behind it. |
| `WrittenText.QuotedShifts` | src/lexer/lexer.cc:458-498 | A literal that is closed goes as far, with the same faults, wherever it stands. |
| `PrintedWords.BinaryIsSymbol` | src/parser/parser.cc:1196-1445 | Each operator is printed as the spelling of the symbol that the lexer reads it from. |
| `PrintedWords.NamesAreWritten` | src/lexer/lexer.cc:346-356 | A name can be written exactly if it is a word that is no keyword and not `_`. |
| `Literals.DigitsAreInteger` | src/lexer/lexer.cc:412-451 | Digits alone are an integer. |
| `Literals.PointMakesFloat` | src/lexer/lexer.cc:412-451 | Digits, a point and digits are a floating-point number. |
| `Literals.ExponentMakesFloat` | src/lexer/lexer.cc:412-451 | So are digits with an exponent, signed or not. |
| `Literals.RangeIsNoFraction` | src/lexer/lexer.cc:412-451 | Two dots behind digits are no fraction. |
| `Literals.SuffixBelongs` | src/lexer/lexer.cc:412-451 | Letters behind digits belong to the number, unless they begin as an exponent or a base would. |
| `Literals.BaseMakesInteger` | src/lexer/lexer.cc:361-411 | A mark for a base and digits of that base are an integer; without digits they are an error. |
| `Literals.WrongDigitIsError` | src/lexer/lexer.cc:361-411 | A decimal digit that the base does not have spoils the number. |
| `Literals.UnderscoresGroup` | src/lexer/lexer.cc:412-451 | Underscores among digits make no difference, but a last one makes the number an error. |
| `Literals.EscapesAre` | src/lexer/lexer.cc:467-494 | A backslash makes a valid literal exactly with `n`, `t`, `r`, a backslash, a quote or `0` behind it. |
| `Literals.UnicodeIsRead` | src/lexer/lexer.cc:467-494 | A braced hexadecimal number behind `\\u` is part of the literal. |
| `Literals.QuotesMakeChar` | src/lexer/lexer.cc:514-584 | Between single quotes there must be something for a character, however much. |
| `Comments.BlanksAreSkipped` | src/lexer/lexer.cc:230-242 | Blanks, tabs and carriage returns are nothing, and a newline is nothing but a newline. |
| `Comments.LineIsComment` | src/lexer/lexer.cc:243-258 | Two slashes make everything up to the end of the line a comment; it documents exactly if a third one follows and no fourth. |
| `Comments.BlockIsComment` | src/lexer/lexer.cc:259-277 | A block comment with any comments nested in it is one comment, up to its own end. |
| `Comments.OpenBlockIsError` | src/lexer/lexer.cc:259-277 | Without its end it is an error up to the end of the text. |
| `Comments.EndersAre` | src/lexer/lexer.cc:48-87 | A statement can end after a literal, a closing bracket, a primitive type or a name, and after `_`, `?`, `break`, `continue` and `ret`. |
| `Comments.ContinuersAre` | src/lexer/lexer.cc:91-105 | A line carries a statement on if it begins with a closing bracket, a comma, an `else`, a dot or a range, or is the end. |
| `Scanning.KeywordsAreSpelled` | src/lexer/lexer.cc:112-176 | A word is looked up as a keyword exactly if it is how that keyword is spelled; all other words are identifiers. |
| `Tokenization.QuoteAndBackslash` | src/lexer/lexer.cc:489-493 | The smallest overshoot: a quote and a backslash make one error token that ends one character past the text, and the end mark stands there. |
| `ValueCycles.CycleSearch.HasValueCycle` | src/analyzer/types.cc:609-671 | True exactly when a walk by value from the root comes back to itself or to the path before it; the path is restored. |
| `ValueCycles.RepeatsExactlyOnCycles` | src/analyzer/types.cc:609-671 | With an empty path that is so exactly when a cycle of by-value edges is reachable from the root. |
| `ValueCycles.ValidateCycles` | src/analyzer/types.cc:985-998 | Reports exactly the complete nominals with such a cycle in reach. |
| `CycleCheck.NothingReportedNothingCyclic` | src/analyzer/types.cc:985-998 | When no declared type is reported, no type at all reaches a cycle, in a table where each type that holds a later one is a completed declared one or a copy of one: it is enough to search from the declared types. The next rows show that every table has this form. |
| `CycleCheck.AppendingMakesNothingClimb` | src/ir/storage_builder.h:149-313 | Appending to a built table makes no type hold a later one: a new node is a copy, or holds only what came before. |
| `CycleCheck.FillingMakesOneClimb` | src/ir/storage_builder.h:158-182 | Filling a nominal in can make only that one, and its copies, hold later types. |
| `CycleCheck.OlderPayloadsDoNotClimb` | src/analyzer/types.cc:282-305 | An enum whose payloads all come before it, as those of the built-in `Option` and `Result`, holds no later type and need not be declared. |
| `CycleCheck.EmptyDoesNotClimb` | src/ir/storage_builder.h:158-170 | A nominal that was reserved and never filled in holds no later type. |
| `CycleCheck.DeclaresWhenFilled` | src/analyzer/types.cc:225-280 | Whenever a nominal is filled in and then counts as complete, the types that hold later ones are still completed declared ones or copies of them. |
| `CycleCheck.OnlyNominalsClimb` | src/ir/storage_builder.h:177-248 | In a built table only structs and enums can hold what comes after them. |
| `CycleCheck.CyclesClimb` | src/analyzer/types.cc:609-671 | Every cycle passes a type that holds a later one. |
| `ValueCycles.IsCopyType` | src/ir/storage.h:116-177 | Where no cycle is reachable it terminates, and is true exactly when no exclusive reference is reachable by value. |
| `MutRefs.MutRefSearch.ContainsMutRef` | src/analyzer/types.cc:3037-3088 | With a visited list shared by the whole search: a hit shows a reachable exclusive reference; without one, all that was newly visited is no exclusive reference and leads only to what has been visited. |
| `MutRefs.HasMutRef` | src/analyzer/types.cc:3037-3088 | Terminates on every table, also cyclic ones, and is true exactly when an exclusive reference is reachable through fields, payloads, elements or shared references. |
| `MutRefs.NoMutRefIsCopied` | src/analyzer/types.cc:3200-3210 | A type without such a reference, and without a cycle, is copied. |
| `TypeEquality.EqualitySearch.TypesEqualInner` | src/analyzer/types.cc:743-795 | On a built table the search with assumed pairs is equality of the trees that types unfold to, down to nominals named by their index: a pair seen before is never one still being compared. |
| `TypeEquality.TypesEqual` | src/analyzer/types.cc:738-741 | Equality of types is equality of those trees, hence an equivalence. |
| `StorageBuilder.GrowingKeepsShape` | src/ir/storage_builder.h:177-313 | Whatever is appended or filled in later, the trees of the types there are stay the same. |
| `StorageBuilder.StorageBuilder.constructor` | src/ir/storage_builder.h:325-335 | The table starts with one node for each tag below structs, and one for functions. |
| `StorageBuilder.StorageBuilder.Primitive` | src/ir/storage_builder.h:144-147 | The first nodes are found by their tag. |
| `StorageBuilder.StorageBuilder.StructType` | src/ir/storage_builder.h:149-155 | Appends a struct that holds exactly its fields. |
| `StorageBuilder.StorageBuilder.ReserveStruct` | src/ir/storage_builder.h:162-168 | Appends a struct that holds nothing yet. |
| `StorageBuilder.StorageBuilder.FillStruct` | src/ir/storage_builder.h:170-175 | Changes the fields of that struct and nothing else. |
| `StorageBuilder.StorageBuilder.ArrayTypeOf` | src/ir/storage_builder.h:177-195 | One node for an element and a count: the one there is, with the table unchanged, or a new one; it holds exactly the element. |
| `StorageBuilder.StorageBuilder.ReferenceType` | src/ir/storage_builder.h:202-221 | One node for a pointee and a kind of reference: the one there is, with the table unchanged, or a new one; the placeholders never match. It holds nothing, shares its pointee if it is shared, and reaches an exclusive reference by value exactly if it is one. |
| `StorageBuilder.StorageBuilder.TupleType` | src/ir/storage_builder.h:223-252 | One node for a list of element indices: the one there is, with the table unchanged, or a new one; it holds exactly the elements. |
| `StorageBuilder.StorageBuilder.Marker` | src/ir/storage_builder.h:254-276 | The never and error types: the first node, or a new one. |
| `StorageBuilder.StorageBuilder.EnumVariant` | src/ir/storage_builder.h:278-281 | Appends a variant and changes nothing else. |
| `StorageBuilder.StorageBuilder.ReserveEnum` | src/ir/storage_builder.h:284-290 | Appends an enum that holds nothing yet. |
| `StorageBuilder.StorageBuilder.FillEnum` | src/ir/storage_builder.h:292-297 | Changes the variants of that enum and nothing else. |
| `StorageBuilder.StorageBuilder.EnumType` | src/ir/storage_builder.h:299-305 | Appends an enum that holds exactly the payloads of its variants. |
| `StorageBuilder.StorageBuilder.RefType` | src/ir/storage_builder.h:308-313 | Appends a copy, which is the same type exactly when it is not nominal. |
| `TreeBuilder.TreeBuilder.BuildTree` | src/analyzer/resolve.cc:154-189 | The worklist empties on every set of files, and then every module has the children that its items declare: the table is finished, if the names of modules in the files are words, as in every file that was lexed and parsed (`LexParseFile`). |
| `ModulePaths.ModulesAreSource` | src/analyzer/resolve.cc:191-255 | The items of every module in a finished table come from a file, or from a module that has them inside, so that its declared names are words. |
| `TreeBuilder.TreeBuilder.BuildChildren` | src/analyzer/resolve.cc:191-255 | Expanding a module gives it exactly its children and makes the tree still to be built smaller. |
| `TreeBuilder.TreeBuilder.BuildChild` | src/analyzer/resolve.cc:216-253 | An inline module keeps the directory, a file module lengthens it; without a file the declaration is reported. |
| `TreeBuilder.TreeBuilder.FindFileByPath` | src/analyzer/resolve.cc:123-130 | The first file with the path, or none. |
| `TreeBuilder.TreeBuilder.ReportUnreachable` | src/analyzer/resolve.cc:180-188 | Warns of exactly the files that no module was made from. |
| `TreeMeaning.ChildrenAreMade` | src/analyzer/resolve.cc:191-255 | In a finished table the modules below one are exactly those that its declarations make, the first of each name: with a body, its items and the directory of the parent; without, the items of `name.al` in the directory, or else of `name/mod.al`, and the directory of its own name. |
| `TreeMeaning.ProblemsAreReported` | src/analyzer/resolve.cc:193-213 | What is reported of a module are exactly the second declarations of a name, and the first ones whose file there is not. |
| `ModuleTree.Size` | src/analyzer/resolve.cc:191-255 | The tree under a module is finite: a file edge lengthens the directory, an inline edge goes to a part of the items. |
| `ModulePaths.OneParent` | src/analyzer/resolve.cc:84-105 | Every module but the root is in exactly one place among the children, below an earlier module. |
| `ModulePaths.PathsDiffer` | src/analyzer/resolve.cc:214-216 | No two modules have the same path. |
| `ModulePaths.LookupIsUnique` | src/analyzer/resolve.cc:132-139 | A child that has the name is the one that lookup by name finds. |
| `ModulePaths.SiblingsDiffer` | src/analyzer/resolve.cc:193-213 | The children of a module have its path with pairwise different names. |
| `ModulePaths.ChildName` | src/analyzer/resolve.cc:114-121 | The name of a module, read off its path after the last colon, is the one it was declared with. |
| `ImportResolver.ImportResolver.ResolveAll` | src/analyzer/resolve.cc:502-504 | Over the whole run each use of each module is seen to exactly once, public ones first, also on cycles; all imports are justified and unambiguous. At the end a member that the named module itself has is bound in every namespace it is in, and if nothing was reported it is imported from there, and every use has brought an import of its name. If no chase of exports can come back to where it began, every name that a chain of public uses justifies is bound, and if nothing was reported the imports are exactly those that chains justify. |
| `ImportResolver.ChainIsFollowed` | src/analyzer/resolve.cc:443-475 | Without such a cycle, what a chain of uses leads to has arrived when all uses are done: it is bound, by a public import if its use is public, and it is imported if nothing was reported. |
| `ImportResolver.ImportResolver.ResolveExports` | src/analyzer/resolve.cc:301-335 | Terminates on every re-export graph; a fresh module has all its uses seen to in order, one under way is marked as done, and no other module loses or repeats a use. |
| `ImportResolver.ImportResolver.ResolveUse` | src/analyzer/resolve.cc:390-483 | Sees to one use: a member the named module has itself is bound in every namespace it is in; one it lacks is bound to what the module exports by then, also when that is the using module. |
| `ImportResolver.ImportResolver.AddImport` | src/analyzer/resolve.cc:337-366 | Records an import unless the name is taken by a local item or an import, which is reported; afterwards the name is bound, and imported publicly if it is public and no local item has it. |
| `ImportResolver.ImportResolver.LookupReexport` | src/analyzer/resolve.cc:375-388 | The first public import with the name and namespace. |
| `ImportResolver.ImportResolver.FindTarget` | src/analyzer/resolve.cc:390-437 | The module that a path names a member of, from `package`, `self`, `super` or a child; what cannot be resolved is reported once. |
| `ImportResolver.ImportResolver.CollectLocals` | src/analyzer/resolve.cc:257-296 | Structs and enums are types and values, functions, statics and constants are values, children are modules. |
| `ImportResolver.ReexportIsJustified` | src/analyzer/resolve.cc:465-471 | What a justified public import stands for is justified one module on. |
| `ImportPaths.TargetByPath` | src/analyzer/resolve.cc:390-437 | In a finished table a use names a member of a module exactly if that has the path that the use spells out: from the root for `package` and the package's own name, from the module itself for `self`, from the path that the module's path extends for `super`, and from below the module otherwise, then one part for each segment up to the last. A path of less than two segments names nothing. |
| `ImportPaths.LocalsByItems` | src/analyzer/resolve.cc:257-296 | A module has a member in a namespace exactly if it declares such an item, or a module has its path with that name. |
| `ImportPaths.ChainByPaths` | src/analyzer/resolve.cc:443-475 | What a chain of uses brings, said by module paths and declared items alone: each use but the last goes through a module that has no item of the name. |
| `ImportPaths.JustifiedByPaths` | src/analyzer/resolve.cc:443-475 | So the imports of a resolved package are justified in these terms. |
| `Imports.ChainEnds` | src/analyzer/resolve.cc:443-475 | Every import that a chain of public uses justifies, each through a module whose own items lack the name, names a local item of its target, in its namespace. |
| `Imports.OrderIsPublicFirst` | src/analyzer/resolve.cc:316-333 | In that order public uses come before the others, and otherwise uses come as they are written. |
| `Imports.OrderIsComplete` | src/analyzer/resolve.cc:316-333 | The order of a module's uses has each of them, and only once. |
| `Verifier.VerifyStorage` | src/ir/verifier.cc:41-347 | Accepts exactly the storages whose tables fit together, which are those that can be executed, and a fault that it reports is one. |
| `Execution.WellFormedIsExecutable` | src/ir/verifier.cc:41-347 | The storages accepted are exactly those in which types hold only types, every function has blocks and begins in one, no register is defined in two places, and every point of every block has operands that stand for something, registers for what is defined somewhere, in the shape that its opcode asks for, with control given away at the end of the block and nowhere else. |
| `Demands.ShapeIsTaken` | src/ir/verifier.cc:227-342 | The shapes that are accepted are what each opcode asks of its list of operands: a callee and as many arguments as it takes; a block; a boolean and two blocks without parameters; an integer, such a block, and pairs of an immediate and such a block; a register and integers; and integer immediates behind an aggregate. |
| `Execution.OnceIs` | src/ir/verifier.cc:125-165 | Registers are pairwise different in the list of definitions exactly if no two places define the same one. |
| `Verifier.VerifyTypes` | src/ir/verifier.cc:43-92 | Accepts exactly the type tables whose structs, arrays, enums and tuples refer into the tables. |
| `Verifier.VerifyFunctions` | src/ir/verifier.cc:107-123 | Accepts exactly the functions with their blocks and types in range. |
| `Verifier.DefineBlocks` | src/ir/verifier.cc:125-165 | Accepts exactly when all ranges are in bounds and no register is defined twice, and marks exactly the defined ones. |
| `Verifier.DefineParams` | src/ir/verifier.cc:138-152 | The parameters of one block: marked one after the other, up to the first redefinition. |
| `Verifier.DefineDsts` | src/ir/verifier.cc:153-164 | The instructions of one block likewise. |
| `Verifier.VerifyCode` | src/ir/verifier.cc:167-182 | Accepts exactly the blocks that are not empty and end in their only terminator. |
| `Verifier.VerifyOperand` | src/ir/verifier.cc:187-225 | Accepts exactly the operands that refer to something, registers to defined ones. |
| `Verifier.VerifyCall` | src/ir/verifier.cc:227-246 | Accepts exactly the calls whose first operand is a callee that takes as many arguments as follow. |
| `Verifier.VerifyCondBr` | src/ir/verifier.cc:255-275 | Accepts exactly three operands: a boolean and two blocks without parameters. |
| `Verifier.VerifySwitch` | src/ir/verifier.cc:276-306 | Accepts exactly an integer, a default block and pairs of an immediate and a block, all blocks without parameters. |
| `Verifier.VerifyGetElementPtr` | src/ir/verifier.cc:307-323 | Accepts exactly a register followed by integers. |
| `Verifier.VerifyIndices` | src/ir/verifier.cc:324-342 | Accepts exactly operands whose indices are integer immediates, at least one. |
| `Machine.RunsAreSafe` | src/ir/verifier.cc:167-347 | Every run of accepted code, whatever its branches do, stands in a block with all that its instruction looks up in range and in the shape that its opcode asks for, and stops only at `Unreachable` or a `Ret` to nobody. |
| `Machine.StepIsSafe` | src/ir/verifier.cc:167-303 | A step from a safe state leads to a safe state. |
| `Machine.SafeIsNotStuck` | src/ir/verifier.cc:167-303 | A safe state that is not at `Unreachable` has a next one. |
| `Machine.SitesDiffer` | src/ir/verifier.cc:125-165 | No two places of accepted code define the same register. |
| `Machine.DefHasSite` | src/ir/verifier.cc:190-200 | Every register that counts as defined has a place that defines it. |
| `PackageResolver.PackageResolver.ResolvePackage` | src/pkg/resolve.cc:92-107 | Succeeds exactly when everything the package leads to loads and nothing of it leads back to itself; the result is the depth-first unfolding: one package for each way along the dependencies, in order, shared ones once for each way. |
| `PackageResolver.PackageResolver.ResolveInto` | src/pkg/resolve.cc:28-88 | The same from inside a resolution: terminates, reports once on failure, and restores the path on success. |
| `PackageOrder.FlattenIsResolution` | src/pkg/resolve.cc:28-88 | What is resolved is one package for each way along the dependencies, no way left out, each before those it leads to and in the order in which the dependencies are listed. |
| `Packages.UnfoldsExactlyWhenSound` | src/pkg/resolve.cc:28-88 | A package has a finite unfolding exactly when everything in reach loads and nothing in reach is cyclic. |
| `Packages.UnfoldingIsUnique` | src/pkg/resolve.cc:70-83 | A package has at most one unfolding. |
| `PathNormalizer.NormalizeCanonical` | src/path/path.cc:20-56 | Building the spelling in place with a stack of starts is the fold over the segments. |
| `Paths.NormalIsIdempotent` | src/path/path.cc:20-56 | Normalizing a canonical path changes nothing. |
| `PathMeaning.NormalLeadsTheSame` | src/path/path.cc:20-56 | From every directory the canonical path leads where walking the path part by part leads: a name down, two dots up, a dot or nothing nowhere. |
| `PathMeaning.CanonicalExactlyWhenSame` | src/path/path.cc:20-56 | Two paths have one canonical path exactly if both are absolute, or both are not, and they lead to the same place from every directory. |
| `PathMeaning.JoinLeadsOn` | src/path/path.cc:83-94 | A joined path leads where the second leads from where the first leads. |
| `PathMeaning.DotsUndoName` | src/path/path.cc:33-36 | Two dots joined to a path with a plain name joined to it give the path back. |
| `PathMeaning.DotsUndoNameInside` | src/path/path.cc:33-36 | And inside a path, a plain name and two dots behind it make no difference. |
| `PathMeaning.DotChangesNothing` | src/path/path.cc:20-56 | A dot, or nothing between two separators, changes nothing. |
| `Paths.JoinsCompose` | src/path/path.cc:83-94 | Normalizing before a join makes no difference exactly when the path is not empty. |
| `Paths.ParentUndoesJoin` | src/path/path.cc:96-105 | The parent of a path with a plain name joined to it is the path. |
| `Paths.SpellLeads` | src/path/path.cc:20-56 | The canonical spelling is absolute when the path is, and leads where the path leads, with relative leading `..` kept and absolute ones dropped. |
| `PathNormalizer.FromNative` | src/path/path.cc:72-81 | Fails exactly on a NUL, and otherwise normalizes. |
| `PathNormalizer.JoinPath` | src/path/path.cc:83-94 | Joins with one separator and normalizes. |

## Left out

- Syntax nodes are values: the pass returns a renamed tree where the source overwrites names and paths in place; arenas, source spans and the texts of diagnostics are dropped, and diagnostics are counted or listed by kind.
- Counters, offsets and indices are naturals; 32-bit wrap-around is not modelled.
- Grammar.ParseBinary: the eight functions of the ladder that differ only in their operators are one function with a rung.
- FrontEnd.TextReadsAgain: that the names and literals of what was read can be written, which is left to the caller; `PrintedWords` shows it of all that the printers add.
- FrontEnd.LexParseFile: the diagnostics of the lexer are not counted, only those of the parser and of renaming.
- Lexer.Lexer.Tokenize: the token buffer starts empty, where the source appends to what the caller passes.
- StorageBuilder: names of structs, enums and variants, and the tables for functions, blocks and instructions, which the builder only appends to.
- TypeEquality.TypesEqual: indices of the pre-interned reference nodes, which have no pointee, are excluded.
- ImportResolver: which uses a cycle of re-exports leaves unresolved; "dependency cycle" can be reported for private uses alone, so no claim is made about when it is.
- Scanning: text is a sequence of Dafny characters, where the source scans bytes; the scanner looks only at ASCII values and at the widths of UTF-8 sequences, as the source does.
- Machine: values and memory, so that branches go any way; whether the definition of a register comes before its use, and the number of arguments of a plain branch, which the verifier does not look at.
- Paths: the folding of Windows separators.
- PackageResolver: manifests are a map from directories to dependency paths; reading and parsing the files is not part of this model, and an unparsable manifest counts as one report.
- `src/analyzer/types.cc`: the expression checker and its diagnostics.
- `src/codegen_llvm`, `src/app`, `src/pipeline`, `src/source`, `src/base`, `src/debug`, `src/diag`, `src/pkg/manifest.cc`, `src/pkg/lock.cc`.

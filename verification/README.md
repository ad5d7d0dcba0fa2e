# nkcc, verified

A Dafny model of the C preprocessor nkcc and proofs about it. `dafny verify dfyconfig.toml` checks everything.
References to sections are to ISO/IEC 9899:2011.

The model follows the program's own form. What the program changes in place is a class whose methods are proved
against specification functions: the macro engine (`Expander.Engine`), the lexer (`Lexer.Stream`), the arena of
`#if` expressions (`CondExpr.Arena`), the reader of directives (`CondReader.Stream`, `CondReader.Context`), the hash
table (`HashTable.Table`), the string pool (`StringPool.Pool`) and the streaming hash (`Xxh3.State`). The
specification functions are written independently of the loops: recursive definitions, grammars, finite maps, lists.

## The parts

**Macro expansion** (`Tokens`, `MacroArgs`, `Substitution`, `PasteFacts`, `Placemarkers`, `PasteErrors`, `Prescan`,
`Expansion`, `ExpansionLaws`, `ExpansionLemmas`, `Stack`, `Lines`, `ObjectMacros`, `Expander`, `Unbalanced`).
`Expansion.Level` is the meaning of a text while a set of macros is being expanded: a recursive definition without a
stack and without flags. `ExpansionLaws` says what it is by laws of texts, one for each way a text can begin. The
engine is the program: one stack of streams, one push-back queue, a set of disabled macros, argument collection and
prescan running re-entrantly on the same stack. `Engine.Valid` is the invariant of every reachable state: a macro is
disabled exactly when one unread end of its replacement list is on the stack, and never two. The methods carry a ghost
bound, the steps the recursive definition still takes, so their termination is part of what is proved. All this holds,
and expansion of every text ends, for every table of object-like macros and for every table whose replacement lists
leave no `(` unmatched; `Unbalanced.TextNestsForever` shows a table with one unmatched `(` in one list and a text for
which prescans nest for ever. A directive line that ends alone is expanded by itself, whatever lines follow, and so is
the text in front of a directive. What a call is replaced by is a scan over the replacement list that pastes onto the
last token written; `Placemarkers` defines it a second time, unit by unit, with the placemarkers of section 6.10.3.3,
and says for every list and all arguments when the two agree; `PasteFacts` says which spellings are glued, in which
order. On tables of object-like macros the result is the textbook "replace a name that is not hidden", and expanding
twice changes nothing.

**Lexing** (`LexText`, `LexFacts`, `Splices`, `Lexer`, `Spelling`). The lexer never deletes backslash-newlines; it
steps over them inside every token and the spelling is cleaned later. `Lexer.LexAll` proves that kinds and spellings
are those of a plain lexer on the text with the continuations deleted first (phase 2 of section 5.1.1.2). `LexFacts`
says where the tokens of that lexer end, by the grammars of section 6.4: words, numbers and punctuators are the
longest possible ones, a literal ends with its first open quote, a comment with the first `*/`.
`Spelling.StringizeRoundTripIff` says which arguments are read back as one string when stringized; a parenthesis glued
to a token is never one token.

**Expressions of #if** (`CondGrammar`, `CondExpr`, `CondEval`, `CondOperators`). The precedence climber accepts
exactly the lines the productions of sections 6.5.5 to 6.5.15 derive, with their operators named, and returns the tree
of the only derivation; printing with the fewest parentheses and parsing is the identity. The arena version agrees
with it on all lines whose tree fits in 1024 nodes. Sums, differences and products have the integer's value modulo
2^64 whatever the signedness flags say; `CondOperators` says what every other operator gives on the integers its
operands stand for. The zero check of `/` and `%` looks at the dividend; `CondEval.DivisionRefused` says for which
operands a diagnostic comes.

**Conditionals and include guards** (`Conditionals`, `CondMachine`, `CondReader`, `IncludeGuards`). The flat program
with its stack of open conditionals computes the meaning of the nested if-sections of section 6.10.1: the first group
whose condition holds, no condition behind it evaluated, no macro changed in a skipped group. Files are lists of
lines; those the program accepts are the lines of nested texts. A run with the include-guard shortcut that
ends well equals the run that reads every file again. That it ends well when that one does needs more: every guard
must be recorded for a macro last defined in the guarded file. `IncludeGuards.UndefStale` and `RedefineStale` say
exactly when an entry survives the end of its macro, and `StaleReached` gives files on which a run meets such an
entry.

**Tables** (`Probing`, `HashTable`, `StringPool`). Linear probing with tombstones is a finite map through every
resize and every reuse of a tombstone; masks are shown to be remainders, and a free slot always stops a probe.
Interning hands out equal references exactly for equal strings, and a reference keeps its bytes, length, hash and
final NUL while table, array and buffer grow. It fails exactly when the distinct strings do not fit the buffer.

**The vendored hash** (`Xxh3`, `Multiply`). However input is cut into updates, the digest is the one-shot result, with
the stripe and scramble steps left uninterpreted. The portable 64-bit multiplication is exact and no sum overflows.

## Model

| member | source | states |
|---|---|---|
| Expander.Engine.Next | cpp.cc:379-404 | the next token is that of the text the stack stands for, ends of replacement lists passed on the way enable their macros, and disabled stays "has an unread end on the stack" |
| Expander.Engine.NextNonNl | cpp.cc:406-411 | newlines of the current level are skipped and nothing below it is touched |
| Expander.Engine.CollectArg | cpp.cc:1966-2053 | one argument is collected exactly as the specification cuts it off, without leaving the level it began in |
| Expander.Engine.CollectArgs | cpp.cc:1966-2053 | succeeds exactly when the specification does; arguments and the rest of the text agree, the disabled macros are unchanged |
| MacroArgs.CollectPartitions | cpp.cc:1966-2053 | one balanced argument per parameter, no top-level comma unless variadic, and joining the arguments with commas gives back what was read: kind, text and paint of every token, and white space where it stood or a line began, newlines and an omitted variadic comma aside |
| MacroArgs.CollectOneTakes | cpp.cc:2012-2017 | an argument is the tokens read, newlines aside: each keeps kind, text and paint, has white space before it exactly when it had or began a line, and begins none |
| MacroArgs.CollectGives | cpp.cc:1966-2053 | conversely every call with one balanced text for each parameter is collected into these texts; a variadic one takes commas too, or is left out with the comma in front of it |
| ExpansionLemmas.CollectClean | cpp.cc:1966-2053 | collected arguments hold plain tokens with matched parentheses |
| PasteFacts.PasteGives | cpp.cc:2243-2284 | in "p ## q" the last token of the first raw argument and the first of the second become what the lexer makes of the left spelling followed by the right one, with the white space of the left one |
| PasteFacts.PasteOrder | cpp.cc:2251-2253 | two one-token arguments come out as one token spelled left before right |
| PasteFacts.PasteThree | cpp.cc:2371-2392 | three operands are pasted from the left |
| PasteFacts.StringizeGives | cpp.cc:2196-2241 | "# p" is one token spelled from the raw argument, with the white space of the operator |
| PasteFacts.GnuCommaGives | cpp.cc:2342-2369 | in ", ## __VA_ARGS__" the comma goes exactly with an argument left out, or empty and the only one; otherwise both stay and nothing is pasted |
| PasteFacts.CommaPastes | cpp.cc:2342-2392 | in front of any other parameter the comma is pasted like every token |
| PasteFacts.NameFlags | cpp.cc:2451-2457 | the flags of the macro name go to the first token of the replacement, in addition to its own, and to no other |
| Placemarkers.SubstUnits | cpp.cc:2327-2458 | the scan agrees, errors included, with the replacement made unit by unit, where the operands of ## are raw arguments or tokens and an empty one gives way to the other (section 6.10.3.3), as long as no operand is lost; where that replacement exists it agrees only then. An operand is lost when a ## with only empty operands on its left meets one that is not empty, behind another token, or one that is no parameter |
| Placemarkers.ChainlessUnits | cpp.cc:2327-2458 | so it does for all arguments when no right operand of ## is the left one of another, # and the GNU comma included |
| Placemarkers.OperandLost | cpp.cc:2371-2405 | in "t a ## b ## c" with a and b empty it pastes c to t, which is no operand of ## |
| PasteErrors.SubstFailsIff | cpp.cc:1867-2458 | for the lists a #define accepts, a substitution fails exactly when the scan gets to a # or ## that makes no token or to a ## with nothing written before it and no parameter behind it; every other step is defined |
| PasteErrors.FrontIff | cpp.cc:2243-2392 | the scan gets to such a ## with nothing written exactly when only empty arguments stand in front of it |
| PasteErrors.FrontRead | cpp.cc:2243-2392 | it does in "x ## y ## z", which a #define accepts, with x and y empty and z no parameter |
| Substitution.SubstBalanced | cpp.cc:2327-2458 | whatever # and ## do, substitution keeps parentheses matched, or leaves no "(" unmatched, or keeps the tokens plain, when the list and the prescans do |
| Prescan.SubstSimultaneous | cpp.cc:2327-2446 | without # and ## all parameters are replaced at once, in place, and inserted tokens are not looked at again for parameters |
| Prescan.FindNormalUse | cpp.cc:2460-2478 | true exactly when some use of the parameter stands outside # and ## |
| Prescan.PreExpandIff | cpp.cc:2460-2478 | that is, with the list cut at it, one that has neither # nor ## before it nor ## behind it |
| Prescan.SkippingSoundIff | cpp.cc:2327-2478 | for every call that can be substituted, skipped prescans make no difference, among all plain ones or all with matched parentheses or none unmatched, if and only if going over the list, operators with their operands, gets to no parameter that is read without a normal use |
| Prescan.SkippedPrescanUnread | cpp.cc:2327-2478 | where that is so the replacement, or the error, is the same whatever skipped prescans would have given |
| Prescan.SimpleReads | cpp.cc:1867-1907 | it is so for every list without ## directly before # or ## |
| Prescan.SkippedPrescanRead | cpp.cc:2345-2478 | for "x ## # y" and "x ## ## y" with x empty a skipped prescan is read after all |
| Expander.Engine.Enter | cpp.cc:1712-1728 | a replacement goes on the stack with its end behind it, its macro is disabled, the invariant is kept |
| Expander.Engine.Expand | cpp.cc:2480-2528 | dealing with a name puts out, now or from the stack, what the recursive definition gives for it, and an error is reported exactly when that definition has one; an unknown or painted name stays as it is, the name of a disabled macro, object-like or not, is painted, and an enabled object-like one is replaced |
| Expander.Engine.Invoke | cpp.cc:2502-2511 | the same for a function-like name, which is put out when no parenthesis follows, across newlines and ends of lists |
| Expander.Engine.Call | cpp.cc:2510-2522 | a call is replaced by its substituted list on the stack with the arguments consumed, or fails exactly when collection, a prescan or the substitution does |
| Expander.Engine.PrescanArgs | cpp.cc:2512-2519 | exactly the arguments with a normal use are expanded, each as a text of its own |
| Expander.Engine.ExpandArg | cpp.cc:2286-2307 | the prescan of an argument is the recursive expansion of its tokens alone; stack, input and disabled macros are afterwards what they were |
| ExpansionLaws.TokenLaw | cpp.cc:2482-2498 | a token that no macro replaces is put out, painted exactly when it is the name of a macro being expanded, and expansion goes on behind it |
| ExpansionLaws.ObjectLaw | cpp.cc:2522-2527 | for the name of an object-like macro its list is expanded with the name hidden; then the name is no longer hidden, and a function-like name the list ended with is read again with the rest |
| ExpansionLaws.NameLaw | cpp.cc:2502-2509 | a function-like name with no "(" behind it, newlines aside, is put out |
| ExpansionLaws.WaitingLaw | cpp.cc:2502-2509 | at the end of its list or text it still waits |
| ExpansionLaws.CallLaw | cpp.cc:2510-2527 | a call with one balanced text for each parameter, newlines on both sides of the "(", is replaced by its list with the arguments put in, expanded like that of an object-like macro; arguments whose parameter stands free are prescanned, each as a text of its own; it fails exactly when a prescan or the substitution does |
| Expander.Engine.LineStep | cpp.cc:2174-2194 | one turn on a directive line puts out the next part of its expansion |
| Expander.Engine.ExpandLine | cpp.cc:2174-2194 | the line returned, and what is left, together are the expansion of the text, and it holds no newline; a line that ends alone gives exactly its own expansion, for object-like macros the textbook one, and the next lines are left unread |
| Lines.AloneAppend | cpp.cc:2174-2194 | a text whose expansion ends with no open call and no waiting name comes to the same in front of any other text |
| Lines.DealtRun | cpp.cc:2480-2528 | one step of the machine, given as a function of position and token, puts out what the remaining expansion begins with and leads to where the rest of it is left |
| Expander.Engine.ExpandText | cpp.cc:2677-2699 | from any state outside arguments, a token pushed back or not, the text up to a directive or the end of the file is put out fully expanded without its newlines, and then no macro is disabled; the text in front of the first directive, unless a call is open at its end, is expanded by itself, and reading stops right behind that # |
| Stack.RunKeep | cpp.cc:2482-2498 | a token that is not replaced is what the remaining expansion begins with; the name of a macro whose end is unread, function-like or not, is painted, any other token is unchanged |
| Stack.RunOpen | cpp.cc:2522-2527 | entering an object-like macro's list leaves the remaining expansion as it was |
| Stack.RunGiveUp | cpp.cc:2504-2509 | a function-like name without a parenthesis behind it is put out as it is |
| Stack.RunCall | cpp.cc:2510-2527 | entering a call's substituted list leaves the remaining expansion as it was |
| ExpansionLemmas.LevelKept | cpp.cc:2480-2528 | with matched parentheses in the lists the output has the profile of the text; without an unmatched "(" in them it leaves no more "(" unmatched than the text and no fewer ")"; plain lists give plain output |
| ExpansionLemmas.LevelDead | cpp.cc:2495-2498 | whatever a text becomes while macros are being expanded, every name of one of them in it, function-like or not, is painted (section 6.10.3.4, paragraph 2) |
| ExpansionLemmas.ExpandedExhausted | cpp.cc:2495-2498 | no unpainted object-like macro name is left in an expanded text |
| ObjectMacros.ExpandedIsReplaced | cpp.cc:2174-2194 | for object-like macros without ##, a # being an ordinary token there, the result is the textbook definition with a hidden set (section 6.10.3.4), and there is no error |
| ObjectMacros.ObjectLine | cpp.cc:2174-2194 | with object-like macros every line ends alone |
| ObjectMacros.ExpandedTwice | cpp.cc:2495-2498 | expanding an expanded text changes nothing |
| Unbalanced.NestsForever | cpp.cc:390-397 | with one unmatched "(" in one replacement list prescans nest to every depth, and when the next begins no macro is disabled |
| Unbalanced.TextNestsForever | cpp.cc:390-397 | the expansion of the text f((k)) comes to that: after its first call prescans nest to every depth |
| Unbalanced.TableProfiles | cpp.cc:390-397 | that table misses the condition by least: one list leaves one "(" unmatched, and all others match |
| Lexer.LexAll | lex.cc:352-447 | splice transparency: on every well-formed buffer the kinds and spellings are those of the reference lexer on the spliced text, and so is a lexical error |
| Lexer.Stream.Scan | lex.cc:352-447 | the next token, or the error, is that of the spliced text, with white space and comments in front |
| Lexer.Stream.Skip | lex.cc:28-36 | continuations at the current place are passed, and the text left is the same |
| Lexer.Stream.LexComment | lex.cc:70-98 | a comment ends where it ends in the spliced text, or is unterminated there too |
| Lexer.Stream.LexString | lex.cc:100-144 | the closing quote found is the one of the spliced text, over escapes that may be split by continuations |
| Lexer.Stream.LexPunct | lex.cc:146-296 | after all look-ahead and backtracking the punctuator taken is the reference one of the spliced text |
| Lexer.Stream.LexPercentColon | lex.cc:195-215 | "%:%:" is taken whole, otherwise the lexer goes back to behind "%:" |
| Lexer.Stream.LexIdent | lex.cc:298-322 | the identifier's name is the longest word of the spliced text |
| Lexer.Stream.LexNumber | lex.cc:324-350 | the preprocessing number is that of the spliced text |
| Lexer.Stream.Spell | token.cc:46-73 | the spelling is the token's text with the continuations deleted |
| Splices.SplicedRemains | lex.cc:28-36 | the spliced text is the characters outside all occurrences of backslash-newline, with or without a carriage return |
| LexFacts.BlockEnds | lex.cc:82-94 | a block comment ends with the first "*/" behind its opening, and is unterminated exactly when there is none |
| LexFacts.LineEnds | lex.cc:75-80 | a line comment ends in front of the first newline |
| LexFacts.CommentScanned | lex.cc:70-98 | a comment counts as white space: the next token is the one behind it, or the text is unterminated |
| LexFacts.NumberLongest | lex.cc:324-350 | the number taken is one by the productions of section 6.4.8, and no longer front part of the text is |
| LexFacts.QuoteEnds | lex.cc:100-144 | a literal ends with the first quote before which the backslashes pair off, with no newline before it, and is unterminated exactly when there is none |
| LexFacts.WordScanned | lex.cc:298-322 | a letter or underscore begins an identifier as long as letters, digits and underscores follow |
| LexFacts.NumberScanned | lex.cc:324-350 | a digit, or a point and a digit, begins the longest number of section 6.4.8 |
| LexFacts.LiteralScanned | lex.cc:100-144 | a quote begins a string or character constant up to its first open quote |
| LexFacts.PunctScanned | lex.cc:146-296 | any other graphic character begins the longest punctuator |
| LexFacts.PunctuatorsOnly | lex.cc:146-296 | the punctuators of more than one character are those of section 6.4.6 |
| LexFacts.Punctuators | lex.cc:146-296 | what each of them stands for |
| LexFacts.Assignments | lex.cc:146-296 | so for the assignment operators |
| LexFacts.Digraphs | lex.cc:146-296 | and the digraphs stand for what they replace |
| LexText.PunctLongest | lex.cc:146-296 | maximal munch: no longer prefix is a punctuator or digraph of section 6.4.6 |
| Spelling.Stringize | cpp.cc:2196-2241 | the text built is the escaped spellings joined by single spaces, in quotes |
| Spelling.StringizeRoundTripIff | cpp.cc:2196-2241 | for every argument the lexer can give, that text is read back as one string ending at its last quote, and without the added backslashes is the joined spellings, if and only if every backslash that is a token of its own is followed by white space or by a token that is neither a string nor another one |
| Spelling.StringizeRoundTrip | cpp.cc:2196-2241 | so it is for every argument with quotes and backslashes in literals only |
| Spelling.LexemeSpelling | lex.cc:352-447 | every token has the spelling asked for there: no newline, literals begin with their quote, elsewhere a quote or backslash is a token of its own |
| Spelling.LoneBackslash | cpp.cc:2196-2241 | the argument that is one backslash gives an unterminated string |
| Spelling.ParenNeverGlues | cpp.cc:2243-2284 | no token glued to a parenthesis, on either side, is one token |
| CondExpr.Arena.New | cpp.cc:870-880 | a node is appended, children before parents, unless 1024 are in use |
| CondExpr.Arena.Parse | cpp.cc:1101-1220 | node, end and error are those of the reference parser, but for a tree that does not fit the arena |
| CondExpr.Arena.Climb | cpp.cc:1167-1220 | the same for the loop over binary operators and ?: |
| CondGrammar.GrammarAccepted | cpp.cc:1101-1220 | every line the productions of sections 6.5.5 to 6.5.15 derive, their operators named level by level, is parsed to the tree of its derivation, all tokens consumed |
| CondGrammar.AcceptedIffDerived | cpp.cc:892-947 | a line is accepted with a tree exactly when these productions derive it with that tree |
| CondGrammar.ProducedIff | cpp.cc:892-947 | the priorities give each operator the level of its production |
| CondGrammar.Unambiguous | cpp.cc:892-947 | two derivations of one line have the same tree |
| CondGrammar.PrintParse | cpp.cc:892-947 | a tree printed with the fewest parentheses is parsed back |
| CondEval.EvalNode | cpp.cc:1224-1425 | evaluation on the arena ends and gives the value of the node's tree |
| CondEval.EvalLine | cpp.cc:1427-1446 | a line is decided by the value of its one tree, or rejected |
| CondEval.DerivedMeaning | cpp.cc:1427-1446 | a line the productions derive holds exactly when the value of the derivation's tree is not zero, and is rejected when it has none |
| CondEval.RingValue | cpp.cc:1224-1323 | under + - * and unary + - ~ the bits are the integer modulo 2^64, whatever the flags |
| CondEval.DivisionRefused | cpp.cc:1283-1305 | the division diagnostic comes exactly when the divisor is zero, or the dividend is and the divisor is signed; 0 / 5 is refused |
| CondOperators.Comparisons | cpp.cc:1342-1383 | a comparison is that of the integers the operands stand for, unsigned if one of them is |
| CondOperators.ComparisonUnsigned | cpp.cc:1342-1383 | its result counts as unsigned: -1 < (1 < 2) is false |
| CondOperators.Divisible | cpp.cc:1284-1305 | there is a quotient exactly when the divisor is not zero, the dividend not zero or the divisor unsigned, and no least number is divided by -1 |
| CondOperators.Quotient | cpp.cc:1284-1305 | dividend = quotient * divisor + remainder, the remainder smaller than the divisor and with the sign of the dividend |
| CondOperators.ShiftLeft | cpp.cc:1324-1332 | a left shift multiplies by the power of two, modulo 2^64 |
| CondOperators.ShiftRight | cpp.cc:1333-1341 | a right shift is the quotient by the power of two rounded down, negative operands included |
| CondOperators.BitByBit | cpp.cc:1384-1410 | &, ^ and | work on every bit by itself |
| CondOperators.Conjunction | cpp.cc:1262-1270 | the right operand of && counts only when the left one is not zero |
| CondOperators.Disjunction | cpp.cc:1262-1270 | that of || only when it is zero |
| CondOperators.Choice | cpp.cc:1415-1421 | ?: is the operand its condition selects |
| CondOperators.Negation | cpp.cc:1247-1251 | ! is 1 exactly for 0 |
| CondOperators.Failing | cpp.cc:1224-1425 | an operand without a value takes the value from the expression, that of the left one first |
| Conditionals.TakenSkipsRest | cpp.cc:1557-1617 | behind a group that was taken no condition is evaluated and nothing changes |
| Conditionals.FirstTrueGroup | cpp.cc:1557-1589 | exactly the first group whose condition holds is processed, with the conditions up to it evaluated and none behind |
| Conditionals.ElseGroup | cpp.cc:1591-1617 | when no condition holds the #else group is processed, or nothing |
| Conditionals.IfdefGroup | cpp.cc:1466-1555 | #ifdef processes its group exactly when the name is defined, #ifndef exactly when it is not, and the #else group otherwise |
| Conditionals.DefinedMeans | cpp.cc:2560-2626 | after #define the name has its list and every other name what it had |
| Conditionals.UndefinedMeans | cpp.cc:2628-2660 | after #undef it has none and every other name what it had |
| CondMachine.SkipItems | cpp.cc:835-868 | skipping passes nested sections whole |
| CondMachine.FlatSection | cpp.cc:1448-1647 | on the lines of an if-section the flat machine does what the nested meaning says and is back at its entry depth |
| CondMachine.FlatFile | cpp.cc:1448-1647 | on a whole file likewise, the recorded guard included |
| CondMachine.NestIff | cpp.cc:1448-1647 | a list of lines is read as a nested text exactly when it is its lines, and then it is the only one |
| CondMachine.AcceptedNested | cpp.cc:835-868 | what the flat machine accepts is the lines of a nested text, inside skipped groups too |
| CondMachine.FlatLines | cpp.cc:1448-1647 | on the lines of any file the machine does what their nested meaning says, or fails when they have none |
| CondReader.Context.DoDefine | cpp.cc:2560-2626 | a definition changes the table, the guard entries and nothing else as specified |
| CondReader.Context.DoUndef | cpp.cc:2628-2660 | so does #undef |
| CondReader.Stream.CondSkip | cpp.cc:835-868 | skipping stops at the part or end that belongs to the current conditional |
| CondReader.Stream.DoOpen | cpp.cc:1448-1555 | #if, #ifdef and #ifndef leave the outcome of the file unchanged, the guard candidate included, or fail exactly when the file does |
| CondReader.Stream.DoElif | cpp.cc:1557-1589 | so does #elif |
| CondReader.Stream.DoElse | cpp.cc:1591-1617 | so does #else |
| CondReader.Stream.DoEndif | cpp.cc:1619-1647 | so does #endif, which may record the guard |
| CondReader.Stream.DoInclude | cpp.cc:719-783 | an include has the specified effect, by the shortcut or by reading the file |
| CondReader.Stream.Read | cpp.cc:2677-2699 | reading a file, whatever its lines, has the effect of their nested meaning, or fails exactly when that does or they have none |
| IncludeGuards.DefinedTied | cpp.cc:2600-2617 | definitions keep every entry tied to a flagged macro last defined in the guarded file |
| IncludeGuards.UndefinedTied | cpp.cc:2645-2653 | so does #undef |
| IncludeGuards.RecordedTied | cpp.cc:1631-1643 | so does recording a guard whose macro was defined in the file |
| IncludeGuards.UndefStale | cpp.cc:2645-2653 | after #undef the entry survives, dangling, exactly when the macro was last defined in another file |
| IncludeGuards.RedefineStale | cpp.cc:2600-2611 | after a redefinition it survives, unusable, in exactly that case |
| IncludeGuards.StaleReached | cpp.cc:2645-2653 | three files, read with no macro defined and room for two includes, lead the run with the shortcut to an entry whose macro is freed, while the run without it ends well |
| IncludeGuards.ShortcutSound | cpp.cc:759-767 | where an entry still names its macro, reading the file again puts nothing out and changes no macro and no entry, whatever has become of other entries |
| IncludeGuards.ShortcutInvisible | cpp.cc:719-767 | at any depth and from any entries of the shape of guarded files, every run with the shortcut that ends well ends in the same state and output as the one without |
| IncludeGuards.NoFreedMacro | cpp.cc:719-767 | from entries that are tied, or none, no run fails for the shortcut when the one without ends well and records guards only for macros last defined in the guarded file |
| Probing.RoundUp | hash_table.cc:30-41 | the result is the least power of two not below x, and 0 exactly for 0 and above 2^31 |
| Bits.MaskIsRemainder | hash_table.cc:128-129 | masking with a power of two less one is the remainder |
| Probing.FreeStops | hash_table.cc:131-143 | with a free slot no probe goes all the way round |
| HashTable.Table.constructor | hash_table.cc:43-56 | an empty map with the capacity rounded up |
| HashTable.Table.Clear | hash_table.cc:81-86 | the empty map |
| HashTable.Table.DoLookup | hash_table.cc:122-147 | the probe ends at the live entry of the key or at a free slot; the tombstone returned is the first one on the way |
| HashTable.WalkDecides | hash_table.cc:122-147 | a probe that ends at a free slot shows the key unbound |
| HashTable.Table.TryResize | hash_table.cc:88-120 | the map is unchanged, there is room for another used slot, and growth doubles the capacity and drops the tombstones |
| HashTable.Table.Insert | hash_table.cc:149-184 | the key is bound to the value, all other bindings stay, and the value replaced is returned |
| HashTable.Table.Remove | hash_table.cc:186-197 | the key is unbound, all other bindings stay, and its value is returned |
| HashTable.Table.Lookup | hash_table.cc:199-204 | the bound value, or null |
| HashTable.FillStores | hash_table.cc:161-184 | filling a free slot or a tombstone on the probe adds one binding and keeps every entry reachable |
| HashTable.RemoveStores | hash_table.cc:192-195 | a tombstone takes one binding away and keeps every other entry reachable |
| HashTable.MoveNext | hash_table.cc:105-113 | while a table is moved the new one holds the live entries seen so far |
| StringPool.Pool.constructor | string_pool.cc:222-242 | the pool holds the empty string alone, as reference 0 |
| StringPool.Pool.Lookup | string_pool.cc:175-190 | the reference of the string, or 0 exactly when no non-empty one is there |
| StringPool.Pool.TryResize | string_pool.cc:192-220 | every reference is found in the table, doubled when it was full |
| StringPool.Pool.BufferNew | string_pool.cc:141-168 | the bytes and a descriptor are added and all earlier strings stay; None exactly when the buffer would be full |
| StringPool.RoomCheckIff | string_pool.cc:147-151 | the check for room is right exactly for the lengths with which the 32-bit sum does not wrap |
| StringPool.Pool.NewLen | string_pool.cc:255-281 | the reference of a string already there, or the next one, or exhaustion; the list of strings only grows by this one |
| StringPool.Pool.Access | string_pool.cc:288-304 | pointer, length and hash of a reference describe its string, NUL behind it |
| StringPool.Canonical | string_pool.cc:255-281 | in every run two references are equal exactly when the strings are, and 0 is the empty string's alone |
| StringPool.RunKeeps | string_pool.cc:255-281 | every reference of a run stands for its string to the end, and earlier ones stay |
| StringPool.ExhaustedIff | string_pool.cc:149-151 | a run exhausts the pool exactly when its distinct strings do not fit the buffer |
| Xxh3.Accumulate | xxhash.h:4968-4986 | a row of stripes with consecutive secret offsets |
| Xxh3.ConsumeStripes | xxhash.h:6696-6730 | stripes continue the run from any place in a block, scrambled at every block's end |
| Xxh3.HashLongLoop | xxhash.h:6272-6302 | blocks, rest and last stripe together are the long hash of the input |
| Xxh3.State.constructor | xxhash.h:6608-6633 | nothing taken yet |
| Xxh3.State.Update | xxhash.h:6741-6819 | the bytes taken so far are extended by the input, and buffer and accumulators stand for them |
| Xxh3.State.Digest | xxhash.h:6876-6892 | for every way of cutting the input, the digest is computed from what the one-shot hash computes it from |
| Xxh3.State.DigestLong | xxhash.h:6839-6874 | the accumulators are those of the long hash of all bytes taken |
| Xxh3.StripesConcat | xxhash.h:6696-6730 | runs of stripes can be cut anywhere |
| Xxh3.StripeOffsets | xxhash.h:6696-6730 | stripe n is mixed with the secret from 8 (n mod B) on, B = (S - 64) / 8 stripes to a block, and each block ends with a scramble at S - 64, S the size of the secret |
| Xxh3.LastOffset | xxhash.h:6272-6302 | the long hash takes all stripes that end before the last byte, then the last 64 bytes at S - 71; inputs up to 240 bytes are no long ones |
| Multiply.MultExact | xxhash.h:4583-4596 | no product and no partial sum overflows, and the two words are the exact product |

## Findings

- The rule that skips a prescan is not sound for every replacement list: in `x ## # y` and `x ## ## y` with x empty it
  leaves out a prescan that is read (`Prescan.SkippedPrescanRead`). `Prescan.SkippingSoundIff` gives the exact
  condition on the list; a list without `##` directly before `#` or `##` meets it.
- `0 / 5` is diagnosed as a division by zero in `#if` (`CondEval.DivisionRefused`).
- Comparisons, `&&` and `||` count as unsigned, so `-1 < (1 < 2)` is false in `#if`
  (`CondOperators.ComparisonUnsigned`).
- An include-guard entry whose macro was last defined in another file survives `#undef` and points to a freed macro
  (`IncludeGuards.UndefStale`). Three short files lead there (`IncludeGuards.StaleReached`); runs that record guards
  only for macros last defined in the guarded file never do (`IncludeGuards.NoFreedMacro`).
- With function-like macros in the table, an unmatched `(` in a replacement list can make expansion recurse without
  end (`Unbalanced.TextNestsForever`). Unmatched `)` are harmless, and so are all lists where every macro is
  object-like; for the profiles of the lists the condition is sharp (`Unbalanced.TableProfiles`).
- An argument with a backslash outside its literals stringizes to a string with its spelling exactly when every such
  backslash is followed by white space or by a token that is neither a string nor another such backslash: `\ "s"` and
  `\n` do, `\`, `\\` and `\"s"` do not (`Spelling.StringizeRoundTripIff`).
- In a chain of `##` whose operands so far are all empty the next operand is pasted to the token in front of the chain
  (`Placemarkers.OperandLost`). `Placemarkers.SubstUnits` gives the exact condition; it takes two `##` around one
  operand.
- A `##` with nothing written before it and no parameter behind it takes the token in front of the output array for its
  left operand: `x ## y ## z` with x and y empty (`PasteErrors.FrontRead`). It is reached exactly when only empty
  arguments stand in front of such a `##` (`PasteErrors.FrontIff`), and it is the only step of a substitution that is
  neither defined nor diagnosed (`PasteErrors.SubstFailsIff`).
- The check for room in the string pool is right exactly while the 32-bit sum of sizes does not wrap
  (`StringPool.RoomCheckIff`).

## Left out

- Expander.Engine.constructor: demands that no list leave a `(` unmatched when there are function-like macros. The
  condition looks at the profiles of the lists only; lists whose unmatched `(` no name ever comes to stand before are
  harmless too, and are outside.
- Expander.Engine.ExpandText: the macro table is fixed while text is expanded, and a directive only ends the call.
- Expander.Engine.Expand: built-in macros, and with them `defined` and the flag that lets it be read, are not
  modelled.
- Placemarkers.SubstUnits: what `##` and `#` make of spellings is a parameter; a `##` with nothing written before it is
  an error in the model. Behind `##` a `#` is an ordinary operand, as it is in the program, and not an operator.
- Lexer.LexAll: kinds, spellings and preceding white space only; line numbers, the beginning-of-line flag, header
  names in angle brackets outside `LexString`, and the fixed sizes of scratch buffers are not modelled.
- Lexer.Stream.Scan: likewise no line numbers and no beginning-of-line flag.
- Lexer.Stream.LexNumber: the flag of a floating constant, which the loop also sets, is not modelled.
- CondExpr.Arena.Parse: numbers and character constants arrive as values or as malformed; an identifier is the value
  0.
- CondEval.EvalNode: shifts by 64 or more and the quotient of the least number by -1 are undefined, as in C.
- CondReader.Context.DoDefine: parameters, and whether there are any, are part of the one string a definition is.
- CondReader.Context.DoUndef: the ban on undefining `defined` and tokens behind the name are lines diagnosed as bad.
- CondReader.Stream.DoOpen: so are tokens behind the name of `#ifdef` and `#ifndef`.
- CondReader.Stream.DoInclude: a file is its path, where the program compares size, device and inode.
- CondReader.Stream.Read: works on lines; that a macro call at the end of a directive line or of a text line may take
  its arguments from the lines that follow, directives among them, is not modelled there.
- HashTable.Table.Insert: keys are not 0 and values neither null nor the tombstone, capacities do not pass 32 bits,
  and memory does not run out.
- StringPool.Pool.NewLen: lengths with which the 32-bit sum of sizes wraps, where the check for room is wrong, are
  outside.
- StringPool.Pool.BufferNew: likewise.
- Xxh3.State.Update: the stripe and scramble steps are uninterpreted and the length does not pass 64 bits; the short
  hashes and the vector variants are not modelled.
- Built-in macros, `defined`, `#pragma`, `#error`, `#warning`, `#line`, include path search and command line.
- Files, memory mapping, diagnostics' texts, token printing, free lists and allocation.
- Whether the values and types of `#if` expressions agree with the standard; the model follows the program.

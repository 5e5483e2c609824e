# Verified models of a Ragnarok Online character server

This project models the algorithms and state machines of the character server and of the libconfig
library it carries, and proves what they keep, compute or undo. `dafny verify dfyconfig.toml` checks
everything.

| modules | what they model |
|---|---|
| `LalrTables`, `LalrItems`, `Parser`, `Grammar`, `Completeness`, `ParserSafety`, `TreeBuilding` | the table-driven LALR(1) parser of configuration files: its packed tables, its driver, its semantic actions, and the language and trees they define |
| `Options`, `ConfigTree`, `ConfigOps`, `Growth` | the shared option type; settings as a caller sees them and as linked nodes, and the calls that grow them |
| `Scanner`, `ScannerProps`, `Lexemes`, `Writer`, `WrittenText`, `RoundTrip`, `Rebuild`, `ConfigFile` | scanning, writing, what the texts mean, and the round trip between a tree and its text |
| `ConfigIO`, `TextStreams` | the loops of driver, scanner and writer on mutable state |
| `ConfigLookup`, `ConfigCopy` | lookup by path and deep copy |
| `ItemSave`, `QuestSave` | saves that compare with the stored rows and write only differences |
| `Party` | level range, online count and even sharing of experience, kept incrementally |
| `FameRanking` | the bounded ranking updated in place |
| `Totals`, `Ledger` | auctions and mail as one ledger of money and items |
| `Guild` | the round-robin save timer and the level-up loop |
| `Whisper`, `Registry` | the whisper protocol between map-servers, and the packing of account variables |
| `Des`, `DesStandard`, `Pincode` | the one-round DES variant, its tables held against FIPS 46-3, and the pincode shuffle |

Each imperative method is proved against a specification on values (`Parse`, `Lex`, `ValueText`,
`Wanted`, `Reported`, `Tick`, `Step`, `Unpack`, ...) or an invariant of its class (`Sound`, `Accurate`,
`Open`), and the lemmas are about those. A settings heap is a sequence of nodes and a pointer an index
into it. SQL tables are maps; each statement may fail where the model says so.

Places where the code and its surroundings disagree, and the model follows the code:

- Not every tree that can be built and written is read back: a setting may be called `true` or `false`, in
  any case, where the scanner prefers the boolean rules; a bool may hold another number than 0 and 1; an
  array may mix types; and a tree may be too deep for the parser's stack (`ConfigFile.WriteThenReadExactly`,
  `ConfigFile.TrueIsNotReadBack`, `ConfigFile.TwoIsReadBackAsOne`, `ConfigFile.MixedArrayIsNotReadBack`,
  `ConfigFile.DeepListIsNotReadBack`).
- A path ending in a bare `[` resolves to the setting before it (`ConfigLookup.MissingStep`).
- Copying a setting reports success even if the destination refuses its name, and copies an unnamed
  setting into an empty group (`ConfigCopy.Config.Copy`).
- If the stored quests cannot be loaded, a save can be acknowledged although old quests stay behind
  (`QuestSave.QuestTable.Save`, `QuestSave.SevenStays`).
- A party member whose level jumps over a bound, and a parent whose level falls below 70, can go unnoticed
  (`Party.Party.ChangeMap`, `Party.JumpGoesUnnoticed`, `Party.FamilyIsLost`).
- Account 0 can leave a party through an unused slot (`Party.Party.Leave`, `Party.NobodyLeaves`).
- A falling fame report can break the order, hide a listed player or list one whom an unlisted one beats
  (`FameRanking.RanksExactly`, `FameRanking.FallBreaksOrder`, `FameRanking.FallHides`,
  `FameRanking.FallBreaksTop`).
- `des_decrypt` never advances its block pointer (`Des.Decrypt`).

## Model

| member | source | states |
|---|---|---|
| `LalrTables.TablesDecode` | 3rdparty/libconfig/grammar.c:449-649 | For every state and lookahead, unpacking the packed tables the way the driver does gives exactly the readable automaton `Decoded`. |
| `LalrTables.GotoTargets` | 3rdparty/libconfig/grammar.c:449-649 | Whatever state a reduction uncovers, the packed goto table leads to a state that the nonterminal labels. |
| `LalrItems.ShiftEnters` | 3rdparty/libconfig/grammar.c:449-649 | A shift leads to a state labelled by the token shifted, along an edge of the automaton. |
| `LalrItems.ItemBack` | 3rdparty/libconfig/grammar.c:449-649 | Walking an edge backwards moves the dot of a rule one symbol back: the tables belong to the grammar. |
| `LalrItems.ItemForward` | 3rdparty/libconfig/grammar.c:449-649 | Where a rule expects a symbol, the automaton has the edge for it and the dot moves on. |
| `LalrItems.EndOfRuleReduces` | 3rdparty/libconfig/grammar.c:449-649 | With a rule complete, every lookahead that cannot clash makes the driver reduce by that rule. |
| `Parser.StepProgress` | 3rdparty/libconfig/grammar.c:1307-1454 | Every turn consumes a token or lowers the rank of the top state: finitely many reductions separate two shifts, so the driver terminates on every input. |
| `Parser.RunShift` | 3rdparty/libconfig/grammar.c:1384-1444 | A shift pushes state and value, drops the lookahead and leaves the outcome of the run unchanged. |
| `Parser.RunReduce` | 3rdparty/libconfig/grammar.c:1460-1810 | A reduction runs the action of its rule; the run goes on from the shortened stacks, or ends as the action says. |
| `Grammar.AcceptedIsDerivable` | 3rdparty/libconfig/grammar.c:1307-1454 | Soundness: only token lists with a derivation in the grammar are accepted. |
| `Grammar.StepExplains` | 3rdparty/libconfig/grammar.c:1307-1454 | Every turn keeps a forest of derivations in step with the stacks without changing what has been read. |
| `Grammar.StackSpells` | 3rdparty/libconfig/grammar.c:449-649 | A state with the dot inside a rule has the symbols before the dot on the stack, above a state where the rule starts. |
| `Completeness.ParseFollowsDerivation` | 3rdparty/libconfig/grammar.c:1307-1454 | For any derivation of the input that fits the stack the driver computes what its actions compute in order; one too deep is never accepted. |
| `Completeness.AcceptedExactly` | 3rdparty/libconfig/grammar.c:1307-1454 | A token list is accepted if and only if some derivation of it fits the stack and all its actions succeed. |
| `Completeness.DeepDerivation` | 3rdparty/libconfig/grammar.c:1319-1376 | A derivation that needs more room than the stack limit ends the run before acceptance. |
| `ParserSafety.ParseNeverCrashes` | 3rdparty/libconfig/grammar.c:1476-1784 | For every token list no action follows a null or dangling `ctx->parent` or `ctx->setting`, and no reduction pops below the stack. |
| `ParserSafety.ActionInPlace` | 3rdparty/libconfig/grammar.c:1476-1784 | In the place the automaton puts them, the actions find the parent, the setting and the token values they rely on. |
| `TreeBuilding.ParseBuildsTree` | 3rdparty/libconfig/grammar.c:1476-1784 | Parsing a derivable file stores exactly the tree it denotes, or reports an error exactly when that tree repeats a name or mixes types in an array. |
| `TreeBuilding.AcceptedWhenWellFormed` | 3rdparty/libconfig/grammar.c:1307-1454 | A token list is accepted if and only if some derivation of it fits the stack and denotes a tree without repeated names and mixed arrays: acceptance on the language alone. |
| `TreeBuilding.ExecItems` | 3rdparty/libconfig/grammar.c:1476-1784 | Evaluating a list of settings or elements appends exactly those items in order below the open aggregate, or gives up when one does not fit. |
| `TreeBuilding.ExecValue` | 3rdparty/libconfig/grammar.c:1476-1784 | Evaluating a value after a name gives the new setting exactly that value and restores the parent. |
| `TreeBuilding.ExecScalar` | 3rdparty/libconfig/grammar.c:1555-1753 | A scalar goes into the open array or list, else into the setting just named. |
| `TreeBuilding.StringsJoin` | 3rdparty/libconfig/grammar.c:1555-1567 | Strings that stand next to each other in a file mean their concatenation, in order. |
| `ConfigOps.FindChildByName` | 3rdparty/libconfig/libconfig.c:413-438 | Among proper names the search finds a child exactly when one bears the name, and then that one. |
| `ConfigOps.AppendOrdered` | 3rdparty/libconfig/libconfig.c:755-782 | Creating a child keeps the heap well ordered: pointers stay inside, children are younger than parents. |
| `Growth.GrownChildren` | 3rdparty/libconfig/libconfig.c:755-782 | Appending below a node adds the new trees behind the old children, which keep their trees. |
| `Growth.GrownTwice` | 3rdparty/libconfig/libconfig.c:755-782 | Two growths in a row add both lists in order. |
| `ConfigTree.TreeFrame` | 3rdparty/libconfig/libconfig.c:755-782 | A tree stored in untouched nodes is the same tree. |
| `ConfigIO.ParseContext.Begin` | 3rdparty/libconfig/grammar.c:1478-1495 | On a name the setting is added below the parent, or parsing aborts with the duplicate message. |
| `ConfigIO.ParseContext.Open` | 3rdparty/libconfig/grammar.c:1497-1514 | An opening bracket adds an aggregate to a list or turns the current setting into one, and makes it the parent. |
| `ConfigIO.ParseContext.Close` | 3rdparty/libconfig/grammar.c:1516-1524 | A closing bracket returns to the parent of the parent. |
| `ConfigIO.ParseContext.Put` | 3rdparty/libconfig/grammar.c:1569-1753 | A scalar becomes an element of the open vector, refused on a type mismatch, or the value of the setting. |
| `ConfigIO.ParseContext.Apply` | 3rdparty/libconfig/grammar.c:1476-1784 | Each rule runs the action the value-level specification `Act` gives it. |
| `ConfigIO.ParseContext.ReduceBy` | 3rdparty/libconfig/grammar.c:1460-1810 | One reduction on the real stacks preserves the outcome of the run and makes progress. |
| `ConfigIO.ParseContext.YyParse` | 3rdparty/libconfig/grammar.c:1264-2001 | The driver loop with its stacks, lookahead and growing stack size answers as the specification `Parse` and never follows a bad pointer. |
| `ConfigIO.Recover` | 3rdparty/libconfig/grammar.c:1872-1944 | No state shifts the error token, so error recovery always gives up. |
| `ConfigIO.ReadConfig` | 3rdparty/libconfig/libconfig.c:553-616 | Scanning and then parsing a text yields what `Read` says, and the configuration it builds on success; what the scanner makes of each spelling is in the rows of `Lexemes`. |
| `ScannerProps.LongestMatch` | 3rdparty/libconfig/scanner.c:966-1208 | The prefix chosen is matched by some rule, and no longer one is. |
| `ScannerProps.LongestIs` | 3rdparty/libconfig/scanner.c:966-1208 | When a prefix matches and no longer one does, it is the match chosen. |
| `ScannerProps.LongMatches` | 3rdparty/libconfig/scanner.c:966-1208 | Every match of two or more characters is a word, a number, blanks, an include or a comment. |
| `ScannerProps.LexWord` | 3rdparty/libconfig/scanner.c:966-1208 | A word followed by a character that cannot continue it is scanned as exactly one token. |
| `Lexemes.HexMeans` | 3rdparty/libconfig/scanner.c:1158-1165 | 0x or 0X and digits of either case, in any mixture, scan to one token with the number they spell, cut to 32 bits; whatever follows that no longer spells a number is scanned next. |
| `Lexemes.Hex64Means` | 3rdparty/libconfig/scanner.c:1166-1170 | The same with the suffix L or LL: the number cut to 64 bits. |
| `Lexemes.DecimalMeans` | 3rdparty/libconfig/scanner.c:1148-1152 | An optional sign and decimal digits within 32 bits scan to the number they spell. |
| `Lexemes.Decimal64Means` | 3rdparty/libconfig/scanner.c:1153-1157 | The same with the suffix L or LL, within 64 bits. |
| `Lexemes.FloatMeans` | 3rdparty/libconfig/scanner.c:1143-1147 | Digits around a point scan to one float token. |
| `Lexemes.ExponentMeans` | 3rdparty/libconfig/scanner.c:1143-1147 | Digits with or without a point, a mark e or E and a signed exponent scan to one float token. |
| `Lexemes.BooleanMeans` | 3rdparty/libconfig/scanner.c:1128-1137 | true and false in any mixture of cases scan to the booleans 1 and 0. |
| `Lexemes.NameMeans` | 3rdparty/libconfig/scanner.c:1138-1142 | Any other proper name scans to itself. |
| `Lexemes.MarkMeans` | 3rdparty/libconfig/scanner.c:1097-1208 | Every punctuation mark scans to its token. |
| `Lexemes.GarbageMeans` | 3rdparty/libconfig/scanner.c:1204-1208 | A character with which nothing begins scans to a token no rule takes. |
| `Lexemes.SignMeans` | 3rdparty/libconfig/scanner.c:1204-1208 | So does a sign before anything but a number. |
| `Lexemes.BlanksSkipped` | 3rdparty/libconfig/scanner.c:1103-1107 | Blanks mean nothing, unless they lead up to an include. |
| `Lexemes.BreakSkipped` | 3rdparty/libconfig/scanner.c:1097-1102 | Line breaks of all kinds mean nothing; only behind a line feed a line begins. |
| `Lexemes.BlockCommentSkipped` | 3rdparty/libconfig/scanner.c:966-986 | From /* to the first */ everything is skipped, and scanning goes on right behind it. |
| `Lexemes.OpenCommentSkipped` | 3rdparty/libconfig/scanner.c:971-986 | A comment that is never closed skips the rest of the file. |
| `Lexemes.LineCommentSkipped` | 3rdparty/libconfig/scanner.c:1196-1203 | A # or // comment is skipped up to the end of its line, and scanning goes on there. |
| `Lexemes.StringMeans` | 3rdparty/libconfig/scanner.c:992-1050 | A quoted text of plain characters, escapes, hexadecimal codes and stray backslashes, in any order, scans to the text they mean. |
| `TextStreams.TokenSource.YyLex` | 3rdparty/libconfig/scanner.c:966-1208 | Each call returns the first token still pending and leaves the rest pending; no token means none is left. |
| `TextStreams.TokenSource.InitialRule` | 3rdparty/libconfig/scanner.c:1097-1208 | One match in the initial state: longest match, earliest rule, true and false before names; the values of the tokens are pinned by `Lexemes.HexMeans` and its neighbours. |
| `TextStreams.TokenSource.StringRule` | 3rdparty/libconfig/scanner.c:992-1050 | One match inside a string collects its text, escapes decoded, or closes the token. |
| `TextStreams.TokenSource.CommentRule` | 3rdparty/libconfig/scanner.c:971-986 | One match inside a comment skips it or ends it; where comments end is pinned by `Lexemes.BlockCommentSkipped` and `Lexemes.OpenCommentSkipped`. |
| `TextStreams.ScanAll` | 3rdparty/libconfig/scanner.c:966-1208 | Calling the scanner to the end yields the specified list of tokens, whose meaning the rows of `Lexemes` state on the text. |
| `TextStreams.Stream.WriteString` | 3rdparty/libconfig/libconfig.c:248-294 | A string is written in quotes with every character escaped as specified. |
| `TextStreams.Stream.WriteValue` | 3rdparty/libconfig/libconfig.c:170-394 | A stored value is written as its tree is specified to look, aggregates recursively. |
| `TextStreams.Stream.WriteElements` | 3rdparty/libconfig/libconfig.c:296-352 | Elements are written in order, each with a comma unless it is the last, and with a blank. |
| `TextStreams.Stream.WriteSetting` | 3rdparty/libconfig/libconfig.c:634-656 | A setting is indented, named, valued and closed as specified. |
| `TextStreams.WriteConfig` | 3rdparty/libconfig/libconfig.c:660-667 | Writing a stored configuration produces the specified text of its tree. |
| `WrittenText.FileMeans` | 3rdparty/libconfig/libconfig.c:660-667 | A written file is its settings, one behind the other. |
| `WrittenText.TopLevelMeans` | 3rdparty/libconfig/libconfig.c:634-656 | On the first level a setting is name, equals sign, value and semicolon on a line; a group has a colon and unindented braces on lines of their own. |
| `WrittenText.GroupMeans` | 3rdparty/libconfig/libconfig.c:354-392 | Below the first level name and braces of a group are indented by one step less than their depth. |
| `WrittenText.ScalarMeans` | 3rdparty/libconfig/libconfig.c:634-656 | Below the first level any other named scalar is indented, named and closed on a line of its own. |
| `WrittenText.ElementsMean` | 3rdparty/libconfig/libconfig.c:296-352 | One more element behind others adds a comma, a blank and its own text before the blank that ends the last one. |
| `WrittenText.ElementAlone` | 3rdparty/libconfig/libconfig.c:296-352 | Arrays and lists without elements are their brackets; a single element stands between them with a blank on either side. |
| `WrittenText.ScalarTexts` | 3rdparty/libconfig/libconfig.c:178-222 | How booleans and numbers are written: words, a sign for negative numbers only, 0x and upper case for hexadecimal ones, L for 64 bits. |
| `WrittenText.DigitsMean` | 3rdparty/libconfig/libconfig.c:183-219 | Digits are in upper case and without leading zeros. |
| `WrittenText.CharacterMeans` | 3rdparty/libconfig/libconfig.c:258-288 | Quotes, backslashes and control characters are escaped, each in its way, and nothing else is. |
| `WrittenText.IndentIs` | 3rdparty/libconfig/libconfig.c:156-166 | Indentation is a tab width of blanks per level, or a tab per level when the width is zero. |
| `RoundTrip.DigitsBack` | 3rdparty/libconfig/libconfig.c:183-219 | A number printed in base 10 or 16 reads back as itself. |
| `RoundTrip.StringBack` | 3rdparty/libconfig/scanner.c:992-1050 | An escaped string reads back as itself, for every character but NUL. |
| `RoundTrip.LexValue` | 3rdparty/libconfig/libconfig.c:170-394 | Scanning the text of any writable value, whatever follows, gives its tokens and then the rest. |
| `RoundTrip.LexConfig` | 3rdparty/libconfig/libconfig.c:634-667 | Scanning a written configuration gives exactly the tokens of its tree. |
| `Rebuild.ValueDerivation` | 3rdparty/libconfig/grammar.c:449-649 | The tokens of a well-formed value have a derivation that denotes that value. |
| `Rebuild.ConfigDerivation` | 3rdparty/libconfig/grammar.c:449-649 | The tokens of a well-formed configuration have a derivation that denotes it. |
| `ConfigFile.WriteThenRead` | 3rdparty/libconfig/libconfig.c:170-394 | Writing a configuration without floats and reading the text gives the same tree: names, types, formats, strings, nesting; unless the tree is too deep for the parser stack, and then the text is rejected. |
| `ConfigFile.ReadWriteRead` | 3rdparty/libconfig/libconfig.c:553-616 | Whatever text was accepted, writing its configuration and reading it again gives the same configuration, unless it holds a float. |
| `ConfigFile.WriteThenReadExactly` | 3rdparty/libconfig/libconfig.c:634-656 | Any tree without floats survives writing and reading if and only if it is an unnamed group, proper distinct names and arrays of one type throughout, with bools 0 or 1, numbers and strings that C holds, no name that scans as a boolean, and not too deep for the parser stack. |
| `ConfigFile.TrueIsNotReadBack` | 3rdparty/libconfig/scanner.c:1128-1142 | A concrete tree with a setting called true: it can be written and is not read back. |
| `ConfigFile.TwoIsReadBackAsOne` | 3rdparty/libconfig/libconfig.c:1084-1093 | A bool setting that was given the number 2 is written as true and read back as 1. |
| `ConfigFile.MixedArrayIsNotReadBack` | 3rdparty/libconfig/libconfig.c:1524-1546 | An array of a number and a string, as elements added without a type check make it, is written and not read back. |
| `ConfigFile.DeepListIsNotReadBack` | 3rdparty/libconfig/grammar.c:1319-1376 | A number inside nested lists can be written at any depth, and is read back exactly up to depth 4996. |
| `ConfigFile.ConfigRoom` | 3rdparty/libconfig/grammar.c:1319-1376 | The parser stack that a written configuration takes, computed from the tree alone. |
| `ConfigFile.ReadIsClean` | 3rdparty/libconfig/libconfig.c:553-616 | What is read from any text is an unnamed, well-formed group with proper names, values within their C types and strings without NUL. |
| `ConfigFile.ConfigNeed` | 3rdparty/libconfig/grammar.c:917-930 | Every derivation of a written configuration takes no more stack than the one the tree gives. |
| `ConfigLookup.NameCompare` | 3rdparty/libconfig/libconfig.c:130-152 | Name comparison orders texts, as signed characters, up to their first path separator, and says equal exactly when those parts are equal. |
| `ConfigLookup.PrecedesMeans` | 3rdparty/libconfig/libconfig.c:130-152 | Characters are ordered as signed bytes. |
| `ConfigLookup.LookupFrom` | 3rdparty/libconfig/libconfig.c:1142-1171 | The pointer-advancing scan terminates and finds what the specification of lookup finds. |
| `ConfigLookup.IndexMeans` | 3rdparty/libconfig/libconfig.c:1142-1171 | An index may have white space and a sign before its digits and anything behind them; a negative one wraps around at 2^32. |
| `ConfigLookup.LookupResolves` | 3rdparty/libconfig/libconfig.c:1142-1171 | Looking up a path text resolves its steps one by one, for any separators between them. |
| `ConfigLookup.PathFindsNode` | 3rdparty/libconfig/libconfig.c:1142-1171 | In a well-formed tree the path of names and indices written for any setting leads back to that very setting. |
| `ConfigLookup.MissingStep` | 3rdparty/libconfig/libconfig.c:1142-1171 | A step that finds nothing fails the lookup, except a bare bracket at the very end of the path. |
| `ConfigCopy.Config.Add` | 3rdparty/libconfig/libconfig.c:1524-1546 | Adding a setting in place: refused for bad or taken names and non-aggregates, else a new last child. |
| `ConfigCopy.Config.FindMember` | 3rdparty/libconfig/libconfig.c:413-438 | The search loop returns the first child whose name compares equal. |
| `ConfigCopy.Config.AddElement` | 3rdparty/libconfig/libconfig.c:1259-1286 | An element is appended to an array of its type or to a list, and refused otherwise. |
| `ConfigCopy.Config.CopySimple` | src/common/conf.cpp:28-53 | Copying a setting into a group or list adds its tree, or changes nothing when the name is refused. |
| `ConfigCopy.Config.CopyElem` | src/common/conf.cpp:55-74 | Copying an element adds its tree behind the others. |
| `ConfigCopy.Config.CopyAggregate` | src/common/conf.cpp:76-95 | Copying an aggregate copies all its children in order, at every depth. |
| `ConfigCopy.Config.Copy` | src/common/conf.cpp:97-108 | A deep copy appends a tree equal to the source and leaves source and older children alone; a refused name goes unreported; every well-formed tree in the heap, the ones around the destination included, stays well formed. |
| `Growth.GrownWellFormed` | 3rdparty/libconfig/libconfig.c:755-782 | Adding items that fit keeps every well-formed tree in the heap well formed, the ones around the place included. |
| `ConfigTree.WellFormedGroup` | 3rdparty/libconfig/libconfig.c:1524-1546 | A group is well formed exactly when its names are proper and distinct and its values well formed. |
| `ConfigTree.WellFormedArray` | 3rdparty/libconfig/libconfig.c:509-528 | An array is well formed exactly when its elements are unnamed scalars of one type. |
| `ConfigTree.CharacterCodes` | 3rdparty/libconfig/libconfig.c:532-550 | Which characters names begin with and consist of, and which separate them in paths, by code. |
| `ConfigTree.SameScalarKind` | 3rdparty/libconfig/libconfig.c:509-528 | Two values are of one type exactly when they are both booleans, both 32-bit numbers, both 64-bit numbers, both floats or both strings. |
| `ItemSave.ItemTable.Save` | src/char/char.cpp:551-761 | Without SQL errors the owner has, for any item one looks for field by field, as many rows of it as there are occupied slots with it (`favorite` counts in the inventory only), as deleting and inserting everything would; other owners are untouched always; per key exactly the surplus rows are deleted and the surplus items inserted. |
| `ItemSave.ItemTable.SaveTwice` | src/char/char.cpp:639-754 | A repeated save of the same items issues no DELETE and no INSERT. |
| `ItemSave.ItemTable.SaveRows` | src/char/char.cpp:639-712 | The loop over the rows keeps the flagged items and the contents of the rows dealt with in step. |
| `ItemSave.ItemTable.SaveRow` | src/char/char.cpp:641-711 | One row is matched with the first free item of its key, which is written out, and an UPDATE is issued exactly where a stored field differs; or it is deleted. |
| `ItemSave.ItemTable.FindSame` | src/char/char.cpp:642-655 | The first occupied, unflagged item with the key of the row, or none. |
| `ItemSave.ReplacedContents` | src/char/char.cpp:586-589 | The reference: deleting and inserting everything stores exactly the occupied slots and leaves other owners alone, whatever is compared. |
| `ItemSave.ReplacedStores` | src/char/char.cpp:586-589 | The same counted row by row with the stored fields written out. |
| `ItemSave.StoresWanted` | src/char/char.cpp:661-681 | Equal multisets of columns mean as many rows as slots of each item, compared field by field. |
| `ItemSave.SameKey` | src/char/char.cpp:649-653 | Two items are taken for the same exactly when number, three of the cards and unique id agree. |
| `ItemSave.FreeLeft` | src/char/char.cpp:642-655 | An unflagged item of a key remains exactly when fewer are flagged than wanted. |
| `ItemSave.GreedyMatched` | src/char/char.cpp:643-697 | Matching one more row keeps the number of matches per key the smaller of rows seen and items wanted. |
| `ItemSave.GreedyUnmatched` | src/char/char.cpp:699-706 | A row without match is surplus, and the matching stays the largest possible. |
| `ItemSave.SyncMatched` | src/char/char.cpp:643-697 | Flagging an item whose contents the row now holds keeps rows and flags in step. |
| `ItemSave.SyncDeleted` | src/char/char.cpp:699-706 | Deleting a row keeps rows and flags in step. |
| `ItemSave.FreeStock` | src/char/char.cpp:714-754 | Inserting the items left free completes the owner's rows. |
| `ItemSave.FreeKeys` | src/char/char.cpp:723-754 | The items inserted are, per key, those wanted beyond the rows there were. |
| `QuestSave.QuestTable.Save` | src/char/int_quest.cpp:138-179 | An acknowledged save after a successful load leaves exactly the new ids, with new states and counts and the stored time of known quests; without database faults it is acknowledged exactly when the ids are distinct; an acknowledged save after a failed load has added the whole new log beside the old quests, so it leaves the new log exactly if there were none; other characters are untouched. |
| `QuestSave.HoldsMeans` | src/char/int_quest.cpp:97-129 | What an acknowledged save leaves, field by field: state and counts of the new log, the time that was stored or, if the quest is new, the one in the log. |
| `QuestSave.LeftoversStay` | src/char/int_quest.cpp:138-179 | Adding a log beside the stored quests gives that log exactly when the character had none stored. |
| `QuestSave.SevenStays` | src/char/int_quest.cpp:138-179 | A concrete log and table for which an acknowledged save after a failed load leaves an old quest. |
| `QuestSave.QuestTable.SaveOne` | src/char/int_quest.cpp:148-163 | One quest of the new log is updated if listed, and then leaves the list, or added. |
| `QuestSave.QuestTable.Load` | src/char/int_quest.cpp:26-78 | The loaded list holds each stored quest of the character once. |
| `QuestSave.FindQuest` | src/char/int_quest.cpp:149 | The first position holding the id, or the end when none does. |
| `QuestSave.Compact` | src/char/int_quest.cpp:156-160 | Moving the entries behind a position forward removes exactly that entry. |
| `QuestSave.LeftTaken` | src/char/int_quest.cpp:156-160 | After compaction the list still holds exactly the stored quests the new log has not named. |
| `QuestSave.MergingOne` | src/char/int_quest.cpp:148-163 | Giving one more id its merged row keeps named rows merged and the others as stored. |
| `QuestSave.AddMerges` | src/char/int_quest.cpp:161-162 | An insert that finds its key taken means the new log repeats an id. |
| `QuestSave.DeleteStep` | src/char/int_quest.cpp:165-166 | Deleting one leftover keeps the rows of the new log and brings the leftovers down. |
| `Party.Party.FindRange` | src/char/int_party.cpp:40-56 | The bounds are the least and greatest level online, or the empty range. |
| `Party.Party.CheckLv` | src/char/int_party.cpp:40-63 | Bounds are recomputed, and even sharing is switched off exactly when it is no longer allowed. |
| `Party.Party.CalcState` | src/char/int_party.cpp:65-112 | Everything is recomputed: count, size, bounds, family, and sharing only if allowed. |
| `Party.CountsMean` | src/char/int_party.cpp:65-112 | Online count and size are the numbers of slots whose member is online, and of slots with a level. |
| `Party.Party.CheckFamilyShare` | src/char/int_party.cpp:307-341 | The family rule holds exactly when all parents are online, on the child's map and at level 70 or more. |
| `Party.Party.CheckExpShare` | src/char/int_party.cpp:344-346 | Sharing is allowed when fewer than two are online, the unsigned range fits, or the family rule holds; for an accurate party: exactly when no two members are online, any two online are at most the share level apart, or the family rule holds. |
| `Party.SpreadFits` | src/char/int_party.cpp:344-346 | With somebody online, the difference of the bounds fits the share level exactly when that of any two members online does. |
| `Party.Party.ShareSoundMeans` | src/char/int_party.cpp:57-61 | What every handler keeps, stated on the members: even sharing is on only without two members online, among members close in level, or in a family. |
| `Party.FamilyShareMeans` | src/char/int_party.cpp:307-341 | The family rule on the members: everybody but the child is online, on the map of the child and at level 70 or more. |
| `Party.Party.constructor` | src/char/int_party.cpp:504-555 | A new party has its leader online in the first slot, accurate fields and no even sharing. |
| `Party.Party.FromSql` | src/char/int_party.cpp:237-258 | A party loaded from the database is accurate, with sharing kept only if allowed. |
| `Party.Party.AddMember` | src/char/int_party.cpp:569-604 | What is added goes into a free slot and is refused only when the party is full; sharing stays sound; count, size, bounds and family equal a recomputation if and only if it is a member (account and level), or takes up no slot and everything is counted again. |
| `Party.Party.ChangeOption` | src/char/int_party.cpp:607-626 | Even sharing is refused exactly when not allowed, which is stated on the levels of the members online; the option fields are as wide as in the source. |
| `Party.Party.RemoveMember` | src/char/int_party.cpp:663-674 | Clearing a slot keeps count, size, bounds and family right, though bounds are looked at only at a bound, if and only if the slot was used. |
| `Party.Party.Leave` | src/char/int_party.cpp:629-679 | A leader takes everybody along and the party is broken up; anybody else leaves alone; the party stays accurate exactly if the request is not for account 0 with an unused slot to match it. |
| `Party.Party.Dismiss` | src/char/int_party.cpp:653-662 | Everybody attached is told, each once and in order, and detached. |
| `Party.AccountsMean` | src/char/int_party.cpp:653-662 | Told are the characters of attached slots only, all of them, and as many as there are such slots. |
| `Party.Party.ChangeOnline` | src/char/int_party.cpp:696-716 | Logging in or out keeps the party accurate and sharing sound. |
| `Party.Party.ChangeLevel` | src/char/int_party.cpp:718-728 | A new level is looked at only at a bound; the contract says exactly when that is enough. |
| `Party.Party.ChangeMap` | src/char/int_party.cpp:681-736 | While the slot holds a member, count is right; the bounds stay accurate if and only if no online member jumps from inside the range to outside it with map and login unchanged, and sharing stays sound if and only if no parent falls below 70 unnoticed; both always hold when levels rise by at most one. With account 0 or level 0 the slot stops being one and the party is not accurate. |
| `Party.JumpGoesUnnoticed` | src/char/int_party.cpp:718-728 | A run of the handlers on a concrete party: a member jumps from level 20 to 40 and the party is no longer accurate. |
| `Party.FamilyIsLost` | src/char/int_party.cpp:718-728 | A run of the handlers on a concrete family: a parent falls below 70 and even sharing stays on although it is not allowed. |
| `Party.NobodyLeaves` | src/char/int_party.cpp:629-679 | A run of the handlers on a concrete party: account 0 leaves through an unused slot and the size is wrong. |
| `Party.Party.LeaderChange` | src/char/int_party.cpp:758-780 | Exactly the named member leads, and nothing else changes. |
| `Party.ShareLevel` | src/char/int_party.cpp:788-802 | A new share level leaves every party accurate and sound, and switches sharing on nowhere. |
| `Party.RangeKept` | src/char/int_party.cpp:593-597 | When nobody at a bound leaves and nobody outside joins, the range stays. |
| `Party.NarrowRange` | src/char/int_party.cpp:344-346 | With at most one member online a proper range is a single level. |
| `Party.FamilyLevel` | src/char/int_party.cpp:307-341 | A family goes on sharing exactly while the parent whose level changed stays at 70 or above. |
| `FameRanking.RankingStays` | src/char/char_mapif.cpp:1116-1168 | For every run of reports in which nobody's fame falls the ranking is sorted, holds distinct players before any vacant place, and no unlisted player beats a listed one. |
| `FameRanking.SortedExactly` | src/char/char_mapif.cpp:1139-1163 | For every report, rising or falling, order is kept if and only if no listed player is put behind an entry that they still beat. |
| `FameRanking.TopExactly` | src/char/char_mapif.cpp:1139-1163 | For every report the ranking stays a top of the latest scores if and only if no listed player is put below an unlisted one. |
| `FameRanking.ProperExactly` | src/char/char_mapif.cpp:1139-1163 | For every report players stay distinct and in front of the vacant places if and only if no listed player is put below zero or past a vacant place. |
| `FameRanking.RanksExactly` | src/char/char_mapif.cpp:1139-1163 | For every report, rising or falling, the whole ranking stays right if and only if the report does no harm: one condition on ranking, scores and report. |
| `FameRanking.RankingStaysExactly` | src/char/char_mapif.cpp:1116-1168 | For every run of reports the ranking is right all along if and only if no report of it does harm. |
| `FameRanking.FallBreaksTop` | src/char/char_mapif.cpp:1139-1163 | A concrete falling report after which a player is listed whom an unlisted one beats. |
| `FameRanking.FallHides` | src/char/char_mapif.cpp:1139-1163 | A concrete falling report after which a listed player stands behind a vacant place. |
| `FameRanking.FallBreaksOrder` | src/char/char_mapif.cpp:1139-1163 | A concrete falling report after which the order is wrong. |
| `FameRanking.Move` | src/common/db.hpp:962-975 | Moving an entry in place shifts those between by one and keeps the rest. |
| `FameRanking.UpdateFame` | src/char/char_mapif.cpp:1116-1168 | The in-place update computes the specified ranking, and one-place notices are sent only when one place changed. |
| `FameRanking.ReportMeans` | src/char/char_mapif.cpp:1116-1168 | One report in full: the player goes in front of everybody with equal fame or less, whoever was last makes room for a new player, and all others keep their order. |
| `FameRanking.SendList` | src/char/char_mapif.cpp:97-108 | Sending up to the first vacant place sends everybody listed. |
| `FameRanking.ReadList` | src/char/char.cpp:2047-2103 | The initial ranking is sorted and a top of the stored scores. |
| `Ledger.Ledger.Register` | src/char/int_auction.cpp:337-348 | An auction starts unless its seller has five; money and items stay accounted for, a bidder the packet names bringing the price along, and the limits hold unless that bidder leads five already; the auctions stay proper unless the bidder is negative. |
| `Ledger.Ledger.AuctionCount` | src/char/int_auction.cpp:28-42 | The loop counts the auctions a player sells, or leads. |
| `Ledger.Ledger.Bid` | src/char/int_auction.cpp:440-488 | Every bid is accounted for: turned down and returned whole, standing with the former bidder refunded by mail, or buying at once with change returned, the item mailed to the bidder and the price to the seller; player by player, nobody else's mail gains money or items; nobody leads more than five auctions. |
| `Ledger.Ledger.PlaceBid` | src/char/int_auction.cpp:457-487 | An accepted bid moves exactly the bid from the bidder into escrow, mail and change, and no item is lost or doubled; the mail of each player gains the price held if they were the former bidder, the buy-now price if they sell at once, the item if they buy at once, and nothing else. |
| `Ledger.Ledger.Refund` | src/char/int_auction.cpp:457-466 | The former bidder is mailed exactly the price held. |
| `Ledger.RefundedPays` | src/char/int_auction.cpp:457-466 | A refund puts the price held into the mail of the former bidder, and nothing into the mail of anybody else. |
| `Ledger.DeliveredPays` | src/char/int_auction.cpp:154-174 | A sale puts the price into the mail of the seller and the item into that of the buyer, and nothing into any other. |
| `Ledger.GivenBackPays` | src/char/int_auction.cpp:160-166 | An auction given back puts its item into the mail of the seller and moves no money. |
| `Ledger.BidGains` | src/char/int_auction.cpp:440-488 | For every player, what the mail gains by an accepted bid. |
| `Ledger.Ledger.EndTimer` | src/char/int_auction.cpp:154-174 | An ended auction mails its item to exactly one party and the price to the seller if there was a bidder; nobody else's mail gains anything; nothing leaves the server. |
| `Ledger.Ledger.Cancel` | src/char/int_auction.cpp:359-386 | Only the seller cancels, only without bidder, and gets the item back; no other mail gains anything. |
| `Ledger.Ledger.Close` | src/char/int_auction.cpp:397-428 | Only the seller closes, only with a bidder; money to the seller and item to the bidder, each once, and nothing to anybody else. |
| `Ledger.Ledger.DeleteAuction` | src/char/int_auction.cpp:176-187 | Removing an auction releases exactly what was held for it. |
| `Ledger.Ledger.SaveMessage` | src/char/int_mail.cpp:78-148 | A message is stored under a new id with its money and its non-empty items. |
| `Ledger.Filled` | src/char/int_mail.cpp:113-135 | Empty slots are left out of the attachments. |
| `Ledger.Ledger.SendMail` | src/char/int_mail.cpp:604-633 | Server mail adds exactly the given money and item to what lies in mail. |
| `Ledger.Ledger.GetAttach` | src/char/int_mail.cpp:350-412 | Only the receiver of a read message is handed its money and items, which are then gone from the message; over every run no message has its money, or its items, handed out twice. |
| `Ledger.Ledger.NothingLeft` | src/char/int_mail.cpp:350-412 | However long ago it was, a message whose money or items were claimed has none to claim. |
| `Ledger.Ledger.MarkRead` | src/char/int_mail.cpp:331-336 | Reading changes the status only. |
| `Ledger.Ledger.DeleteMail` | src/char/int_mail.cpp:422-446 | A deleted message loses exactly what it still held. |
| `Ledger.Ledger.ReturnMail` | src/char/int_mail.cpp:475-515 | A message goes back to its sender with all it holds; one from the server is thrown away with all it holds. |
| `Ledger.Ledger.Send` | src/char/int_mail.cpp:543-602 | A player's message brings in exactly its money and items, or nothing when no receiver is found. |
| `Ledger.Ledger.ReturnOrDelete` | src/char/int_mail.cpp:237-294 | The age timer removes every message found, and takes in and hands out nothing. |
| `Ledger.LimitsBid` | src/char/int_auction.cpp:451-455 | A further standing bid keeps everybody within five. |
| `Ledger.LimitsMean` | src/char/int_auction.cpp:28-42 | The limits counted auction by auction: nobody sells or leads more than five. |
| `Totals.TotalPut` | src/char/int_auction.cpp:468-470 | Writing one row changes a sum by the difference of that row. |
| `Totals.TotalCounts` | src/char/int_auction.cpp:28-42 | A sum of ones is the number of rows that qualify. |
| `Guild.SaveIsFair` | src/char/int_guild.cpp:51-91 | Whatever else changes between ticks, a changed guild is written within as many ticks as there are guilds and one more, as long as none is due for removal. |
| `Guild.TickBringsNearer` | src/char/int_guild.cpp:51-91 | A tick that passes a changed guild over brings its turn strictly nearer. |
| `Guild.GuildCache.SaveTimer` | src/char/int_guild.cpp:51-91 | One tick writes at most one guild, the next changed one behind the last, removes the guilds that have nothing left to write and are due for it, and starts over when it finds none; what is written is recorded with the bits of 0x03FF it had. |
| `Guild.TickOnBits` | src/char/int_guild.cpp:51-91 | On the bits, for every guild and tick: it leaves exactly when its flag, with 0x03FF cleared if it was the one written, is 0x8000; if it stays it keeps all other bits; and none leaves with a bit of 0x03FF unwritten. |
| `Guild.TurnOnBits` | src/char/int_guild.cpp:63-71 | The guild written is the first with a bit of 0x03FF set behind the one saved last. |
| `Guild.GuildCache.Visit` | src/char/int_guild.cpp:63-71 | The three-state search saves exactly at the specified position. |
| `Guild.Guild.LevelUp` | src/char/int_guild.cpp:847-859 | Experience left plus the thresholds passed, a slice of the table, equals experience before; skill points rise with levels; the loop ends below the next threshold or where there is none. |
| `Guild.ThresholdsAreSlice` | src/char/int_guild.cpp:847-859 | Leaving level l costs entry l - 1 of the table. |
| `Guild.ReachesOne` | src/char/int_guild.cpp:847-859 | Level and experience determine the level reached. |
| `Guild.Guild.CalcInfo` | src/char/int_guild.cpp:841-902 | Level, capacity, average level and members online are as specified, and the guild is marked exactly when level, points or capacity changed. |
| `Guild.Guild.Average` | src/char/int_guild.cpp:871-894 | The average is the truncated quotient of the 16-bit sum over members with a level. |
| `Guild.QuotientTruncates` | src/char/int_guild.cpp:891-892 | What the average leaves over is less than the divisor and has the sign of the sum. |
| `Whisper.WhisperIsAnswered` | src/char/inter.cpp:1242-1260 | Over every run of requests and replies a whisper is either answered once, by the first reply other than "not here" or else the last one expected, or forgotten, or still waiting for exactly the replies outstanding. |
| `Whisper.AnsweredAtMostOnce` | src/char/inter.cpp:1172-1260 | From its request on, whatever happens, a whisper gets at most one answer, sent to its sender. |
| `Whisper.AnswerIsRight` | src/char/inter.cpp:1172-1260 | For every run after a whisper was passed on in which no server replies to it twice: it is answered "not here" only if every server asked has said so, and otherwise with the first reply that says anything else. |
| `Whisper.FollowsStep` | src/char/inter.cpp:1172-1260 | Every single event keeps every pending whisper on its course. |
| `Whisper.WhisperServer.Purge` | src/char/inter.cpp:1113-1131 | The batched purge terminates and removes exactly the expired whispers. |
| `Whisper.WhisperServer.Collect` | src/char/inter.cpp:1101-1111 | The bounded list collects expired whispers only, and all of them unless it is full. |
| `Whisper.ExpiredAfterAMinute` | src/char/inter.cpp:1101-1111 | With clock readings that wrap around at 2^32 a whisper expires exactly when more than 60000 ms have passed. |
| `Whisper.WhisperServer.Request` | src/char/inter.cpp:1172-1238 | An unknown target or oneself is answered at once; anything else is purged for, stored and passed on. |
| `Whisper.WhisperServer.Reply` | src/char/inter.cpp:1242-1260 | A reply counts down, and settles the whisper as specified. |
| `Registry.Pack` | src/char/char_logif.cpp:164-232 | For every list of variables all packets sent are proper (within the reservation, with right length and count), carry the account and character, and together decode to exactly the list. |
| `Registry.PacketBack` | src/char/inter.cpp:1275-1331 | Unpacking a packet yields the entries packed, each once and in order. |
| `Registry.RegBack` | src/char/inter.cpp:1290-1321 | An entry is read back from where it was written, whatever surrounds it. |
| `Registry.PacketIsProper` | src/char/char_logif.cpp:181-232 | A packet within the limit plus one entry announces its own length and count. |
| `Registry.PacketByHand` | src/char/char_logif.cpp:164-223 | A packet with an entry of each kind, byte by byte. |
| `Registry.Packer.Begin` | src/char/char_logif.cpp:164-173 | The buffer holds an empty packet for the account and character. |
| `Registry.Packer.Send` | src/char/char_logif.cpp:181-232 | An entry is appended in place and length and count rewritten; past the limit the packet is sent and the next begun, and nothing is lost or doubled. |
| `Registry.Packer.Append` | src/char/char_logif.cpp:181-223 | After appending the buffer holds the packet of one more entry, never past the reservation. |
| `Registry.Packer.Flush` | src/char/char_logif.cpp:175-179 | Exactly the packed entries are sent. |
| `Registry.ParseRegistry` | src/char/inter.cpp:1275-1331 | The cursor-advancing loop reads what the specification of unpacking reads. |
| `Des.PermutationsInvert` | src/common/des.cpp:19-71 | Initial and final permutation undo each other, both ways. |
| `Des.ExpansionsAgree` | src/common/des.cpp:76-113 | The optimized expansion is the table-driven one shifted right by two, byte for byte. |
| `Des.ExpandedFits` | src/common/des.cpp:100-110 | All expanded bytes are below 64, so the S-box indices are in range. |
| `Des.RoundInvolution` | src/common/des.cpp:188-199 | The round undoes itself. |
| `Des.BlockInvolution` | src/common/des.cpp:202-207 | Decrypting a block twice gives it back. |
| `DesStandard.SubstitutesAsStandard` | src/common/des.cpp:147-183 | The substitution gives, in the upper and the lower half of each byte, the entries of the eight S-boxes of FIPS 46-3 by row and column. |
| `DesStandard.TransposesAsStandard` | src/common/des.cpp:119-144 | The transposition sends each bit where P of FIPS 46-3 does; no bit is lost or doubled. |
| `DesStandard.Example` | src/common/des.cpp:202-207 | A concrete block through all steps. |
| `Des.IpShape` | src/common/des.cpp:19-44 | The initial permutation in closed form: even bits first, columns from the bottom up. |
| `Des.FpShape` | src/common/des.cpp:46-71 | The final permutation in closed form. |
| `Des.ExpandShape` | src/common/des.cpp:76-113 | The selection E in closed form: six bits each, overlapping the neighbours by one. |
| `Des.Rearrange` | src/common/des.cpp:19-71 | The bit loop computes the permutation its table describes, and leaves the rest of the buffer alone. |
| `Des.Expand` | src/common/des.cpp:76-113 | The expansion in place. |
| `Des.Substitute` | src/common/des.cpp:147-183 | The substitution in place, two inputs to a table. |
| `Des.RoundFunction` | src/common/des.cpp:188-199 | The first half is combined with the scrambled second half, which stays. |
| `Des.DecryptBlock` | src/common/des.cpp:202-207 | One block in place. |
| `Des.Decrypt` | src/common/des.cpp:210-217 | As written only the first block changes: it is decrypted or left alone by the parity of the size in units of 64 bytes, rounded up. |
| `Pincode.ShufflePermutes` | src/char/char.cpp:2197-2208 | For every seed the table stays a permutation of the ten digits at every turn. |
| `Pincode.SeedIs` | src/char/char.cpp:2197-2202 | The seed of every turn in closed form: multiplied by 13464 and moved on by 8917556 each time, modulo 2^32. |
| `Pincode.TurnMoves` | src/char/char.cpp:2202-2207 | A turn puts the next digit where the new seed says and what was there into the next entry, and touches nothing else. |
| `Pincode.TableOfZero` | src/char/char.cpp:2197-2208 | The table of seed 0. |
| `Pincode.DecryptionMeans` | src/char/char.cpp:2210-2216 | A digit typed stands for the entry of the table at its position. |
| `Pincode.DecryptionIsInjective` | src/char/char.cpp:2191-2216 | Decryption yields digit strings of the same length and never maps two pins to one. |
| `Pincode.Swap` | src/char/char.cpp:2203-2207 | The guarded exclusive-or exchange swaps two entries. |
| `Pincode.XorSwap` | src/char/char.cpp:2203-2207 | The three assignments exchange two variables, and would clear one exchanged with itself. |
| `Pincode.Shuffle` | src/char/char.cpp:2193-2208 | The seeded loop computes the specified table. |
| `Pincode.Decrypt` | src/char/char.cpp:2191-2216 | Each digit is replaced by the entry at its position, for exactly the pins of digits; another character has no entry. |

## Left out

- Floats in the round trip: the printed form keeps ten digits only, so writing is modelled for configurations without them.
- Included files: an `@include` is modelled as one that cannot be opened, which ends scanning with an error token.
- The flex tables and input buffers: the scanner is modelled by its rules, longest match first and earliest rule on ties.
- Error texts, line numbers, source file names, comments, hooks and destructors of settings.
- Freeing memory, the null list of an empty aggregate, and chunked growth of child arrays: a child list is a sequence.
- A type tag that disagrees with its union member: both are one value, so setting a scalar of another type, automatic conversion and removal are not modelled.
- Numbers too long for `atoi` in an index or an integer: taken as the 64-bit conversion cut to 32 bits, the usual outcome.
- ConfigLookup.PathFindsNode: takes child positions below 2^31, because the written index passes through `atoi`.
- ConfigCopy.Config.Copy: requires a well-formed source that the destination is not part of, and properly named children in a destination group, among which an unnamed source may not go, because its null name would be compared with theirs.
- SQL text, escaping and table layout; item fields that a table has no column for.
- ItemSave.ItemTable.Save: after a failed statement promises nothing about the owner's rows beyond the statements issued, because the source goes on with the others.
- Achievements: the save has the shape of the quest save.
- Party names, their check and the notices to map-servers; dissolving a party by request; the two functions for online characters that nothing calls.
- The job filters and names of the fame lists; each list is modelled alone.
- Restoring auctions at start-up, the auction search and the inbox listing, which move no money or item.
- Ledger.Ledger.Register: an auction with a negative bidder is registered but not followed further, because the source tests for such a bidder in different ways.
- Pincode.Decrypt: ends at a character that is no digit, where the source reads beside the table.
- Ledger.Ledger.ReturnOrDelete: the query for old messages is a parameter, because it depends on the clock.
- Widths of prices and of message money: sums are unbounded integers.
- Guild members joining and leaving, castles, alliances, positions, storage.
- Guild.SaveIsFair: assumes that no guild enters or leaves the cache meanwhile, because removal changes the round.
- Whisper texts and their length checks.
- Overflow of the whisper counter.
- Registry.ParseRegistry: reports reading past the end of a packet, which the source does not notice.
- The list of variables sent to map-servers, which has the packing scheme of the one modelled.
- Connection state of the login-server link: it is taken as connected.
- Online bookkeeping, login and map-server authentication, character saves, pets, homunculi, mercenaries, elementals, clans: message routing and copies of fields.

# Verified models of the etudes

This project models the hardest parts of the repository in Dafny and proves what they are for.

- **The ticketed bounded queue** (`include/folly/MPMCQueue.h`), static and dynamic, as a machine
  whose steps are the single loads, stores and compare-exchanges of the operations in flight. The
  theorems hold in every reachable state of every interleaving of pushes, pops and expansions, whose two
  counters may be loaded in either order.
- **The calculator** (`flex_and_bison/`): the parser with its compressed tables, as a machine over
  two stacks and as the parsing loop over growing arrays; the scanner as a class whose buffer is
  moved, refilled and grown in place; and both together, from text to values.
- **128-bit decimal arithmetic** (`include/decimal/decimal.hh`): division digit by digit and bit by
  bit, multiplication from words, and the rounding operations built on them.
- **Fast forms and the simple forms they stand for**: UTF-8 substrings, log-time repetition, row
  keys, split strings and their allocator, and a tree of partially ordered terms.

Each algorithm is proved against an independent description: a queue against the order of its
tickets, a parser against the derivations of its grammar, a scanner against the longest match of
its rules, an arithmetic routine against exact integers, a substring against the decoded text.

| modules | part |
|---|---|
| `TicketIndex`, `QueueConfig`, `QueueMachine`, `QueueTickets`, `QueueExpansion`, `QueueTicketProof`, `QueueSlots`, `QueueSafety`, `QueueTheorems`, `QueueTraces`, `QueueFailures`, `QueueGrowth`, `QueueProgress`, `QueueSolo`, `QueueOutrun`, `QueueSize` | the queue: where tickets go, the machine, its two invariants (tickets and arrays, slots and turns), the theorems; what calls carry, what a failed call means, when the queue grows, deadlock freedom, operations that move alone, `size` |
| `ParserTables`, `CalcGrammar`, `ParserMachine`, `ParserCompleteness`, `ParserSoundness`, `ParserTheorems`, `ParserPrefixes`, `YyParse` | the parser: tables, grammar, machine, both directions of correctness, the loop |
| `ScannerTables`, `LexSpec`, `ScannerRuns`, `FlexScanner`, `CalcTokens`, `Calculator`, `CalcLines` | the scanner: tables, rules, runs of the automaton, the buffer; scanner and parser together |
| `WideWords`, `KnuthDivision`, `Division128`, `Multiply128`, `DecimalOps` | decimals |
| `Utf8`, `Substring`, `BinaryColumns`, `RowKeys`, `Repeat`, `GermanStrings`, `GermanRuns`, `GermanCompare`, `TermOrder`, `TermTrees`, `TermStores`, `TermExample`, `TermDicts` | fast forms |
| `Arith`, `ByteStrings`, `Options` | shared facts and types |

## What turned out not to hold

Where the code does not do what it seems to promise, the model keeps the code, a lemma gives an
input, and another says exactly when the promise is kept.

- A `read` of a dynamic queue can fail although an element is ready all along (`QueueOutrun.ReadFailsThoughNotEmpty`).
  It is wrong only when another read has used its ticket: otherwise the queue was empty when it loaded the ticket
  (`QueueFailures.DynamicReadFailsWhenEmptyOrOutrun`). At its slot it gives up exactly when the push of its ticket is
  not complete or another read has used the ticket (`QueueFailures.DynamicReadGivesUp`). A `read` of a static queue
  fails only if the queue is empty (`QueueFailures.StaticReadFailsWhenEmpty`).
- The count of closed arrays overflows its five bits, and carries into the offset
  (`QueueConfig.ThirtyTwoClosedArraysOverflow`), for a dynamic queue of 2^31 + 1 elements that starts with one slot and
  is doubled (`QueueConfig.OneMoreIsTooMany`). It does not exactly when the first capacity, multiplied 31
  times, reaches the full one (`QueueConfig.ConstructorsAreSound`, `QueueConfig.UnpacksExactly`).
- `mul2` and `div2` differ from `mul` and `div` for most negative operands
  (`DecimalOps.Mul2Agrees`, `DecimalOps.Mul2AgreesOnOverflow`, `DecimalOps.Mul2Differs`,
  `DecimalOps.Div2Agrees`, `DecimalOps.Div2Differs`); `div` itself is not to the nearest for an odd
  divisor and one remainder (`DecimalOps.DoDivRounds`, `DecimalOps.DoDivCanMissTheNearest`).
- A term dictionary can store one term twice (`TermExample.StoreTwice`), because a store can hide a stored term from
  lookups. It hides none exactly when the lookup of the new term does not end at a smaller one, or the new term is
  greater than every term in the subtree it is put over and unrelated to every term in the subtrees of later siblings
  (`TermStores.PutKeepsFound`, `TermStores.PutAllKeepsFound`).
- The order between a string in place and a split one looks at four bytes only
  (`GermanCompare.MixedOrderIsRight`, `GermanCompare.MixedOrderCanBeWrong`), and the raw comparison of
  strings in place sees bytes left behind strings shorter than four (`GermanCompare.RawEquality`,
  `GermanCompare.RawEqualityCanBeWrong`).
- The two width rules of UTF-8 differ from 0xF8 on (`Utf8.WidthRulesAgree`, `Utf8.WidthRulesDiffer`).

## Model

| member | source | states |
|---|---|---|
| `TicketIndex.ComputeStride` | include/folly/MPMCQueue.h:1050-1067 | the stride is coprime to the capacity, and no small prime that may be used spreads neighbouring tickets further apart |
| `TicketIndex.StrideIsCoprime` | include/folly/MPMCQueue.h:1050-1067 | for every capacity the chosen stride and the capacity have no common divisor |
| `TicketIndex.AdjacentTicketsAreAStrideApart` | include/folly/MPMCQueue.h:1071-1075 | ticket zero uses slot zero, and each next ticket the slot one stride further around the array |
| `TicketIndex.ConsecutiveTicketsUseDistinctSlots` | include/folly/MPMCQueue.h:1071-1075 | any capacity consecutive tickets fall into different slots |
| `TicketIndex.SlotAndTurnDetermineTicket` | include/folly/MPMCQueue.h:1071-1080 | two tickets with the same slot and the same turn are the same ticket |
| `QueueConfig.CountClosed` | include/folly/MPMCQueue.h:347-359 | the size of the closed table is the least number of multiplications that reaches the full capacity |
| `QueueConfig.ConstructorsAreSound` | include/folly/MPMCQueue.h:187-205 | a constructor fails exactly for capacity zero; capacity, first capacity and multiplier are those asked for, within their bounds; a static queue is always well formed, and a dynamic one exactly when its first capacity multiplied 31 times reaches the full capacity |
| `QueueConfig.UsuallySufficient` | include/folly/MPMCQueue.h:187-205 | 31 expansions suffice for every capacity up to 2^31, and with the default arguments for every 64-bit capacity |
| `QueueConfig.OneMoreIsTooMany` | include/folly/MPMCQueue.h:196-205 | a queue of 2^31 + 1 elements, started with one slot and doubled, needs a 32nd closed array |
| `QueueConfig.UnpacksExactly` | include/folly/MPMCQueue.h:516-523 | a packed word gives back offset and closed count exactly when at most 31 arrays are closed; its lowest bit is the lock |
| `QueueConfig.PackingIsInjective` | include/folly/MPMCQueue.h:573-587 | equal packed words are equal records, so that the validation of a read compares records |
| `QueueConfig.ThirtyTwoClosedArraysOverflow` | include/folly/MPMCQueue.h:516-523 | with 32 closed arrays the count carries into the offset |
| `QueueTicketProof.InitTickets` | include/folly/MPMCQueue.h:347-359 | a new queue satisfies the invariant on tickets and arrays |
| `QueueTicketProof.StepKeepsTickets` | include/folly/MPMCQueue.h:361-615 | every step of every operation keeps the invariant on tickets, arrays, seqlock and closed table |
| `QueueTicketProof.NeverUnsafe` | include/folly/MPMCQueue.h:592-615 | no operation reads the closed table or a slot outside its bounds |
| `QueueSlots.TouchKeepsSlots` | include/folly/MPMCQueue.h:1425-1485 | filling, emptying or completing a slot keeps every slot in step with the push and the pop of every ticket |
| `QueueSlots.ReleaseKeepsSlots` | include/folly/MPMCQueue.h:559-569 | publishing a larger array keeps every slot in step |
| `QueueSafety.StepKeepsInv` | include/folly/MPMCQueue.h:277-333 | every step keeps the whole invariant |
| `QueueSafety.InvOverRun` | include/folly/MPMCQueue.h:277-333 | the invariant holds at every point of every run |
| `QueueTheorems.SameTicketSameArray` | include/folly/MPMCQueue.h:528-615 | a push and a pop with one ticket, however they raced with expansions, know the same slots, offset, capacity and stride |
| `QueueTheorems.TicketsAreUnique` | include/folly/MPMCQueue.h:1085-1113 | no two pushes and no two pops hold the same ticket |
| `QueueTraces.CallsAreCarried` | include/folly/MPMCQueue.h:800-960 | in every state of every run operation number id carries the kind and the value of the id-th call |
| `QueueTraces.PopGetsCall` | include/folly/MPMCQueue.h:1262-1291 | a completed pop has returned the value given to the call of the completed push with its ticket |
| `QueueTraces.FifoOfCalls` | include/folly/MPMCQueue.h:1262-1291 | once the first n pops are done they have returned the values of the first n push calls, in ticket order |
| `QueueTraces.TicketsFollowTime` | include/folly/MPMCQueue.h:805-809 | a call made after another has its ticket gets a later one, so that writes over before a call come out before it |
| `QueueTheorems.AccessFindsWhatItNeeds` | include/folly/MPMCQueue.h:1425-1485 | a push always finds its slot empty and a pop always finds its element: nothing is overwritten before it is read or read twice |
| `QueueTheorems.CompletesItsOwnTurn` | include/folly/MPMCQueue.h:1425-1485 | a turn is completed only while it is the slot's turn |
| `QueueTheorems.AlwaysSafe` | include/folly/MPMCQueue.h:1262-1291 | in every reachable state every operation stays inside its arrays |
| `QueueTheorems.ReadyTicketsNeverWait` | include/folly/MPMCQueue.h:1085-1113 | a ticket won by write or read never waits for its slot |
| `QueueTheorems.PreviousLap` | include/folly/MPMCQueue.h:1151-1171 | a waiting push waits for the pop one lap earlier |
| `QueueTheorems.PromisedPushWaitsForGrantedPop` | include/folly/MPMCQueue.h:1151-1171 | a ticket won by writeIfNotFull waits, if at all, for a pop whose ticket is granted already |
| `QueueTheorems.PromisedPopWaitsForGrantedPush` | include/folly/MPMCQueue.h:1239-1258 | a ticket won by readIfNotEmpty waits, if at all, for a push whose ticket is granted already |
| `QueueTheorems.OldestCanProceed` | include/folly/MPMCQueue.h:1262-1291 | a push whose earlier pops are done, and a pop whose push is done, do not wait |
| `QueueTheorems.RunExtends` | include/folly/MPMCQueue.h:528-570 | along a run counters never fall, and published arrays and closed records never change |
| `QueueTheorems.ExpansionSafety` | include/folly/MPMCQueue.h:528-570 | offsets of successive arrays strictly increase and capacities are multiplied up to the full one, the closed table never overflows and holds exactly the earlier arrays, and the word says which array is current |
| `QueueTheorems.ValidatedReadIsConsistent` | include/folly/MPMCQueue.h:573-587 | a validated seqlock read has slots, capacity and stride of one published array |
| `QueueTheorems.LaggingTicketFindsItsArray` | include/folly/MPMCQueue.h:592-615 | the search through the closed arrays always ends at one that serves the ticket |
| `QueueTheorems.ExpansionAssertionsHold` | include/folly/MPMCQueue.h:528-557 | the assertions inside tryExpand hold |
| `QueueTheorems.OneExpansionAtATime` | include/folly/MPMCQueue.h:528-547 | at most one expansion is under way, and only while the word is locked |
| `QueueSize.Size` | include/folly/MPMCQueue.h:737-761 | a call whose loads fall anywhere in a run returns the difference of the two counters in one state between its first and its last load; it goes on reading exactly as long as a counter has changed at every turn |
| `QueueProgress.NoDeadlock` | include/folly/MPMCQueue.h:277-317 | where every unfinished operation is blocked or goes round in the loop of a blocking write, none goes round: each waits in a blocking call, a read for a push ticket nobody has, or a write for a pop ticket nobody has, on a queue of full capacity, with a ticket of a closed array, or after it was refused memory |
| `QueueFailures.WriteFailsWhenFull` | include/folly/MPMCQueue.h:1085-1113 | write fails only if, at some moment of the call, the next push would have had to wait for a pop one lap before |
| `QueueFailures.WriteIfNotFullFailsWhenFull` | include/folly/MPMCQueue.h:1151-1171 | writeIfNotFull fails only if, at some moment of the call, as many tickets were pushed and not popped as the array has slots, which in a static queue is its capacity |
| `QueueFailures.StaticReadFailsWhenEmpty` | include/folly/MPMCQueue.h:1177-1196 | read of a static queue fails only if, at some moment of the call, the next pop would have had to wait for its push |
| `QueueFailures.DynamicReadFailsWhenEmptyOrOutrun` | include/folly/MPMCQueue.h:441-467 | read of a dynamic queue fails only if the next pop would have had to wait for its push when the ticket was loaded, or another read had used the ticket when the slot was looked at |
| `QueueFailures.ReadIfNotEmptyFailsWhenEmpty` | include/folly/MPMCQueue.h:1239-1258 | readIfNotEmpty fails only if, at some moment of the call, no ticket was pushed and not popped |
| `QueueGrowth.FailsWhenItCannotExpand` | include/folly/MPMCQueue.h:361-435 | a push of a dynamic queue fails only at full capacity, on a ticket of a closed array, or after it was refused memory |
| `QueueGrowth.WaitsWhenItCannotExpand` | include/folly/MPMCQueue.h:277-317 | a blocking write waits for its slot only at full capacity, with a ticket of a closed array, or after it was refused memory |
| `QueueGrowth.ExpandsWhenNobodyPops` | include/folly/MPMCQueue.h:296-312 | a blocking write tries to expand the queue only after it saw that the pop its slot waits for has no ticket |
| `QueueGrowth.OffsetsAreTight` | include/folly/MPMCQueue.h:540-541 | a new array begins at most one ticket beyond those granted |
| `QueueGrowth.ExpanderLags` | include/folly/MPMCQueue.h:540-570 | the push that expands the queue has itself a ticket of the array it closes |
| `QueueSolo.FinishesAlone` | include/folly/MPMCQueue.h:277-512 | from every reachable state in which no other operation holds the seqlock, an operation of any kind that moves alone is finished within 400 moves, or waits for its slot, or spins while a pop is in progress |
| `QueueFailures.DynamicReadGivesUp` | include/folly/MPMCQueue.h:441-467 | a read of a dynamic queue gives up at its slot exactly when its push is not complete or another read has used its ticket |
| `QueueOutrun.ReadFailsThoughNotEmpty` | include/folly/MPMCQueue.h:441-467 | a run in which a read fails although in every state of its call an element is ready |
| `ParserTables.ActionsDecode` | flex_and_bison/arithmetic.tab.c:461-505 | on every state and token the compressed action tables are the 21-state automaton written out |
| `ParserTables.GotosDecode` | flex_and_bison/arithmetic.tab.c:469-505 | so are the compressed goto tables |
| `ParserTables.NoErrorShift` | flex_and_bison/arithmetic.tab.c:1491-1506 | no state shifts the error token |
| `CalcGrammar.PrintedTreeIsDerived` | flex_and_bison/arithmetic.y:17-34 | a printed tree is derived by the grammar in a way that keeps its value: precedence and associativity are right |
| `CalcGrammar.DivisionTruncates` | flex_and_bison/arithmetic.tab.c:1349-1358 | quotient and remainder are the two numbers that make up the dividend with a remainder smaller than the divisor and of the sign of the dividend |
| `ParserCompleteness.ParseItem` | flex_and_bison/arithmetic.tab.c:1234-1391 | from any state that wants an operand the parser reads the tokens of any derived operand and stacks its value, or traps if it has none |
| `ParserCompleteness.ParseFactor` | flex_and_bison/arithmetic.tab.c:1234-1391 | likewise for products |
| `ParserCompleteness.ParseExpr` | flex_and_bison/arithmetic.tab.c:1234-1391 | likewise for sums |
| `ParserSoundness.StepKeeps` | flex_and_bison/arithmetic.tab.c:1234-1391 | every move keeps the stacks described by derivations: their tokens and the rest are the input, stacked values are their values, what was printed is the values of the lines done; no reduction finds too few states; a measure falls |
| `ParserSoundness.AccessingSymbols` | flex_and_bison/arithmetic.tab.c:507-514 | the symbols the description gives to states are those of the generated table |
| `ParserTheorems.ParserStops` | flex_and_bison/arithmetic.tab.c:1154-1391 | every parse stops within ten moves a token and two, by accepting, by an error, or by dividing by zero |
| `ParserTheorems.SentencesAreParsed` | flex_and_bison/arithmetic.tab.c:1154-1391 | a sentence is accepted with the values of its lines, or traps in the first line without a value, the earlier values printed |
| `ParserTheorems.AcceptsExactlyReadings` | flex_and_bison/arithmetic.tab.c:1154-1391 | a parse is accepted if and only if the input can be read as lines with values, and prints those values, whichever way it is read |
| `ParserTheorems.RejectionsAreRight` | flex_and_bison/arithmetic.tab.c:1397-1515 | an error means the input is no sentence; a trap means it holds a product that divides by zero |
| `ParserTheorems.PrintsTheLeadingLines` | flex_and_bison/arithmetic.y:17-20 | whatever the outcome, what is printed is the values of lines at the start of the input, and of every such line |
| `ParserTheorems.PrintThenParse` | flex_and_bison/arithmetic.tab.c:445-505 | parsing the printed form of any list of expression trees prints their values in order, exactly when they all have one |
| `ParserPrefixes.StackIsViable` | flex_and_bison/arithmetic.tab.c:1234-1391 | what the parser has read can always be completed to a sentence |
| `ParserPrefixes.ErrorIsAtFirstBadToken` | flex_and_bison/arithmetic.tab.c:1397-1515 | where a parse stops on an error, the tokens read start a sentence and with the next token they start none |
| `YyParse.Lookup` | flex_and_bison/arithmetic.tab.c:1266-1285 | probing the tables gives the automaton's action |
| `YyParse.Decide` | flex_and_bison/arithmetic.tab.c:1234-1306 | the action is the automaton's on the next token, for which the scanner is called only when the state needs it and none is held; no token and no report is lost |
| `YyParse.PushSymbol` | flex_and_bison/arithmetic.tab.c:1293-1296 | a state and a value are pushed inside the arrays, the rest unchanged |
| `YyParse.Relocate` | flex_and_bison/arithmetic.tab.c:1193-1217 | both stacks are copied into longer arrays, twice as long up to the limit |
| `YyParse.RunAction` | flex_and_bison/arithmetic.tab.c:1314-1370 | the value and the output of a rule's action, and when it divides by zero |
| `YyParse.GotoState` | flex_and_bison/arithmetic.tab.c:1379-1391 | the state after a reduction is the goto table's |
| `YyParse.ReduceBy` | flex_and_bison/arithmetic.tab.c:1312-1391 | a reduction pops and computes what the machine's reduction does |
| `YyParse.ProbeError` | flex_and_bison/arithmetic.tab.c:1493-1503 | probing the tables finds exactly a shift of the error token |
| `YyParse.Recover` | flex_and_bison/arithmetic.tab.c:1488-1516 | error recovery probes and pops every state, and finds none that goes on |
| `YyParse.Advance` | flex_and_bison/arithmetic.tab.c:1234-1391 | one round of the loop is one step of the machine |
| `YyParse.MakeRoom` | flex_and_bison/arithmetic.tab.c:1159-1225 | afterwards there is room for one more element, or the limit is reached |
| `YyParse.Run` | flex_and_bison/arithmetic.tab.c:1078-1560 | a call returns 2 exactly when the run fills the stacks; otherwise it returns 0, returns 1 or traps as the parse does, with the same output; the scanner keeps the tokens behind the one the parse ended with, and what it reported is what lies before the text it keeps |
| `YyParse.ShortInputsFit` | flex_and_bison/arithmetic.tab.c:1159-1225 | an input with two tokens less than the stacks have room for never fills them |
| `ScannerTables.TablesDecode` | flex_and_bison/arithmetic_lex.c:408-433 | the compressed transition tables with their defaults are the automaton written out |
| `ScannerTables.Stops` | flex_and_bison/arithmetic_lex.c:408-412 | the matching loop goes on exactly in the states of numbers, the start and the end-of-buffer state |
| `LexSpec.LongestMatchWins` | flex_and_bison/arithmetic.l:14-26 | the length and rule given for a text are the longest match of any rule, and the first rule among equals |
| `LexSpec.PiecesCoverTheText` | flex_and_bison/arithmetic.l:14-26 | the matched texts concatenate to the input |
| `LexSpec.TokensOfPieces` | flex_and_bison/arithmetic.l:14-26 | tokens and reports are those of the matches, in order |
| `ScannerRuns.AcceptDecodes` | flex_and_bison/arithmetic_lex.c:364-368 | which rule each state accepts |
| `ScannerRuns.StuckMatches` | flex_and_bison/arithmetic_lex.c:695-722 | when the automaton is stuck, the last accepting state it passed gives the winning match |
| `FlexScanner.StepTables` | flex_and_bison/arithmetic_lex.c:704-710 | following the defaults ends at the automaton's next state |
| `FlexScanner.Scanner.constructor` | flex_and_bison/arithmetic_lex.c:1315-1340 | a new scanner has the whole input before it |
| `FlexScanner.Scanner.Round` | flex_and_bison/arithmetic_lex.c:696-713 | one round of matching stays on the run over the token, reaches its winning match, or the end-of-buffer character |
| `FlexScanner.Scanner.FindAction` | flex_and_bison/arithmetic_lex.c:715-722 | the action of the state or of the last state that has one |
| `FlexScanner.Scanner.MatchFrom` | flex_and_bison/arithmetic_lex.c:695-722 | matching ends at the winning match or at the first end-of-buffer character |
| `FlexScanner.Scanner.PreviousState` | flex_and_bison/arithmetic_lex.c:1078-1103 | the state before the end-of-buffer character, with the last accepting state restored |
| `FlexScanner.Scanner.TryNulTrans` | flex_and_bison/arithmetic_lex.c:1110-1131 | a NUL in the text is a character like any other |
| `FlexScanner.Scanner.MoveText` | flex_and_bison/arithmetic_lex.c:972-976 | the text matched so far is moved to the start of the buffer, in place |
| `FlexScanner.Scanner.Grow` | flex_and_bison/arithmetic_lex.c:989-1025 | the buffer is grown until something can be read, its contents kept |
| `FlexScanner.Scanner.ReadInput` | flex_and_bison/arithmetic_lex.c:1027-1032 | a read delivers the next characters, none only at the end |
| `FlexScanner.Scanner.GetNextBuffer` | flex_and_bison/arithmetic_lex.c:970-1074 | the text from the current token on is the same after a refill; more of it is in the buffer, or all of it is |
| `FlexScanner.Scanner.ScanToken` | flex_and_bison/arithmetic_lex.c:682-931 | the winning match of everything still to come is found, through any number of refills and NULs |
| `FlexScanner.Scanner.Begin` | flex_and_bison/arithmetic_lex.c:684-692 | the character under the end of the last token is put back |
| `FlexScanner.Scanner.Finish` | flex_and_bison/arithmetic_lex.c:349-354 | the token's text is cut off the front of what is to come |
| `FlexScanner.Scanner.Yylex` | flex_and_bison/arithmetic_lex.c:645-931 | a call returns the next token of the text still to come, leaves what follows it, and reports what it skipped |
| `FlexScanner.ScanAll` | flex_and_bison/arithmetic_lex.c:645-931 | scanning a whole input gives the tokens and reports of a one-shot longest-match scan, however the reads divide it and however small the buffer is at first |
| `Calculator.ValueOfSpelling` | flex_and_bison/arithmetic.l:23 | a number is the value of the digits before its dot |
| `Calculator.RenderThenScan` | flex_and_bison/arithmetic.l:14-26 | scanning the text of any tokens, numbers with any digits and fractions, any blanks or none between tokens except between two numbers, gives the tokens back and reports nothing |
| `Calculator.Calculate` | flex_and_bison/arithmetic.tab.c:1078-1560 | one call of the parser on any text, unless the stacks overflow: 0 exactly when the text reads as lines with values, which are printed, 1 only where it is no sentence, a trap only where it divides by zero; it reports a beginning of what the scanner finds unrecognized, or all of it if the text is accepted |
| `Calculator.CallsReadOn` | flex_and_bison/arithmetic.y:37-41 | a call prints the values of all lines that lead the text; after an error the next call reads on behind the first token with which the text starts no sentence |
| `Calculator.CallsSettle` | flex_and_bison/arithmetic.y:37-41 | every call uses up a token, so that after as many calls as there are tokens nothing more is printed |
| `Calculator.Loop` | flex_and_bison/arithmetic.y:37-41 | the loop of main, up to any number of calls, prints what the calls print one after the other, errors included, unless the stacks overflow |
| `Calculator.TextCalculates` | flex_and_bison/arithmetic.y:17-34 | the text of expressions, one to a line, however its numbers are spelled and its tokens spaced, has their tokens, and parses to their values in order or traps if one divides by zero |
| `Calculator.CalculateLines` | flex_and_bison/arithmetic.y:17-34 | a call on such a text prints the values, or traps, unless the stacks overflow, which they do not for fewer tokens than they have room for |
| `CalcLines.OperationIsPrinted` | flex_and_bison/arithmetic.y:17-34 | a number, one of the characters + - * / %, a number and a newline print the sum, difference, product, quotient or remainder |
| `WideWords.Clz` | include/decimal/decimal.hh:259 | leading zeros: shifting by them sets the top bit and loses nothing |
| `KnuthDivision.Digit` | include/decimal/decimal.hh:278-288 | one digit of the quotient is exact, and its correction loop runs at most twice |
| `KnuthDivision.Normalize` | include/decimal/decimal.hh:259-269 | dividend and divisor are shifted by the same power of two, without loss |
| `KnuthDivision.Udiv128by64to64Default` | include/decimal/decimal.hh:249-305 | the exact quotient and remainder for every non-zero divisor above the high word, although intermediate words wrap around |
| `Division128.DivideByWord` | include/decimal/decimal.hh:332-348 | exact division by a divisor of one word |
| `Division128.Align` | include/decimal/decimal.hh:349-351 | the divisor is moved to within a factor of two of the dividend |
| `Division128.DivideByBits` | include/decimal/decimal.hh:349-367 | exact division bit by bit; the sign of a wrapped difference is the right mask every time |
| `Division128.Udivmodti4` | include/decimal/decimal.hh:319-368 | the quotient and the remainder below the divisor, on all three paths |
| `Division128.Divmodti3` | include/decimal/decimal.hh:237-247 | signed division rounds toward zero and the remainder has the sign of the dividend |
| `Division128.QuotientAndRemainder` | include/decimal/decimal.hh:237-247 | quotient times divisor plus remainder is the dividend, and the remainder is smaller and has the sign of the dividend |
| `Multiply128.Multi3` | include/decimal/decimal.hh:219-235 | the product modulo 2^128, with the flag set exactly when the product is at least 2^127 |
| `Multiply128.SignedMulti3` | include/decimal/decimal.hh:205-217 | the signed product, exact unless the flag is set, and when it is |
| `DecimalOps.AddAgrees` | include/decimal/decimal.hh:370-426 | on decimals both additions are the sum, clamped |
| `DecimalOps.DoMulRounds` | include/decimal/decimal.hh:478-508 | the product of magnitudes is rounded, or the largest value returned; the test on leading zeros finds nothing the division test does not |
| `DecimalOps.RoundedIsNearest` | include/decimal/decimal.hh:478-508 | rounding is to the nearest, with each error code exactly when it applies; the result is at most one above the largest value |
| `DecimalOps.MulRounds` | include/decimal/decimal.hh:448-459 | mul is the rounded magnitude with the sign of the product |
| `DecimalOps.Mul2` | include/decimal/decimal.hh:461-476 | mul2 rounds the product as it wrapped around |
| `DecimalOps.Mul2Agrees` | include/decimal/decimal.hh:448-478 | where the product fits 127 bits, exactly when mul2 equals mul |
| `DecimalOps.Mul2AgreesOnOverflow` | include/decimal/decimal.hh:448-478 | where it does not, mul returns the largest value, and exactly when mul2 does too |
| `DecimalOps.Mul2Window` | include/decimal/decimal.hh:461-476 | which products mul2 rounds to a number |
| `DecimalOps.Mul2Differs` | include/decimal/decimal.hh:448-478 | an input on which they differ |
| `DecimalOps.DoDivRounds` | include/decimal/decimal.hh:550-564 | the error is at most half the divisor rounded up, and exactly when the quotient is a nearest one |
| `DecimalOps.DivRounds` | include/decimal/decimal.hh:520-530 | for all signs: a zero operand gives zero, a sign goes through, the error is at most half the divisor rounded up, and the result is the one number that near with the right sign |
| `DecimalOps.DoDivCanMissTheNearest` | include/decimal/decimal.hh:550-564 | one divided by three is rounded up |
| `DecimalOps.Div2` | include/decimal/decimal.hh:532-549 | div2 for each combination of signs |
| `DecimalOps.Div2IsNear` | include/decimal/decimal.hh:532-549 | div2 gives the one number as near to the quotient as each combination of signs allows, off by more than the divisor where only the dividend is negative |
| `DecimalOps.Div2Agrees` | include/decimal/decimal.hh:520-549 | exactly when div2 equals div |
| `DecimalOps.Div2Differs` | include/decimal/decimal.hh:520-549 | an input on which they differ |
| `Utf8.WidthRulesAgree` | include/string_functions.hh:376-392 | the table and the leading-ones rule agree exactly below 0xF8 |
| `Utf8.WidthRulesDiffer` | include/string_functions.hh:376-392 | the width of 0xF8 is 1 by the table and 5 by the leading ones |
| `Utf8.CharWidth` | include/string_functions.hh:63-80 | on every character of section 4 of RFC 3629 both rules give its width from its first byte, and the other bytes are continuations |
| `Utf8.ScalarIsChar` | include/string_functions.hh:63-80 | every number of section 3 of RFC 3629 is encoded as a character of section 4, which decodes to it |
| `Utf8.CharIsScalar` | include/string_functions.hh:63-80 | every character of section 4 encodes its number, and no surrogate |
| `Utf8.DecodingIsUnique` | include/string_functions.hh:84-91 | well-formed bytes are the characters of one text only |
| `Substring.SkipLeading` | include/string_functions.hh:376-392 | skipping n characters ends where the n-th next begins, or at the end |
| `Substring.SkipTrailing` | include/string_functions.hh:394-402 | stepping back n characters ends where the n-th last begins, or before the beginning |
| `Substring.SmallIndex` | include/string_functions.hh:722-729 | the index holds the start of every character |
| `Substring.RowFromLeft` | include/string_functions.hh:696-720 | a row's substring from the left is the slice of its characters |
| `Substring.RowFromRight` | include/string_functions.hh:731-788 | a row's substring from the right is the slice of its characters, over the index and backwards |
| `Substring.ValidateAscii` | include/string_functions.hh:233-274 | true exactly when no byte has its top bit set |
| `Substring.AsciiRow` | include/string_functions.hh:279-308 | on ASCII bytes the byte slice is the slice of characters, from either side, also where the 32-bit end wraps around |
| `Substring.Substr` | include/string_functions.hh:790-816 | every row of the result is the slice of the decoded row, whichever path and width rule is taken |
| `Substring.SliceByPositions` | include/string_functions.hh:790-816 | which positions of a text a slice holds, for positive, zero and negative offsets |
| `Substring.Utf8Length` | include/string_functions.hh:84-91 | the number of characters |
| `Substring.Utf8LengthBytewise` | include/string_functions.hh:184-207 | counting bytes above -65 gives the number of characters |
| `BinaryColumns.BinaryColumn.Append` | include/binary_column.hh:35-38 | the rows are the old ones and the new one |
| `RowKeys.GetMaxSerializedSize` | include/binary_column.hh:40-47 | the longest row and its length |
| `RowKeys.GetMaxSerializeSize` | include/concat.hh:18-24 | room for the longest row of every column |
| `RowKeys.Serialize` | include/binary_column.hh:49-56 | length and bytes are written at the position, the rest of the buffer unchanged |
| `RowKeys.SerializeBatch` | include/binary_column.hh:58-63 | every row's key grows by the column's string, inside its window |
| `RowKeys.ConcatVertically` | include/concat.hh:26-34 | every row's key is in its own window, whole, with its size |
| `RowKeys.KeyDeterminesRow` | include/binary_column.hh:49-56 | two keys of as many strings are equal if and only if the strings are |
| `RowKeys.EqualKeysEqualRows` | include/concat.hh:26-34 | two rows have equal bytes if and only if they are equal in every column |
| `Repeat.CountN` | include/repeat.hh:21-45 | counting by doubling gives the count |
| `Repeat.FillRepeated` | include/repeat.hh:262-270 | the doubling loop writes exactly the n-fold repetition, copies only what is written already, and nothing after it |
| `Repeat.RepeatStringLogn` | include/repeat.hh:251-273 | the n-fold repetition |
| `Repeat.RepeatStringN` | include/repeat.hh:299-307 | the n-fold repetition, naively |
| `Repeat.FastRepeat` | include/repeat.hh:165-193 | the repetition of a text without its NUL and one NUL, for zero too, and nothing after |
| `GermanStrings.Allocator.Allocate` | include/german_string.h:118-137 | a block of its own for what is not kept in place, at the end of the last page with room, of a new page, or apart if it is large; blocks given out stay in bounds, apart and unchanged, and no page exceeds 4096 bytes |
| `GermanStrings.Allocator.Size` | include/german_string.h:102-111 | the sum of the sizes given out |
| `GermanStrings.Allocator.Clear` | include/german_string.h:113-116 | nothing is given out |
| `GermanStrings.Allocator.Construct` | include/german_string.h:148-158 | the string stands for its text, and the other blocks are unchanged |
| `GermanRuns.Replay` | include/german_string.h:118-158 | after any sequence of allocations and constructions, in any order, every string whose block was not built again still stands for its text, older blocks are unchanged, and the size grew by what was asked for |
| `GermanStrings.ConvertsBack` | include/german_string.h:225-236 | a string that stands for a text converts to it |
| `GermanCompare.MemCompare` | include/german_string.h:42-49 | the lexical order of two byte strings |
| `GermanCompare.Compare` | include/german_string.h:173-207 | for two strings in place and for two split ones the lexical order of the texts; otherwise the order of four bytes |
| `GermanCompare.MixedOrderIsRight` | include/german_string.h:176-197 | exactly when the order between a string in place and a split one is that of the texts |
| `GermanCompare.MixedOrderCanBeWrong` | include/german_string.h:176-197 | texts for which it is not |
| `GermanCompare.Equal` | include/german_string.h:69-81 | equality of the texts unless both strings are in place; then of the raw bytes |
| `GermanCompare.RawEquality` | include/german_string.h:69-81 | raw bytes are equal exactly when the texts are and, below four bytes, what was left behind them |
| `GermanCompare.RawEqualityCanBeWrong` | include/german_string.h:69-81 | a one-byte text twice, with different bytes left behind it: the raw bytes differ |
| `TermOrder.PartialOrderRelation.PutOne` | include/function_match.hh:45-53 | a pair is added unless it or its reverse is there |
| `TermOrder.PutKeepsAntisymmetry` | include/function_match.hh:45-53 | the relation stays antisymmetric |
| `TermOrder.CompareTerm` | include/function_match.hh:102-139 | the loop over positions gives the comparison of the terms |
| `TermOrder.ComparesByPositions` | include/function_match.hh:102-139 | greater means the same or above at every common position, less means the same or below at every and below at some, unknown means unrelated at some or pointing both ways |
| `TermOrder.LessMeansGreater` | include/function_match.hh:102-139 | if one term is less than another, the other is greater |
| `TermDicts.TermDict.Lookup` | include/function_match.hh:141-161 | a lookup goes down the first children that compare, as long as the term is greater |
| `TermTrees.AlwaysFound` | include/function_match.hh:141-174 | a lookup from the root never ends unknown, so the impossible error does not happen |
| `TermDicts.TermDict.HangNode` | include/function_match.hh:195-198 | a term is hung below a greater one, and the tree stays a tree with every edge greater above |
| `TermDicts.TermDict.PutNodeAbove` | include/function_match.hh:179-194 | a term takes the place of a smaller one, which hangs below it, and the tree stays well formed |
| `TermDicts.TermDict.PutOne` | include/function_match.hh:163-199 | storing keeps the tree well formed and is the store on values; a term is refused exactly when it is empty or a lookup ends at it |
| `TermDicts.TermDict.BestMatch` | include/function_match.hh:200-213 | the closest term a lookup is led to that is the query or above it: it is empty, the query, or the same or above at every common position; its children are unrelated to the query, or the first that is related is below it; the query itself exactly when it is found |
| `TermTrees.PathUp` | include/function_match.hh:84-100 | from every node the parents lead to the root |
| `TermTrees.FoundExactlyWhenLedTo` | include/function_match.hh:141-161 | a stored term is found exactly when every step down to it is the first child that compares |
| `TermTrees.AllFoundIsDistinct` | include/function_match.hh:141-199 | where lookups are led to every stored term, no term is stored twice |
| `TermTrees.AllFoundFinds` | include/function_match.hh:141-161 | then a lookup ends at a term exactly when it is stored |
| `TermStores.HangingKeepsFound` | include/function_match.hh:195-198 | a term hung where its lookup ended is found, and so is every term found before |
| `TermStores.PuttingOverKeepsFound` | include/function_match.hh:179-194 | a term put over a smaller one keeps every stored term found exactly when it is greater than every term within the subtree it is put over and unrelated to every term within the subtrees of later siblings |
| `TermStores.PutKeepsFound` | include/function_match.hh:163-199 | a store keeps every stored term found exactly when its lookup does not end at a smaller term, or the new term fits there: greater than all below it, unrelated to all behind it |
| `TermStores.PutAllKeepsFound` | include/function_match.hh:163-199 | over any sequence of stores, every stored term is found all along exactly when every store is such a one |
| `TermStores.StoresInOrderAreFound` | include/function_match.hh:163-199 | if no term is put after one below it, every term put is found in the end, nothing else is, and none is stored twice |
| `TermStores.FoundAreNotRepeated` | include/function_match.hh:163-199 | a dictionary without repetitions finds all its terms exactly when storing none of them again repeats it |
| `TermExample.StoreTwice` | include/function_match.hh:163-199 | four stores that leave one term in the tree twice |

## Left out

- The queue: memory orders (steps are sequentially consistent), futexes, spinning and timed waits, move constructors and destructors, slot padding, pipeline stages, and the wrap-around of 64-bit tickets and 32-bit turns.
- The queue: elements are opaque values; an allocation failure inside an expansion is modelled, exceptions of element constructors are not.
- The parser: integers are unbounded, so that signed overflow and the quotient of the least integer by -1, undefined in C, do not occur; external token numbers and debug output are not modelled.
- YyParse.Run: the value of an empty right-hand side, uninitialized in the source and never read, is 0; whether memory can be had is one answer for the whole call.
- The scanner: growth of the buffer beyond 2^31 bytes, which the source handles by smaller steps, yywrap chaining, buffers that must not be refilled, unput, input and the buffer stack; what a read delivers is a parameter, so interactive reading is one of its cases.
- Calculator.Calculate: numbers are the integer part of their text; strtod, which rounds numbers above 2^53, and the conversion of numbers beyond 32 bits are not modelled.
- The division instruction used on x86 in place of the digit-by-digit routine, and inline assembly, appear as their arithmetic meaning.
- Division128.Divmodti3: asks for operands above -2^127, since negating that number is undefined in C.
- DecimalOps.Mul2: asks that the wrapped product is not -2^127, for the same reason.
- DecimalOps.Div2: asks that the dividend scaled by 10^9 fits, as it does for every decimal; beyond that the multiplication is undefined in C.
- DecimalOps.AddAgrees: is about decimals in range; add returns the other operand unclamped when one is zero.
- Substring.Substr: use_length is always on; rows have at most 2^31 - 1 bytes, and the offset is not the least integer, whose negation is undefined.
- Substring.ValidateAscii and Substring.Utf8LengthBytewise: the vector instructions are modelled by their meaning on bytes.
- The columns: offsets are unbounded, so columns above 4 GiB, whose 32-bit offsets wrap around, are not covered; the two case-conversion families and concat_horizontally are left out.
- RowKeys.ConcatVertically: asks for at least one column and at most 4096 rows, as the source indexes the first and reserves for 4096; 32-bit overflow of the buffer size is not modelled. Lengths are written with the lowest byte first, as on a little-endian machine.
- Repeat.RepeatStringLogn: asks for a count above zero, as the source copies once before it looks at the count; 32-bit overflow of lengths is not modelled; the variants that differ only in the copying routine are left out.
- Repeat.FastRepeat: does not model that `1 << k` overflows a 32-bit integer for counts of 2^32 and more, nor 64-bit overflow of lengths.
- The split strings: append and strings of 4 GiB and more, whose 32-bit length is cut off, are left out; addresses are blocks, so that the stability of heap addresses under vector growth is part of the model.
- TermDicts.TermDict.PutOne: tree nodes are numbered by their term instead of allocated; exceptions are outcomes that leave the dictionary as it was.
- Everything else in the repository: benchmarks, tests, wrappers, generators of random data, hyperloglog, concurrency etudes whose bodies are elsewhere, and the other scanners, which are instances of the same generated engine.

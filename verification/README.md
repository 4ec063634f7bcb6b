# Verification of the ylem storage core

ylem is a distributed file store: PHP and C++ clients talk to storage nodes that run a vendored
lighttpd.  This project models the algorithmic core of both sides in Dafny and proves that it does what
it is for.  Every method below is the source's own loop or object; what it computes is stated as a
function or predicate, and the lemmas say what that means.

`dafny verify dfyconfig.toml` checks the whole project.

## What is modelled

**The LALR parser generator (`lemon.c`) and its driver (`lempar.c`)**

- `Grammars` defines derivation; `Forests` its parse forests; `SymbolSets` the set package.
- `FirstSets`, `Closures`, `Lr0`, `FollowSets` are the fixpoint computations and the automaton.
- `Lalr` says on the grammar alone which items are valid for a prefix, which tokens may follow them, and
  when a grammar is LALR(1); `Lookaheads` shows that the automaton and its follow sets are exactly that.
- `MSort` is the merge sort of all lists; `Actions` and `StateActions` are conflict resolution and
  default reductions; `ActTab` and `Tables` are the packed action table and its emission.
- `Generator` puts them together: `Generate` goes from a grammar to its tables; `Preferences` and
  `Precedences` say which of several actions they take, and what is counted as a conflict.
- `Driver` is the stack machine as a function, `Parsers` the parser object that is fed token by token,
  `Fallbacks` the search over fallback tokens.
- `ParserSoundness` shows that whatever a generated parser accepts is a sentence, `FallbackParsing` what
  this means with fallback tokens; `ParserCompleteness` that without conflicts exactly the sentences
  that fit the stack are accepted; `Unambiguous` that a sentence then has one parse tree.
- `ParserErrors` says exactly when a parser fails, overflows or accepts too early; `EarlyAccept` has a
  grammar with which it does the latter.
- `ParserTermination` shows that a call ends soon or never, `LalrTermination` (with `Vanishing`) that for
  an LALR(1) grammar every call ends, `LoopingParser` a grammar for which one does not.

**The web server of a storage node**

- `Buffers`, `Paths` (path simplification), `UrlCoding` (percent-encoding both ways) from `buffer.c`;
  `PathLaws` and `EncodingLaws` say what these do to strings, without their definitions.  `Octets`,
  `HexDigits`, `Dictionary`, `Options` and `Arithmetic` hold what several modules share.
- `CondCache`: the cache of if/else conditions of `configfile-glue.c`.
- `ArrayIndex`: the sorted index of `array.c`, over the caseless comparison of `Caseless`;
  `GeneratedKeys` and `ArrayLaws` say what becomes of the entries.
- `Chunks`: the linked chunk queue of `chunk.c`, node by node.  `HttpChunk` writes chunked bodies into
  it (`ChunkLaws`), `RequestRead` (with `Headers`) takes headers and bodies out of it; `QueueLaws` is
  about both.
- `Md5` and `Md5Layout`, `PollSlots`, `CombSort`: the digest, the poll slots and the sort of directory
  listings.

**The client**

- `Xxtea`: block cipher and string packing of `XXTEA.php`; `WordCipher` is the cipher on 32-bit words, and
  the proof that this is what is computed.

## Where the code differs from what one would expect

Each of these is a lemma with a concrete input, or an exact condition.

- `msort` is a sort only below 2^30 elements; beyond that it drops elements (`MSort.MsortPermutes`).
- A default reduction can be overtaken by a fallback token's action
  (`Fallbacks.FallbackOvertakes`; exactly when: `Fallbacks.CompressWithFallback`).
- Fallbacks in a circle are followed for ever (`Fallbacks.TwoTokenCircle`; exactly when:
  `Fallbacks.EndsExactly`).
- A rule such as `a ::= a` is reduced for ever (`LoopingParser.MakeLooping`); but a call
  ends within a known number of turns or never (`Parsers.CallEnds`), and always if the grammar is LALR(1)
  (`Generator.Generate`).
- A grammar whose start symbol is on a right-hand side may give a parser that accepts before the end, and so
  more than its sentences (`EarlyAccept.MakeEarly`); lemon reports such a start symbol as an error.  Without
  one it never happens (`ParserErrors.ApartAtEndOnly`; exactly when: `ParserErrors.AtEndOnlyExactly`).
- `Parse` ignores an end marker that comes first, so the empty sentence is never accepted
  (`Parsers.EmptyNeverAccepted`).
- A blank path simplifies to `/` but leaves `used` at 3 (`Paths.PathSimplify`).
- The caseless comparison is not an order over every alphabet (exactly when: `Caseless.TransitiveExactly`),
  and then the index misses keys that are present (`ArrayIndex.ClashMisses`; exactly when:
  `ArrayIndex.AgreesExactly`).
- A header terminator spread over three reads is missed (`Headers.ThreePieces`; exactly when:
  `Headers.ShortestExactly`, for whole runs `RequestRead.Connection.ReadRequest`).
- Opening a conditional block again for a second `else` takes the chain apart
  (`CondCache.ReopenedBlock`); the cache is right exactly for chains that match
  (`CondCache.AgreesIffMatched`).
- Chunk sizes are announced modulo 2^32 (`HttpChunk.AnnouncedSize`), and an empty part ends or spoils the
  body (`HttpChunk.DecodesExactly`).
- The comment in `chunk.c` speaks of at most four cached chunks; the code keeps five
  (`Chunks.ChunkQueue.RemoveFinished`).
- Some strings longer than 2^31 bytes survive encryption after all (`Xxtea.StringSurvives`).

## Model

| member | source | states |
|---|---|---|
| SymbolSets.SymbolSets.constructor | storage/src/lighttpd/src/lemon.c:3667-3677 | a new family holds empty sets only |
| SymbolSets.SymbolSets.Add | storage/src/lighttpd/src/lemon.c:3688-3696 | exactly one element enters exactly one set of the family, and the result tells exactly whether it is new |
| SymbolSets.SymbolSets.Union | storage/src/lighttpd/src/lemon.c:3699-3713 | one set becomes its union with another, no other set changes, and the result is true exactly if something was missing |
| FirstSets.FindLambdas | storage/src/lighttpd/src/lemon.c:627-640 | the loop ends, and a symbol is flagged if and only if it derives the empty string |
| FirstSets.EmptyFormIsLambda | storage/src/lighttpd/src/lemon.c:627-640 | flags closed under the rules flag every symbol of every form that derives the empty string, however long the derivation |
| FirstSets.AddRuleFirsts | storage/src/lighttpd/src/lemon.c:646-660 | one rule adds only terminals that can begin what its left-hand side derives; no progress means the rule is closed; progress is reported exactly when a set has grown |
| FirstSets.CloseFirsts | storage/src/lighttpd/src/lemon.c:642-661 | the loop ends with sets that are sound and closed under every rule |
| FirstSets.FirstComplete | storage/src/lighttpd/src/lemon.c:642-661 | closed sets miss no terminal that can begin any form derived from any form |
| FirstSets.FindFirstSets | storage/src/lighttpd/src/lemon.c:613-663 | `lambda` marks exactly the symbols deriving the empty string; each first set is exactly the set of terminals that can begin a sentential form derived from its nonterminal |
| Closures.Add | storage/src/lighttpd/src/lemon.c:1094-1118 | a configuration enters the list once; a known one leaves the list as it is |
| Closures.FollowOf | storage/src/lighttpd/src/lemon.c:1173-1183 | the terminals collected are exactly those that can begin the rest of the configuration, and the rest is found to vanish exactly if all its symbols are nullable |
| Closures.Expand | storage/src/lighttpd/src/lemon.c:1171-1184 | the new configuration hears everything the expanding one calls for, and nothing else enters the list, its follow sets or its links |
| Closures.Close | storage/src/lighttpd/src/lemon.c:1151-1188 | the closure is complete (every expansion is present, with its follow symbols and its link when the rest can vanish) and exact (no configuration, follow symbol or link without a reason) |
| Lr0.Builder.Find | storage/src/lighttpd/src/lemon.c:4226-4240 | a state is found exactly if one with the same basis exists |
| Lr0.Builder.CopyLinks | storage/src/lighttpd/src/lemon.c:742-751 | an existing state keeps all its back links and receives every new one at the matching basis configuration |
| Lr0.Gather | storage/src/lighttpd/src/lemon.c:796-807 | the new basis is exactly the set of configurations with the symbol after the dot, advanced; each of them is marked used and back-linked, and no other |
| Lr0.Builder.GetState | storage/src/lighttpd/src/lemon.c:729-769 | the state returned has the wanted basis; no basis ever occurs twice; older states stay as they are; the recursion ends; every state created has all its shifts |
| Lr0.Builder.ShiftSymbol | storage/src/lighttpd/src/lemon.c:790-816 | one turn records one shift to the state of the advanced configurations, marks exactly those that took part, and disturbs no other state |
| Lr0.Builder.BuildShifts | storage/src/lighttpd/src/lemon.c:774-817 | afterwards every configuration not at its end has a shift and a back link into the state it leads to |
| Lr0.Builder.FindStates | storage/src/lighttpd/src/lemon.c:670-723 | the automaton is finished: state 0 starts the start symbol, every state has every shift, and only those, that its configurations call for, and every later state is what an earlier one turns into; back links are exact: each leads from a configuration to one that is shifted into it, and none is missing |
| Lr0.Builder.FindLinks | storage/src/lighttpd/src/lemon.c:822-851 | a configuration is linked forward to another exactly if a closure linked them or the other has it as a back link |
| Lr0.StateAdded | storage/src/lighttpd/src/lemon.c:757-765 | a new state with an unused basis keeps the automaton in order and loses no back link |
| Lr0.ShiftAdded | storage/src/lighttpd/src/lemon.c:813-815 | recording a shift keeps the automaton in order |
| Lr0.TracedAdded | storage/src/lighttpd/src/lemon.c:757-765 | a new state and its back links are accounted for: the state is what an earlier one turns into, and each link comes from a configuration that is shifted there |
| Lr0.TracedCopied | storage/src/lighttpd/src/lemon.c:742-751 | copied back links are accounted for in the same way |
| FollowSets.Propagate | storage/src/lighttpd/src/lemon.c:877-885 | one configuration is satisfied; every configuration still marked COMPLETE is satisfied; nothing goes beyond the least solution; no progress means nothing has changed |
| FollowSets.FindFollowSets | storage/src/lighttpd/src/lemon.c:858-889 | for every link graph, cyclic or not, the loop ends with the least sets that contain the initial ones and are closed along all forward links |
| FollowSets.LeastMeansFlow | storage/src/lighttpd/src/lemon.c:858-889 | a symbol is in a least closed set exactly if a chain of links carries it there from an initial set |
| Lalr.LookValid | storage/src/lighttpd/src/lemon.c:853-889 | only a valid item of a prefix has lookaheads after it |
| Lookaheads.StateIsValidItems | storage/src/lighttpd/src/lemon.c:729-769 | the configurations of the state a prefix leads to are exactly the items valid for that prefix, by the definition on the grammar alone |
| Lookaheads.StateReached | storage/src/lighttpd/src/lemon.c:729-769 | every state is reached by some prefix |
| Lookaheads.SamePrefixState | storage/src/lighttpd/src/lemon.c:738-741 | prefixes with the same valid items lead to one state |
| Lookaheads.FlowedFollowsOk | storage/src/lighttpd/src/lemon.c:822-889 | follow sets closed along the links of a finished automaton contain every lookahead a parse can need |
| Lookaheads.FlowLooked | storage/src/lighttpd/src/lemon.c:822-889 | what a chain of links carries to a configuration may follow it after some prefix that leads to its state |
| Lookaheads.LookFollows | storage/src/lighttpd/src/lemon.c:822-889 | what may follow an item after a prefix is in the follow set of that item in the state of the prefix |
| Lookaheads.LeastIsExact | storage/src/lighttpd/src/lemon.c:858-889 | the least closed follow sets are exactly the LALR(1) lookaheads: a token is in the set of an item of a state if and only if it may follow the item after some prefix that leads to the state |
| Lookaheads.FollowsOf | storage/src/lighttpd/src/lemon.c:822-889 | FindLinks and FindFollowSets deliver the least closed sets, which are exactly these lookaheads |
| MSort.Merge | storage/src/lighttpd/src/lemon.c:1498-1534 | the loop merges as specified, ties going to the second list |
| MSort.MergedSorted | storage/src/lighttpd/src/lemon.c:1498-1534 | merging sorted lists gives a sorted list |
| MSort.MergedClass | storage/src/lighttpd/src/lemon.c:1498-1534 | among tied elements those of the second list come first and neither list is reordered |
| MSort.Msort | storage/src/lighttpd/src/lemon.c:1550-1574 | the bins behave as the specified binary counter and are drained in order |
| MSort.BinsHold | storage/src/lighttpd/src/lemon.c:1561-1570 | bin i is empty or holds a sorted run of 2^i elements (the last bin: its latest 2^29), and the bins together hold the last elements read, in arrival order among ties |
| MSort.MsortSortsStably | storage/src/lighttpd/src/lemon.c:1550-1574 | the result is sorted and stable, for any length: it sorts the last elements that survive the overwriting of the last bin |
| MSort.MsortPermutes | storage/src/lighttpd/src/lemon.c:1565-1569 | the result is a permutation of the input if and only if the list has fewer than 2^30 elements |
| MSort.StableSortUnique | storage/src/lighttpd/src/lemon.c:1536-1548 | order and stability determine the result: two stable sorts of a list are equal |
| Actions.ActionCmpIsComparison | storage/src/lighttpd/src/lemon.c:359-372 | the comparison of actions is a total preorder |
| Actions.Sort | storage/src/lighttpd/src/lemon.c:375-380 | a sorted permutation, for every list below 2^30 |
| StateActions.CollectActions | storage/src/lighttpd/src/lemon.c:903-933 | the list holds, once each, exactly the actions called for: transitions, complete rules on tokens of their follow sets, and acceptance in state 0 |
| StateActions.FewActions | storage/src/lighttpd/src/lemon.c:903-941 | no state of a grammar with fewer than 2^30 symbols and rule-token pairs calls for more actions than the merge sort can hold |
| Actions.ResolveKillsOne | storage/src/lighttpd/src/lemon.c:979-1033 | of two live actions on one symbol exactly one survives, whatever precedence says; other pairs are left alone |
| Actions.ResolveRow | storage/src/lighttpd/src/lemon.c:942-948 | after the inner loop no later live action shares the symbol of a live one, and no symbol has lost its last live action |
| Actions.ResolveConflicts | storage/src/lighttpd/src/lemon.c:935-949 | exactly one action stays live wherever the state had one, and the loops are the specified duels, row by row; a list without conflicts is untouched and counts none; without precedence, none counted means no conflict |
| Actions.ChampionSurvives | storage/src/lighttpd/src/lemon.c:935-949 | for any precedences and any number of actions on one symbol, the survivor is the champion: each action in turn, in the order of the list, meets the winner so far under resolve_conflict, and the conflicts counted are exactly those of these meetings |
| Actions.CountsMeetings | storage/src/lighttpd/src/lemon.c:935-949 | the loops count no conflict if and only if on no symbol an action meets the winner so far without a decision |
| Actions.FirstSurvives | storage/src/lighttpd/src/lemon.c:935-949 | without precedences the first action on a symbol survives |
| Actions.MostFrequent | storage/src/lighttpd/src/lemon.c:3614-3632 | the rule found is reduced at least as often in the list as any other, its count is exact, and of several such rules it is the earliest |
| Actions.Compress | storage/src/lighttpd/src/lemon.c:3603-3650 | the earliest of the most frequent rules becomes the default if it is reduced twice or more, else nothing changes; all other live actions stay |
| Actions.CompressKeepsActions | storage/src/lighttpd/src/lemon.c:3603-3650 | for every symbol, compression keeps the effective action where there was one and turns only errors into the default reduction |
| StateActions.FinishState | storage/src/lighttpd/src/lemon.c:895-949 | sorting, conflict resolution and compression of one state, tied to what the state calls for, in the order of actioncmp, to the specified duels, and to the number of conflicts counted |
| ActTab.ActTab.Action | storage/src/lighttpd/src/lemon.c:454-478 | the pair joins the pending set; the table is untouched |
| ActTab.WrittenRow | storage/src/lighttpd/src/lemon.c:551-556 | at an offset that passed the scan, the written table answers exactly as the set for every lookahead |
| ActTab.OtherRow | storage/src/lighttpd/src/lemon.c:526-531 | the write changes no answer at any other offset |
| ActTab.SameSet | storage/src/lighttpd/src/lemon.c:541-548 | a set that is all there, at an offset claimed by no more entries than it has, is exactly the row |
| ActTab.ActTab.Reserve | storage/src/lighttpd/src/lemon.c:491-509 | the table is kept, and every slot the scan or the write can touch is inside the allocation |
| ActTab.ActTab.FitsInEmptySlots | storage/src/lighttpd/src/lemon.c:519-531 | the first test accepts only an offset that nothing claims and whose slots are free |
| ActTab.ActTab.SameAsPrior | storage/src/lighttpd/src/lemon.c:532-548 | the second test accepts only an offset whose row is the very same set |
| ActTab.ActTab.Search | storage/src/lighttpd/src/lemon.c:518-550 | the scan ends at an offset that can take the set; appending always can |
| ActTab.ActTab.Insert | storage/src/lighttpd/src/lemon.c:487-562 | the returned offset finds exactly the inserted set, no other offset answers differently, and the offset was empty or held the same set before |
| Tables.PackedOneMore | storage/src/lighttpd/src/lemon.c:3323-3349 | packing one more set keeps every set packed before, even when offsets are shared |
| Tables.EntriesDistinct | storage/src/lighttpd/src/lemon.c:3325-3344 | resolved lists hand the packer sets that mention each lookahead once |
| Tables.SetAnswers | storage/src/lighttpd/src/lemon.c:3325-3344 | a set answers for each symbol of its class as the state's list does |
| Tables.Pack | storage/src/lighttpd/src/lemon.c:3323-3350 | every set handed over is found at its offset; the loop stops only at an empty set |
| Tables.PackedAll | storage/src/lighttpd/src/lemon.c:3321-3323 | because the sets come largest first, exactly the non-empty ones have an offset |
| Tables.ReportTable | storage/src/lighttpd/src/lemon.c:3284-3440 | for every state and symbol the driver's lookup in the emitted arrays gives the effective action of the state's list |
| Tables.StateAnswers | storage/src/lighttpd/src/lempar.c:322-386 | one lookup by offset, with its default, agrees with the list |
| Fallbacks.DriverFollowsChain | storage/src/lighttpd/src/lempar.c:338-352 | whenever it ends, the driver's recursion over fallback tokens finds the first token of the chain that has an action, and otherwise the default |
| Fallbacks.CompressedSupplies | storage/src/lighttpd/src/lempar.c:338-352 | after compression a chain yields the default rule exactly if all its own actions were reductions by that rule |
| Fallbacks.CompressWithFallback | storage/src/lighttpd/src/lemon.c:3603-3650 | with fallback tokens compression keeps the action if and only if no reduction by the default rule is followed on the chain by another action |
| Fallbacks.FallbackOvertakes | storage/src/lighttpd/src/lempar.c:338-352 | a state in which compression turns a reduction into a shift for a token with a fallback |
| Fallbacks.EndsExactly | storage/src/lighttpd/src/lempar.c:338-352 | the search ends if and only if the state has no actions of its own on tokens or the token is not in a circle of fallbacks without actions |
| Fallbacks.EndsSoon | storage/src/lighttpd/src/lempar.c:338-352 | the search ends within as many steps as there are tokens, or never |
| Fallbacks.TwoTokenCircle | storage/src/lighttpd/src/lempar.c:338-352 | two tokens that stand in for each other and have no action send the search round for ever |
| Fallbacks.CircleNeverEnds | storage/src/lighttpd/src/lempar.c:338-352 | fallbacks in a circle, none with an action, are followed without end |
| Driver.ItemOnStack | storage/src/lighttpd/src/lempar.c:446-485 | on every path of the automaton an item of the top state has its part before the dot spelled on top of the stack, and began in the state underneath |
| Driver.BegunHasGoto | storage/src/lighttpd/src/lempar.c:476-484 | a state where a rule begins has a transition on its left-hand side, or is state 0 with a rule of the start symbol |
| ParserSoundness.ReducePops | storage/src/lighttpd/src/lempar.c:476-479 | each reduction pops entries that spell the rule's right-hand side, never below the bottom, onto a state that knows the left-hand side |
| ParserSoundness.ReduceSound | storage/src/lighttpd/src/lempar.c:446-485 | a reduction keeps the derivation of the shifted tokens, or accepts having found a sentence; it never misfires |
| ParserSoundness.RunSound | storage/src/lighttpd/src/lempar.c:589-685 | at every point of every run no token is lost or reordered and the stack derives exactly the tokens shifted |
| ParserSoundness.AcceptsOnlySentences | storage/src/lighttpd/src/lempar.c:558-687 | for every grammar and every token sequence a run never breaks, and acceptance means the start symbol derives exactly the tokens shifted |
| ParserSoundness.ShiftedIsViable | storage/src/lighttpd/src/lempar.c:589-599 | at every point of every run, from the start on, the tokens shifted begin a form of the start symbol, so an erroneous token is never shifted, default reductions or not |
| Forests.DerivationForest | storage/src/lighttpd/src/lempar.c:446-485 | every derivation of a token string has a parse forest |
| Forests.SentenceForest | storage/src/lighttpd/src/lempar.c:446-485 | every sentence has a parse tree |
| Forests.TreeDerives | storage/src/lighttpd/src/lempar.c:446-485 | what a parse tree of the start symbol yields is a sentence |
| Forests.PostDetermines | storage/src/lighttpd/src/lempar.c:446-485 | roots and the order of reductions determine a forest |
| Forests.DerivationTree | storage/src/lighttpd/src/lempar.c:446-485 | every derivation of a sentence has a tree with a rule for every step |
| ParserCompleteness.LookaheadFollows | storage/src/lighttpd/src/lemon.c:853-889 | the token after a phrase is in the follow set of the rule that yields the phrase |
| ParserCompleteness.ParseForest | storage/src/lighttpd/src/lempar.c:589-600 | reading the yield of any forest below an awaiting item reduces by its rules, bottom up, and brings its roots onto the stack, or overflows, exactly as the forest's need of stack says |
| ParserCompleteness.SentenceAccepted | storage/src/lighttpd/src/lempar.c:558-687 | a sentence followed by the end marker is accepted if the stack is deep enough for its tree, having reduced by the tree's rules in their order, and overflows otherwise |
| ParserCompleteness.AcceptsExactlySentences | storage/src/lighttpd/src/lempar.c:558-687 | without conflicts the driver accepts a string if and only if the grammar derives it through a tree that the stack is deep enough for; every other sentence overflows |
| ParserCompleteness.OneEnd | storage/src/lighttpd/src/lempar.c:589-685 | a run has one end only, however many turns it is given |
| ParserTermination.TurnUndoesStep | storage/src/lighttpd/src/lempar.c:589-600 | a turn that leaves the token where it is undoes exactly one derivation step |
| ParserTermination.EndsOrCircles | storage/src/lighttpd/src/lempar.c:589-600 | for every sound parser, stack and token: after as many turns as the stack has spellings the token has been dealt with, or the run has come back to where it was |
| ParserTermination.CirclesForEver | storage/src/lighttpd/src/lempar.c:589-600 | a run that comes back to where it was never ends |
| ParserTermination.EndsSoon | storage/src/lighttpd/src/lempar.c:589-600 | for every sound parser, cyclic grammar or not: the loop on a token ends if and only if it ends within that number of turns |
| ParserTermination.CircleDerives | storage/src/lighttpd/src/lempar.c:589-600 | a circle is a form of the grammar that derives itself in as many steps |
| ParserTermination.TokenEnds | storage/src/lighttpd/src/lempar.c:589-600 | in a grammar where no form derives itself every token is dealt with, within a number of turns that the grammar and the depth of the stack give |
| Unambiguous.OneTree | storage/src/lighttpd/src/lempar.c:558-687 | without conflicts a sentence has one parse tree |
| Unambiguous.CompleteIsUnambiguous | storage/src/lighttpd/src/lempar.c:558-687 | so a grammar without conflicts is unambiguous |
| Vanishing.VanishesOnce | storage/src/lighttpd/src/lemon.c:935-949 | in an LALR(1) grammar two items that have started, after one prefix, can both vanish before one token only if they are one item |
| Vanishing.BeginsNotVanishes | storage/src/lighttpd/src/lemon.c:935-949 | in an LALR(1) grammar nothing vanishes before a token that, after the same prefix, some item goes on to begin with |
| Vanishing.CircleNotLooked | storage/src/lighttpd/src/lemon.c:935-949 | in an LALR(1) grammar rules that derive each other in a circle are never followed by any token, so lemon never calls for them |
| Generator.GeneratedWarranted | storage/src/lighttpd/src/lemon.c:895-949 | the emitted tables reduce by a rule only where it may be followed by the token, or, by default, by two other tokens; conflicts or not |
| LalrTermination.RunClimbs | storage/src/lighttpd/src/lempar.c:589-600 | while the stack does not fall below a height, all above it can vanish, and the rules that replace the entry at that height derive one another |
| LalrTermination.NeverReturns | storage/src/lighttpd/src/lempar.c:589-600 | the parser of an LALR(1) grammar, whatever its stack and token, never comes back to a stack with the token still to be dealt with |
| LalrTermination.SettledEnds | storage/src/lighttpd/src/lempar.c:589-600 | so it deals with every token, within the known number of turns |
| LoopingParser.CyclicRuleLoops | storage/src/lighttpd/src/lempar.c:589-600 | every parser that lemon can make of a grammar with a rule such as `a ::= a` and no precedences reduces by that rule for ever on a sentence of the grammar |
| LoopingParser.MakeLooping | storage/src/lighttpd/src/lemon.c:1405-1436 | running lemon on this grammar gives such a parser |
| FallbackParsing.FoundReadAs | storage/src/lighttpd/src/lempar.c:338-352 | the action found through fallbacks is that of a token the given one may stand in for; the end marker stands for itself |
| FallbackParsing.RunWithSound | storage/src/lighttpd/src/lempar.c:589-685 | with fallback tokens, too, no token is lost at any point of any run, and the stack derives the tokens shifted, each read as itself or as a token it may stand in for |
| FallbackParsing.AcceptsReadSentences | storage/src/lighttpd/src/lempar.c:558-687 | with fallback tokens a run never breaks, and acceptance means that the tokens shifted, so read, are a sentence |
| Generator.EffectiveCalled | storage/src/lighttpd/src/lemon.c:895-949 | whatever the driver is told to do is something the state calls for, or a default reduction by a rule it can reduce |
| Generator.OnlyCallEffective | storage/src/lighttpd/src/lemon.c:895-949 | an action that is the only one called for on its symbol survives resolution, compression and defaulting |
| Generator.CalledEffective | storage/src/lighttpd/src/lemon.c:895-949 | where a state calls for something on a symbol, what the driver is told is one of the actions called for |
| Generator.GeneratedResponsive | storage/src/lighttpd/src/lemon.c:895-949 | the emitted tables do one of the things called for wherever something is called for, conflicts or not |
| Generator.BuiltExact | storage/src/lighttpd/src/lemon.c:670-723 | the states are exactly the sets of valid items |
| Generator.ConflictFreeIsLalr1 | storage/src/lighttpd/src/lemon.c:935-949 | no state calls for two actions on one symbol if and only if the grammar is LALR(1), which is said of the grammar alone |
| Preferences.OrderIsUnique | storage/src/lighttpd/src/lemon.c:359-380 | what a state calls for has one sorted list, so the champion is determined |
| Preferences.FinalChosen | storage/src/lighttpd/src/lemon.c:935-949 | after resolution and compression the list still does what the champion says |
| Generator.GeneratedChooses | storage/src/lighttpd/src/lemon.c:935-949 | wherever a state calls for something on a token, the emitted tables do what the champion of its sorted list says |
| Preferences.ShiftIsTaken | storage/src/lighttpd/src/lemon.c:359-372 | without precedences a token that can be shifted is shifted |
| Preferences.LeastRuleIsTaken | storage/src/lighttpd/src/lemon.c:359-372 | without precedences, of several rules that may be reduced and no shift, the tables take the one declared first |
| Preferences.TwoAreCompared | storage/src/lighttpd/src/lemon.c:979-1033 | of two actions called for on a token, the tables do the one that resolve_conflict spares under the declared precedences |
| Precedences.ShiftUnlessWon | storage/src/lighttpd/src/lemon.c:992-1013 | said of the declarations and the emitted tables alone: a token that can be shifted is shifted, unless some rule called for on it has a higher precedence than the token, or the same one and the token is LEFT; then the tables reduce by one of the rules called for |
| Precedences.ShiftOrReduce | storage/src/lighttpd/src/lemon.c:992-1013 | a shift and one reduction: the shift is taken if the token has the higher precedence, or the same one and is not LEFT, or if one of them has none; the reduction if the rule has the higher one, or the same one and the token is LEFT |
| Precedences.HighestIsTaken | storage/src/lighttpd/src/lemon.c:1014-1028 | of any number of rules that have a precedence, and no shift, the tables take the one of the highest; of several of these the one declared first |
| Precedences.TwoRules | storage/src/lighttpd/src/lemon.c:1014-1028 | of two rules the second is taken if both have a precedence and that of the second is higher, otherwise the first |
| Precedences.SilentIsConflict | storage/src/lighttpd/src/lemon.c:993-1023 | if a state calls for a shift and one rule, or for two rules, on a token, and one of the two has no precedence, or they have the same and the token does not associate, then a conflict is counted (by Generator.Generate) |
| Precedences.NothingSilent | storage/src/lighttpd/src/lemon.c:993-1023 | where declarations decide between the actions called for, nothing is counted |
| Precedences.UncountedIsDecided | storage/src/lighttpd/src/lemon.c:935-949 | no conflict is counted if and only if no list of a state has a meeting that resolve_conflict counts |
| Generator.GeneratedSound | storage/src/lighttpd/src/lemon.c:895-949 | the emitted tables never go beyond the automaton |
| Generator.GeneratedComplete | storage/src/lighttpd/src/lemon.c:895-949 | without conflicts the emitted tables do everything the automaton calls for |
| Generator.ConflictFreeLists | storage/src/lighttpd/src/lemon.c:935-949 | the resolved lists had no conflict exactly if no state calls for two actions on one symbol |
| Generator.Generate | storage/src/lighttpd/src/lemon.c:1405-1436 | whatever the grammar: the states are the sets of valid items, the follow sets are exactly the LALR(1) lookaheads, the tables stay within them, respond wherever they call for something, and decide conflicts as the precedences say (in the words of Precedences, without resolve_conflict), so the parser is sound; no conflict is counted if and only if the precedences decide all meetings; for an LALR(1) grammar it is complete, no conflict is counted, no sentence has two trees, and every call ends; without precedence no conflict is counted if and only if the grammar is LALR(1); with the start symbol on no right-hand side the parser accepts at the end marker only |
| ParserErrors.TurnFails | storage/src/lighttpd/src/lempar.c:601-680 | a turn fails exactly if the tables have nothing for the token |
| ParserErrors.TurnOverflows | storage/src/lighttpd/src/lempar.c:398-413 | a turn overflows exactly if the stack holds as many entries as it is deep and one more is to be pushed: by a shift, or by a reduction of an empty rule |
| ParserErrors.OverflowExactly | storage/src/lighttpd/src/lempar.c:398-413 | a run that is over has overflowed if and only if at some point it met a full stack and one more entry was to be pushed |
| ParserErrors.FailureIsError | storage/src/lighttpd/src/lempar.c:601-680 | a run fails only where the tables have nothing for the next token, and the tokens before it begin a form of the start symbol |
| ParserErrors.ErrorIsWrong | storage/src/lighttpd/src/lempar.c:601-680 | without conflicts a token is in error only if no sentence goes on with it; the end marker, only if what came before it is no sentence |
| ParserErrors.TurnAccepts | storage/src/lighttpd/src/lempar.c:479-484 | a turn accepts exactly if the stack spells a rule of the start symbol that the tables reduce there, whatever the token |
| ParserErrors.AtEndOnlyExactly | storage/src/lighttpd/src/lempar.c:479-484 | no stack is accepted before the end marker if and only if no table entry reduces a rule of the start symbol on another token in the state that the rule has led to |
| ParserErrors.ApartAtEndOnly | storage/src/lighttpd/src/lemon.c:693-706 | this is so for every parser that lemon makes of a grammar whose start symbol is on no right-hand side, as the error message of FindStates demands |
| ParserErrors.WrongEnds | storage/src/lighttpd/src/lempar.c:558-687 | a string that is no sentence ends in a syntax error, unless a full stack was met, or the parser accepts with some of the string still to come |
| ParserErrors.Outcomes | storage/src/lighttpd/src/lempar.c:558-687 | without conflicts and early acceptance: overflow exactly if a full stack was met, and otherwise acceptance exactly of the sentences and failure exactly of the rest |
| EarlyAccept.NestLalr1 | storage/src/lighttpd/src/lemon.c:935-949 | the grammar `s ::= a | b s c` is LALR(1) |
| EarlyAccept.AcceptsEarly | storage/src/lighttpd/src/lempar.c:479-484 | its parser, given `a c`, accepts after the `a` |
| EarlyAccept.MakeEarly | storage/src/lighttpd/src/lemon.c:693-706 | running lemon on this grammar gives such a parser without a conflict counted, although `a c` is no sentence |
| Parsers.Parser.Shift | storage/src/lighttpd/src/lempar.c:391-417 | the entry is pushed, or the whole stack is popped exactly if it was full |
| Parsers.Parser.Reduce | storage/src/lighttpd/src/lempar.c:446-485 | the object does what the driver's reduction does, including acceptance and overflow |
| Parsers.Parser.Turn | storage/src/lighttpd/src/lempar.c:590-684 | one turn of the loop is one step of the driver and keeps the stack a derivation of the tokens shifted; acceptance means a sentence; it fails exactly if the tables have nothing for the token, and then the stack stays, or goes if the token is the end marker; it overflows exactly if the stack is full and one more entry is to be pushed |
| Parsers.Parser.Parse | storage/src/lighttpd/src/lempar.c:558-687 | one call does what the driver's run on that token does, from any state of the object; acceptance means that the tokens shifted are a sentence; failure means that reductions have led to a stack on which the token is in error, which is the stack that is kept; overflow means that they have led to a full stack on which one more entry was to be pushed; with the known number of turns the call has ended if and only if the loop of the source ends at all |
| Parsers.CallsRun | storage/src/lighttpd/src/lempar.c:558-687 | feeding tokens one call at a time is one run over the whole sequence |
| Parsers.CallsAcceptSentences | storage/src/lighttpd/src/lempar.c:558-687 | fed token by token, a parser without conflicts accepts a non-empty string exactly if it is a sentence that the stack is deep enough for |
| Parsers.CallEnds | storage/src/lighttpd/src/lempar.c:558-687 | for every sound parser a call ends within a number of turns that the grammar and the depth of the stack give, or never; it ends if no form derives itself, and always if lemon made the parser of an LALR(1) grammar |
| Parsers.CallsFinish | storage/src/lighttpd/src/lempar.c:558-687 | under one of these two conditions the calls on every token stream end, and with the end marker so does the parse |
| Parsers.CallsDecide | storage/src/lighttpd/src/lempar.c:558-687 | without conflicts, with the known number of turns for each call, exactly the sentences that fit are accepted; for the parser of an LALR(1) grammar every string comes to an end: it overflows exactly if a full stack was met, and otherwise, if the parser accepts at the end marker only, it fails exactly if it is no sentence |
| Parsers.EmptyNeverAccepted | storage/src/lighttpd/src/lempar.c:572-573 | the empty sentence is never accepted through Parse, although its tables accept it |
| Buffers.Buffer.PrepareCopy | storage/src/lighttpd/src/buffer.c:73-90 | there is room, and the old contents are given up |
| Buffers.Buffer.PrepareAppend | storage/src/lighttpd/src/buffer.c:99-121 | there is room for more, and the contents stay |
| Paths.StepBack | storage/src/lighttpd/src/buffer.c:988-996 | stepping back from a slash removes exactly the last entry, and stops at the root |
| Paths.CloseToken | storage/src/lighttpd/src/buffer.c:986-1005 | closing a token leaves the directory stack after that segment, rendered, with a final slash only at the end of the path |
| Paths.Rewrite | storage/src/lighttpd/src/buffer.c:985-1018 | the one-pass loop, in place or not, writes the segment-stack form of everything read |
| Paths.PathSimplify | storage/src/lighttpd/src/buffer.c:936-1024 | for every string the buffer receives the segment-stack form as a C string, at most one byte longer than the input; source and destination may be one buffer; `used` is right exactly if the path is not blank |
| Paths.StrippedIs | storage/src/lighttpd/src/buffer.c:957-961 | exactly the blanks at the front are left out |
| PathLaws.ParentTakesBack | storage/src/lighttpd/src/buffer.c:988-996 | for every path, every ordinary segment and every rest, the segment and `/..` behind it cancel |
| PathLaws.DotGoesAway | storage/src/lighttpd/src/buffer.c:1001-1003 | `/./` is the same as `/` |
| PathLaws.SlashGoesAway | storage/src/lighttpd/src/buffer.c:1004-1006 | `//` is the same as `/` |
| PathLaws.RootHasNoParent | storage/src/lighttpd/src/buffer.c:988-996 | `/../` at the front is the same as `/` |
| PathLaws.EndsInSlash | storage/src/lighttpd/src/buffer.c:1004-1006 | a path that ends in `/.` or `/..` is simplified as if a slash stood behind it |
| PathLaws.OrdinaryStays | storage/src/lighttpd/src/buffer.c:936-1024 | an absolute path of ordinary segments is left as it is, with or without a slash at its end |
| PathLaws.GetsSlash | storage/src/lighttpd/src/buffer.c:971-974 | a path without a slash in front gets one |
| Paths.SimplifyClean | storage/src/lighttpd/src/buffer.c:936-1024 | in the result no segment is `.` or `..`, and none is empty but behind the last slash |
| Paths.SimplifyIdempotent | storage/src/lighttpd/src/buffer.c:936-1024 | simplifying twice changes nothing more, and the result is absolute |
| Paths.SplitRender | storage/src/lighttpd/src/buffer.c:936-1024 | splitting a rendered directory stack gives the stack back |
| UrlCoding.CountEncoded | storage/src/lighttpd/src/buffer.c:801-823 | the first pass counts exactly the bytes of the encoded form |
| UrlCoding.PutAll | storage/src/lighttpd/src/buffer.c:827-862 | the second pass writes exactly the encoded form and its terminator into the space counted |
| UrlCoding.AppendEncoded | storage/src/lighttpd/src/buffer.c:763-867 | the old string is kept and followed by the encoded form and one terminator |
| UrlCoding.Hex2IntExact | storage/src/lighttpd/src/buffer.c:391-401 | exactly the hexadecimal digits of either case are recognised, with their values |
| UrlCoding.DecodeInPlace | storage/src/lighttpd/src/buffer.c:884-911 | decoding over the input never overtakes the reader and gives the decoded form of the original |
| UrlCoding.UrlDecode | storage/src/lighttpd/src/buffer.c:874-923 | the buffer ends up with the decoded C string, in place |
| UrlCoding.RoundTrip | storage/src/lighttpd/src/buffer.c:763-915 | decoding either URI encoding of any byte string, as path or query, gives it back with control characters replaced by `_` |
| UrlCoding.EncodedIsSafe | storage/src/lighttpd/src/buffer.c:629-670 | an encoded string is printable ASCII without any reserved byte but the percent sign |
| EncodingLaws.LeftAloneExactly | storage/src/lighttpd/src/buffer.c:629-761 | for each of the six encodings, the exact characters that it leaves alone |
| EncodingLaws.UriByte | storage/src/lighttpd/src/buffer.c:831-840 | any other byte becomes a percent sign and its two digits in a URI |
| EncodingLaws.TextIsSafe | storage/src/lighttpd/src/buffer.c:841-850 | encoded HTML or XML holds no angle bracket, and an ampersand only at the front of a character reference |
| EncodingLaws.TextComesBack | storage/src/lighttpd/src/buffer.c:841-850 | reading its character references gives the text back, for every string of bytes |
| EncodingLaws.HexPairs | storage/src/lighttpd/src/buffer.c:851-854 | hexadecimal: two lower case digits for each byte, in order |
| EncodingLaws.HeaderFolds | storage/src/lighttpd/src/buffer.c:855-858 | in a header value every line feed is followed by a tab; without these tabs it is the value again |
| EncodingLaws.DecodesBytewise | storage/src/lighttpd/src/buffer.c:884-911 | decoding takes an escape in either case for its byte, a control character for `_`, a plus for a space in a query only, and all else for itself, broken escapes too |
| CondCache.Connection.CheckNoCache | storage/src/lighttpd/src/configfile-glue.c:177-234 | the recursive method leaves the cache and result of the specified evaluation; the recursion ends |
| CondCache.Connection.CheckCached | storage/src/lighttpd/src/configfile-glue.c:456-489 | the memoising method, with its writes into later brothers, is the specified evaluation |
| CondCache.Connection.ResetAll | storage/src/lighttpd/src/configfile-glue.c:496-520 | everything is unknown again |
| CondCache.InverseLinksMatch | storage/src/lighttpd/src/configparser.c:1119-1121 | links that are mutual inverses show the same chains in both directions |
| CondCache.CachedKeeps | storage/src/lighttpd/src/configfile-glue.c:456-489 | one check keeps the invariant, revises nothing, and decides the block when its field is known and its parent true |
| CondCache.RunAgrees | storage/src/lighttpd/src/configfile-glue.c:177-489 | over every run of checks and arriving fields in order, each decided entry is the nested if/else meaning, a true block has all later brothers false, and no decision changes |
| CondCache.AgreesIffMatched | storage/src/lighttpd/src/configfile-glue.c:460-470 | with all fields known the cache is right in every run if and only if `prev` and `next` show the same chains |
| CondCache.AgreesIffOrdered | storage/src/lighttpd/src/configfile-glue.c:202-234 | with some fields known the cache is right in every run if and only if no block can be decided before its earlier brother |
| CondCache.ReopenedBlock | storage/src/lighttpd/src/configparser.c:1119-1121 | a configuration that gives one block two `else` branches and makes two of its blocks true |
| Xxtea.ToInt32 | client/php/pure/ylem_cli/XXTEA.php:355-359 | the loops give the signed 32-bit number congruent to the argument |
| Xxtea.MxWords | client/php/pure/ylem_cli/XXTEA.php:221-221 | mixing depends on the low 32 bits of its operands only |
| Xxtea.UndoStep | client/php/pure/ylem_cli/XXTEA.php:268-287 | undoing one word restores it, for every block of two words or more |
| Xxtea.DecryptUndoesEncrypt | client/php/pure/ylem_cli/XXTEA.php:210-287 | for every key and every block of two words or more, decryption after encryption gives the words back modulo 2^32 |
| Xxtea.EncryptUndoesDecrypt | client/php/pure/ylem_cli/XXTEA.php:210-287 | and encryption after decryption |
| WordCipher.WordOfXor | client/php/pure/ylem_cli/XXTEA.php:221-221 | the exclusive or of the low 32 bits is that of 32-bit words, bit by bit |
| WordCipher.WordOfMx | client/php/pure/ylem_cli/XXTEA.php:221-221 | the word mixed in is `((z >> 5 ^ y << 2) + (y >> 3 ^ z << 4)) ^ ((sum ^ y) + (key[p & 3 ^ sum >> 2 & 3] ^ z))` on 32-bit words |
| WordCipher.EncryptedAsPublished | client/php/pure/ylem_cli/XXTEA.php:210-229 | for every key and every block the words are those of XXTEA written down on 32-bit words: the greatest number of rounds q with q*n <= 6*n + 52, with sums k * 0x9E3779B9, each adding to every word what is mixed from its neighbours |
| WordCipher.ZeroBlock | client/php/pure/ylem_cli/XXTEA.php:210-229 | two zero words under the zero key become 0x053704AB and 0x575D8C80 |
| Xxtea.SumAfterZero | client/php/pure/ylem_cli/XXTEA.php:273-285 | the round constant is zero only after a multiple of 2^32 rounds, so the loop runs exactly as often as encryption did |
| Xxtea.Crypt.EncryptArray | client/php/pure/ylem_cli/XXTEA.php:210-229 | the nested loops compute the specified rounds |
| Xxtea.Crypt.DecryptArray | client/php/pure/ylem_cli/XXTEA.php:268-287 | the loop that ends on a zero sum ends, and computes exactly the specified rounds backwards |
| Xxtea.Crypt.SetKey | client/php/pure/ylem_cli/XXTEA.php:91-104 | one to four integers are accepted and padded with zeros, anything else leaves the key as it was |
| Xxtea.Crypt.EncryptString | client/php/pure/ylem_cli/XXTEA.php:187-194 | packing, rounds and unpacking in this order give the encrypted string that StringSurvives speaks of |
| Xxtea.Crypt.DecryptString | client/php/pure/ylem_cli/XXTEA.php:245-252 | and the decrypted one |
| Xxtea.PackUnpack | client/php/pure/ylem_cli/XXTEA.php:304-337 | packing undoes unpacking of whole words |
| Xxtea.StringWords | client/php/pure/ylem_cli/XXTEA.php:304-320 | the words of a string: the value of four bytes each, the first the least, zeros behind the end, and then its length |
| Octets.EncodeWordValue | client/php/pure/ylem_cli/XXTEA.php:322-337 | the bytes of a word are those that are worth its low 32 bits, the first the least, and no others |
| Xxtea.StringSurvives | client/php/pure/ylem_cli/XXTEA.php:187-252 | a string survives encryption and decryption if and only if it is shorter than 2^31 bytes or its length is 4 to 7 below a multiple of 2^32 |
| Caseless.CaselessCompare | storage/src/lighttpd/src/buffer.c:538-585 | word-wise comparison, whatever the alignment, gives the byte-wise result |
| Caseless.TransitiveExactly | storage/src/lighttpd/src/buffer.c:568-574 | over every alphabet the comparison is a total preorder if and only if the alphabet has no clash: an upper and a lower case letter, the lower not after the upper, with a byte 0x5B to 0x60 |
| Caseless.CgiNamesInOrder | storage/src/lighttpd/src/buffer.c:568-574 | in particular it is one for names without lower case letters, such as `HTTP_HOST` |
| Caseless.EqualIgnoringCase | storage/src/lighttpd/src/buffer.c:538-585 | two strings compare as equal if and only if they differ in the case of letters only |
| Caseless.PlainInOrder | storage/src/lighttpd/src/buffer.c:538-585 | ASCII strings without the six characters between the cases are in dictionary order of their lower case forms |
| Caseless.FirstDifference | storage/src/lighttpd/src/buffer.c:564-576 | for all strings: where they first differ by more than case, letters of different case compare in lower case, all other bytes as signed characters |
| ArrayIndex.SearchBounded | storage/src/lighttpd/src/array.c:90-114 | whatever the keys and their order, a failed search ends at most one place outside the index, so the insertion stays inside |
| ArrayIndex.SearchFinds | storage/src/lighttpd/src/array.c:90-112 | a stepping search started near enough finds the key exactly if it is there, and otherwise ends within one place of where it belongs |
| ArrayIndex.FindIsScan | storage/src/lighttpd/src/array.c:84-117 | over an alphabet without a clash the indexed search gives what a linear scan over the entries gives |
| ArrayIndex.SpotIsRank | storage/src/lighttpd/src/array.c:212-216 | the correction by one place gives the only position that keeps the index sorted |
| ArrayIndex.InsertInOrder | storage/src/lighttpd/src/array.c:163-229 | inserting, over an alphabet without a clash: the entries gain the new one or merge it into the one with an equal key of its type, and the index stays a sorted permutation of all slots |
| ArrayIndex.ReplaceInOrder | storage/src/lighttpd/src/array.c:150-161 | replacing likewise, also for entries that need a generated key |
| ArrayIndex.AgreesExactly | storage/src/lighttpd/src/array.c:84-229 | for every alphabet: in every run of insertions, replacements and resets with keys over it, every lookup agrees with a linear scan, if and only if the alphabet has no clash |
| GeneratedKeys.IndexKeyIsNumeral | storage/src/lighttpd/src/buffer.c:327-333 | a generated key is the decimal numeral of its number, without leading zeros, and no other string |
| GeneratedKeys.IndexKeysDiffer | storage/src/lighttpd/src/array.c:168-172 | generated keys compare as equal exactly if their numbers are equal |
| GeneratedKeys.KeylessAppended | storage/src/lighttpd/src/array.c:168-172 | after every run in which no given key is a numeral not yet generated, over any bytes, an entry without a key is appended |
| GeneratedKeys.AppendedExactly | storage/src/lighttpd/src/array.c:168-185 | over an alphabet without a clash, exactly if no entry has the next numeral for its key |
| ArrayLaws.InsertMeans | storage/src/lighttpd/src/array.c:163-229 | without the index: if the key is there, case aside, only the first entry with it changes, to what insert_dup makes of both values if they are of one kind; otherwise the entry comes last |
| ArrayLaws.ReplaceMeans | storage/src/lighttpd/src/array.c:150-161 | the first entry with the key becomes the new one; if there is none the new one is inserted |
| ArrayIndex.ClashMisses | storage/src/lighttpd/src/array.c:84-229 | for every clash, the run of two or three insertions after which a key that is present is not found |
| ArrayIndex.Array.GetIndex | storage/src/lighttpd/src/array.c:84-117 | slot and last position are those of the specified search, for keys of any kind |
| ArrayIndex.Array.GetElement | storage/src/lighttpd/src/array.c:119-129 | the entry returned is the one in the slot found and, without a clash, the one a linear scan finds |
| ArrayIndex.Array.InsertPosition | storage/src/lighttpd/src/array.c:212-216 | the position inserted at, for keys of any kind; without a clash it is where the key belongs |
| ArrayIndex.Array.InsertUnique | storage/src/lighttpd/src/array.c:163-229 | the object does what the specified insertion does, for keys of any kind; without a clash the entries change as inserting means and the index stays in order |
| ArrayIndex.Array.Replace | storage/src/lighttpd/src/array.c:150-161 | the object does what the specified replacement does and gives back the old entry; without a clash the entries change as replacing means and the index stays in order |
| ArrayIndex.Array.Reset | storage/src/lighttpd/src/array.c:59-70 | no entries are left and the index is in order |
| Chunks.ChunkQueue.GetUnused | storage/src/lighttpd/src/chunk.c:99-114 | a free chunk of the stack, or a new one, that is in no list |
| Chunks.ChunkQueue.AppendChunk | storage/src/lighttpd/src/chunk.c:127-138 | the linked list gains the chunk at its end and nothing else changes |
| Chunks.ChunkQueue.PrependChunk | storage/src/lighttpd/src/chunk.c:116-125 | the linked list gains the chunk at its front, also when it was empty |
| Chunks.ChunkQueue.Prepend | storage/src/lighttpd/src/chunk.c:213-226 | a new unread chunk with these octets comes first, before all others |
| Chunks.ChunkQueue.RemoveFinished | storage/src/lighttpd/src/chunk.c:367-402 | exactly the finished chunks at the front are gone, no pending octet is lost, and the stack grows to five at most |
| Chunks.ChunkQueue.Reset | storage/src/lighttpd/src/chunk.c:140-161 | the queue is empty, its counters zero, and its chunks stay in order on the stack or are let go |
| Chunks.ChunkQueue.Length | storage/src/lighttpd/src/chunk.c:325-343 | all octets of the queue, read or not |
| QueueLaws.LengthIsAll | storage/src/lighttpd/src/chunk.c:325-343 | the length is the number of octets of all chunks put together |
| Chunks.UnfinishedPending | storage/src/lighttpd/src/chunk.c:367-402 | removing finished chunks keeps the octets to come, and what is then first has some |
| HttpChunk.SizeDigits | storage/src/lighttpd/src/http_chunk.c:29-47 | counting digits and filling them from the right writes the hexadecimal size |
| ChunkLaws.SizeLineIs | storage/src/lighttpd/src/http_chunk.c:29-47 | for every size: at most eight lower case digits that spell it modulo 2^32, no leading zero below 2^32, CR and LF |
| HttpChunk.Response.AppendLen | storage/src/lighttpd/src/http_chunk.c:23-51 | the size line is queued behind everything else |
| HttpChunk.Response.AppendMem | storage/src/lighttpd/src/http_chunk.c:74-121 | the piece is queued with its frame, or bare if the response is not chunked |
| HttpChunk.Response.AppendFile | storage/src/lighttpd/src/http_chunk.c:54-72 | a stretch of a file is queued with its frame; an empty one brings its size line only |
| HttpChunk.Response.AppendEnd | storage/src/lighttpd/src/http_chunk.c:101-108 | the end of the body is queued |
| HttpChunk.EmptyPieceEnds | storage/src/lighttpd/src/http_chunk.c:74-92 | an empty piece from memory ends the body early |
| HttpChunk.EmptyStretchSpoils | storage/src/lighttpd/src/http_chunk.c:54-72 | an empty stretch of a file makes the body unreadable |
| HttpChunk.DecodesExactly | storage/src/lighttpd/src/http_chunk.c:23-121 | parts below 2^32 bytes, from memory and files, framed and ended, decode to their concatenation with nothing left over if and only if none is empty |
| HttpChunk.Send | storage/src/lighttpd/src/http_chunk.c:23-121 | the calls for a whole response queue exactly its frames and its end, and what is queued decodes to the parts if and only if none is empty |
| HttpChunk.AnnouncedSize | storage/src/lighttpd/src/http_chunk.c:32-45 | the size a decoder reads is the size modulo 2^32 |
| Headers.FindIsFirstVisible | storage/src/lighttpd/src/connections.c:909-969 | the search finds the first empty line that lies in one chunk or in two neighbours |
| Headers.ShortestExactly | storage/src/lighttpd/src/connections.c:909-969 | the header found is the shortest prefix ending in CR LF CR LF if and only if that line does not stretch over three chunks |
| Headers.FindGrows | storage/src/lighttpd/src/connections.c:909-969 | what the search has found stays where it is, whatever chunks follow |
| Headers.LongPieces | storage/src/lighttpd/src/connections.c:909-969 | chunks of three bytes or more never hide an empty line |
| Headers.ThreePieces | storage/src/lighttpd/src/connections.c:938-966 | an empty line that arrives in three chunks is missed |
| RequestRead.CleanUp | storage/src/lighttpd/src/connections.c:893-925 | the cleaning loop over the linked list ends with the specified queue |
| RequestRead.CleanedKeeps | storage/src/lighttpd/src/connections.c:893-925 | cleaning loses no octet |
| QueueLaws.CleanedIs | storage/src/lighttpd/src/connections.c:893-925 | cleaning takes away empty chunks only, leaves none in front, and none at all where no two were neighbours |
| RequestRead.ScanChunk | storage/src/lighttpd/src/connections.c:916-968 | the scan of one chunk, with its look at the next, finds the first place where an empty line begins |
| RequestRead.FindEnd | storage/src/lighttpd/src/connections.c:909-969 | the chunk and offset found are where the specified header ends |
| RequestRead.Store | storage/src/lighttpd/src/connections.c:1050-1142 | a piece of the body is at the end of the content queue, or nothing is if the temporary file fails |
| RequestRead.Connection.Receive | storage/src/lighttpd/src/connections.c:879-925 | what has arrived is at the end of the cleaned queue |
| RequestRead.Connection.ReadHeader | storage/src/lighttpd/src/connections.c:900-1036 | header plus queue is what the queue was; without a header the queue is as it was, and 414 is given exactly for more than 64 KiB |
| RequestRead.Connection.ReadPost | storage/src/lighttpd/src/connections.c:1038-1151 | the body receives as many octets as there are, up to the length announced, and the queue loses exactly these; 413 only if a temporary file fails |
| RequestRead.Connection.HandleReadState | storage/src/lighttpd/src/connections.c:871-1166 | for every arrival, header + body + queue remain exactly the bytes received, `bytes_in` is the length of the body and never exceeds the length announced; the header found is the one the search sees in the chunks then in the queue, and after a search in vain these chunks stay |
| RequestRead.Connection.ReadRequest | storage/src/lighttpd/src/connections.c:871-1166 | for every way the bytes are cut into reads: those read are header, body and leftover in this order; header, state, queue and the number of reads are what the reads and the initial queue determine; from a queue without empty or finished chunks the header is the shortest one if and only if the first CR LF CR LF does not stretch over three of the non-empty reads, and without a header none lies in one read or in two neighbours; the body has taken as much as there was, up to the length announced, when the request is handed on |
| RequestRead.TidyLeft | storage/src/lighttpd/src/connections.c:893-925 | a read adds itself as one chunk if it brought something, and nothing else happens to a queue without empty or finished chunks |
| RequestRead.HeaderIsEnded | storage/src/lighttpd/src/connections.c:909-969 | over any run, from any queue, the header found ends with CR LF CR LF |
| RequestRead.HeaderInReads | storage/src/lighttpd/src/connections.c:909-969 | over any run the header is what one search would find in the list of all non-empty reads, including those that came after it |
| RequestRead.FoundIsShortest | storage/src/lighttpd/src/connections.c:909-969 | it is the shortest one if and only if the first empty line does not stretch over three of them |
| RequestRead.Connection.NextRequest | storage/src/lighttpd/src/connections.c:752-864 | the leftover of one request is what the next one starts with |
| Md5.EncodeDecode | storage/src/lighttpd/src/md5.c:296-324 | packing words undoes unpacking bytes |
| Md5.CountAdds | storage/src/lighttpd/src/md5.c:139-144 | the two count words hold the bit length modulo 2^64 after every update, carry included |
| Md5.GuardExact | storage/src/lighttpd/src/md5.c:155-155 | the 32-bit guard of the block loop is right at every place if and only if the input is shorter than 2^32 - 63 bytes |
| Md5.Context.Update | storage/src/lighttpd/src/md5.c:129-167 | the context is that of the message so far with the input behind it |
| Md5.Context.Final | storage/src/lighttpd/src/md5.c:172-197 | the digest is the fold of the block transform over the message padded as RFC 1321 says, and the context is cleared |
| Md5.DigestOf | storage/src/lighttpd/src/md5.c:129-197 | the digest does not depend on how the message is cut into updates |
| Md5Layout.PaddedIs | storage/src/lighttpd/src/md5.c:172-190 | bit by bit: behind the message a one, zeros up to the last eight bytes of the first block boundary that leaves room, and the bit length modulo 2^64, low byte first |
| Md5Layout.WordsAre | storage/src/lighttpd/src/md5.c:312-324 | each word is worth its four bytes, the first the least |
| Md5Layout.InitBytes | storage/src/lighttpd/src/md5.c:113-123 | the first state in bytes is 01 23 45 67 89 ab cd ef fe dc ba 98 76 54 32 10, as section 3.3 of RFC 1321 says |
| Md5Layout.DigestIs | storage/src/lighttpd/src/md5.c:129-197 | the digest is the last of the states that lead from that one through the blocks of the padded message, each by the sixteen words of its block, in bytes |
| PollSlots.AddedOk | storage/src/lighttpd/src/fdevent_poll.c:76-98 | a new registration takes a slot that no live one has, and changes no other |
| PollSlots.DeletedOk | storage/src/lighttpd/src/fdevent_poll.c:29-45 | exactly one registration ends, and its slot is on the stack once |
| PollSlots.OpBalances | storage/src/lighttpd/src/fdevent_poll.c:21-99 | live slots and free slots make up the array, and a slot is opened only when all are live |
| PollSlots.UsedIsPeak | storage/src/lighttpd/src/fdevent_poll.c:21-99 | over every run of valid calls from an empty array, `used` is the largest number of registrations ever live together |
| PollSlots.Events.EventAdd | storage/src/lighttpd/src/fdevent_poll.c:65-99 | the object does what the specified call does, growing its arrays when needed |
| PollSlots.Events.EventDel | storage/src/lighttpd/src/fdevent_poll.c:21-50 | the object does what the specified call does |
| CombSort.SwapReduces | storage/src/lighttpd/src/mod_dirlisting.c:403-407 | exchanging two neighbours in the wrong order removes exactly one inversion |
| CombSort.StrCmpIsDictionary | storage/src/lighttpd/src/mod_dirlisting.c:403-403 | names are compared in dictionary order by unsigned bytes, and only equal names are equal |
| CombSort.CombedOneSorted | storage/src/lighttpd/src/mod_dirlisting.c:401-411 | a pass without exchange at gap 1 means sorted |
| CombSort.Pass | storage/src/lighttpd/src/mod_dirlisting.c:399-409 | a pass permutes; without exchange nothing is out of order at that gap; with one at gap 1 there are fewer inversions |
| CombSort.Sort | storage/src/lighttpd/src/mod_dirlisting.c:387-412 | the loop ends with a sorted permutation for every length whose tenfold fits in an int |

## Left out

Contracts that say less than one might wish:

- Parsers.Parser.Parse: takes a number of turns, because the source's loop need not end (LoopingParser.MakeLooping); a call that has used up its turns shows it in the result, and the contract names a number with which this happens only if the source's loop never ends.
- Generator.Generate: asks that the start symbol is not shifted out of the first state, because otherwise lemon aborts on an assertion (lemon.c:1018-1025) when it resolves that shift against the acceptance; it assumes fewer than 2^30 symbols and rule-token pairs, which keeps every action list within what the merge sort holds; the result of the C library's qsort is a parameter, any order by size.
- Generator.GeneratedComplete: says nothing of fallback tokens, with which even a parser without conflicts accepts other strings than its grammar; FallbackParsing.AcceptsReadSentences says what acceptance then means.
- ArrayIndex.Array.GetElement: a null key, for which the source returns nothing, is not modelled.
- Xxtea.DecryptUndoesEncrypt: one-word blocks are excluded; there a word is mixed with itself and the algorithm has no inverse.
- Md5.Context.Update: asks for fewer than 2^32 - 63 bytes in one call, the exact bound of Md5.GuardExact.
- CombSort.Sort: asks that ten times the length fits in an int, where the source's own arithmetic overflows.
- HttpChunk.DecodesExactly: parts are below 2^32 bytes; HttpChunk.AnnouncedSize says what happens otherwise.
- HttpChunk.Response.AppendMem: a buffer that was never filled (`used` of zero) is not modelled.
- CondCache.RunAgrees: covers the time between two full resets with fixed conditions; resetting a single field is not modelled.
- Paths.PathSimplify: for an empty path the source reads one byte behind the terminator; its value plays no part in the result and is not modelled.

Not modelled:

- Parser error recovery with an error token, the counting that mutes further error reports, and user code on errors and overflow; a run over a token stream ends at its first syntax error, though the parser object goes on.
- Semantic values of tokens and the user's actions in reductions.
- lemon's linked lists are sequences; sorted basis lists are compared as sets; the hash tables are plain lookups.
- lemon's option to leave the tables uncompressed.
- The integer types of the emitted tables, the report file, grammar scanning, option parsing and C code emission.
- How regular expressions, addresses and host names are matched in a condition: each is a fixed truth value.
- Sockets, SSL and system calls: a read brings any bytes, nothing, the end or an error; a temporary file opens and is written or not.
- Names, descriptors and mapping of files in the chunk queue; weak buffer copies and temporary-directory choice.
- Parsing of request headers: whether a body follows and its length are parameters.
- `array_pop`, which does not repair the index; how two entries with equal keys are merged is a parameter.
- Encryption keys given as strings, and the public wrappers with their error messages.
- The 64 steps of the MD5 block transform: any function of state and block will do.
- Chunk extensions and trailers in the chunked-body decoder, which the server never writes.
- The Windows branch of path simplification; poll's own result fields.
- The PHP front end, the tracker client, other server plugins and event backends.

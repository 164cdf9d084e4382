# Verified cores of a game server

This project models the algorithmic cores of a multiplayer game server: the
configuration library, the random number generator, and the bookkeeping of the character
server. The models keep the branches, the constants and the error paths of the C code,
and Dafny proves what the code promises, for all inputs and over whole runs.

Code that works by changing things in place is written the same way here: classes with
fields, arrays and loops. Each such method is tied to a function on values, and the
properties are lemmas about these functions. The files whose names end in `Terms`, and
`Engine.dfy`, say in plain terms, with all numbers written out, what these functions come
to.

## The configuration library

The parser is an LALR machine driven by packed tables, with semantic actions that build
a tree of settings through a parse context.

- `Settings.dfy` has settings and tokens, `Grammar.dfy` the tables, the automaton that they
  encode and the rules, `Parser.dfy` the machine as a function: one step, the actions on the
  stack of open brackets, and the run to an outcome. The run ends for every token sequence.
- `Derivation.dfy`, `Discipline.dfy`: what the machine accepts derives from the grammar; no
  input makes an action read a value that was never set or store through a null setting; the
  open brackets on the state stack are the ancestors in the tree, in every reachable state.
- `Documents.dfy`, `Steps.dfy`, `Moves.dfy`, `Completeness.dfy`, `Recognition.dfy`: the
  language of the parser, exactly. A token sequence is accepted if and only if it spells a
  document that is well typed (arrays hold scalars of one type, names are valid) and for
  which the stack of 10000 entries has room.
- `Arena.dfy`, `Context.dfy`, `Turns.dfy`, `Driver.dfy`: the parser in memory. Settings are
  linked records, the stacks are arrays that are relocated when full, the lookahead is read
  on demand. The loop computes the outcome of the machine, and the records stand for the
  tree of its context.
- `Names.dfy`, `NamedDocuments.dfy`: the names that the scanner produces, and that no
  document is refused for one of them.
- `Writer.dfy`, `RoundTrip.dfy`: the recursive printer, and the round trip. A configuration
  that is written and read comes back unchanged exactly if booleans are 0 or 1, decimal
  integers occur only with the decimal default format, hexadecimal 32-bit integers are not
  negative, strings are present, and floating-point numbers survive being printed.
- `ScanRules.dfy`, `Escapes.dfy`, `Strings.dfy`: the escapes of the writer, the rules of the
  scanner inside a string, chosen by longest match, and the buffer that grows in blocks of
  64 bytes. A string survives exactly if it holds no NUL.
- `Paths.dfy`, `PathScan.dfy`, `Lookup.dfy`, `PathTerms.dfy`: looking settings up by path.
  The scan over the bytes of the path is the descent along its segments, with one exception
  that is pinned down; and a path built for a position leads there.

## The random number generator

`Words.dfy` and `Recurrence.dfy` have the recurrence of the Mersenne Twister on 32-bit
words (the engine of section 26.5.3.2 [rand.eng.mers] of ISO/IEC 14882:2011),
`LongWords.dfy` and `Mersenne.dfy` the C code on words of 64 bits: the masks suffice,
the three loops that overwrite the array compute the recurrence, a step is a bijection
on the 19937 significant bits, no seed ever leads to the zero state, and tempering is a
bijection. `Engine.dfy` has the engine once more with all its numbers, apart from the code:
what the generator returns are the numbers of that engine.

## The character server

- `Roster.dfy`, `PartyCache.dfy`, `RosterTerms.dfy`: the cached figures of a party are those
  that a recount gives, after every handler and for every request, except after these, and
  just these: a level that jumps from strictly inside the range to outside of it; a
  character who goes offline without being online; a request for character 0 while there is
  an empty slot, which leaves, comes online or gets a level there; a member who loses the
  level, or joins without one while the party is not counted anew anyway. Runs start with a
  party that is created or loaded, and go on as long as, besides, every slot stays vacant or
  filled.
- `SaveTurns.dfy`, `SaveLoop.dfy`, `SaveTimer.dfy`: the save timer. With n guilds in memory
  a dirty guild is saved within n + 1 ticks whatever happens to the others, and none is
  unloaded with unsaved changes. Guilds that come and go can make the turns start over, at a
  cost that is accounted for; if that goes on for ever, so can the wait.
- `Levels.dfy`, `GuildExp.dfy`, `LevelTerms.dfy`: how experience becomes levels, and how the
  experience of members adds to it with saturation. The comment in the source says that the
  next threshold is 0 from MAX_GUILDLEVEL on; the code gives 0 only above it, so that a
  guild can end one level higher, and that is what is proved.
- `AuctionRules.dfy`, `AuctionHouse.dfy`, `AuctionTerms.dfy`: the auction house. Over every
  run, zeny handed in is returned, mailed or held for a live auction, for everybody on his
  own: whoever is outbid gets back what he paid, and a seller what the buyer spent. Every
  registered item is in its auction or was mailed once, to the buyer or back to the seller,
  and nobody has more than five auctions or leading bids.
- `ItemRows.dfy`, `ItemTable.dfy`, `ItemTerms.dfy`: saving an item list. If no statement
  fails, the owner's rows are just the items, although the matching is greedy and overlooks
  columns. Whatever fails, it is settled what becomes of each row.
- `Ranking.dfy`, `FameList.dfy`: the fame ranking. If fame is not negative and does not
  fall, the list is the best players in order. When it falls, the list stays in order unless
  the player falls past somebody.
- `HandOff.dfy`, `AuthNodes.dfy`, `HandOffTerms.dfy`: handing a player over to a map server.
  Every request that is let in, other than a standalone one, spends an entry issued for just
  that account, character and login, and no entry is spent twice.
- `Quests.dfy`, `QuestTable.dfy`: saving a quest log by difference, with a compacting array;
  the log afterwards is settled for any statements that fail.

SQL tables are maps; a statement works or fails as a parameter says. Clocks, the network
and the character database's answers are parameters, and mails and replies go to a
ledger.

`Sealing.dfy`, `Sets.dfy` and `Shifting.dfy` are shared. Some facts are stated as
`forall k :: Unfold(k) ==> fact`. That is the fact itself, sealed: the verifier looks
inside only where `Unfold` is mentioned, so that long runs compose without the tables
being unfolded at each state. For the same reason some proofs begin with `hide`.

## Model

| member | source | states |
|---|---|---|
| Grammar.RulesMatchTables | 3rdparty/libconfig/grammar.c:649-666 | the right-hand sides written out have the lengths that the tables give, at most five symbols, and the left-hand sides are nonterminals |
| Grammar.ShiftIsEdge | 3rdparty/libconfig/grammar.c:578-647 | a shift that the action tables decide on leads along a transition of the automaton on the lookahead symbol; only the end of input leads to the final state |
| Grammar.EdgeIsTransition | 3rdparty/libconfig/grammar.c:602-647 | conversely, every transition of the automaton is a shift or a goto that the tables give for the symbol of its target |
| Grammar.ReductionIsSound | 3rdparty/libconfig/grammar.c:591-666 | below every default reduction the stack spells the right-hand side of the rule, so popping it never underflows, and the goto leads along a transition |
| Grammar.ReductionKeepsPath | 3rdparty/libconfig/grammar.c:1331-1345 | a reduction keeps the stack a path of the automaton and makes it lighter, which is why runs end |
| Parser.StepIsSound | 3rdparty/libconfig/grammar.c:1176-1328 | every step keeps the stack a path and consumes a token or makes the stack lighter |
| Parser.TablesInRange | 3rdparty/libconfig/grammar.c:578-666 | every index into the tables is in range: the states on the stack, the slot of a shift, the rule of a reduction, its nonterminal and the state that is uncovered |
| Derivation.ParseSound | 3rdparty/libconfig/grammar.c:1176-1674 | acceptance implies a derivation tree of the token sequence in the grammar of yyr1 and yyr2 |
| Discipline.StepDisciplined | 3rdparty/libconfig/grammar.c:1349-1637 | each step keeps the context aligned with the stack: open groups, arrays and lists are the bracket states on it, a member is pending just in the states after a name, arrays are homogeneous |
| Discipline.ParseDisciplined | 3rdparty/libconfig/grammar.c:1349-1656 | no token sequence makes an action read an unset value or a null setting; on acceptance the parent is the root and the tree is well typed |
| Completeness.ParseDocument | 3rdparty/libconfig/grammar.c:1176-1674 | the tokens of a document are accepted if and only if it is well typed and fits the stack, and then denote the settings built |
| Recognition.Language | 3rdparty/libconfig/grammar.c:1176-1674 | a token sequence is accepted if and only if it spells a well-typed document that fits the stack |
| Names.LexemesAreValid | 3rdparty/libconfig/libconfig.c:539-556 | the names that the library accepts for a member are the ones that the scanner's pattern produces, and those with apostrophes besides, which no file can spell |
| NamedDocuments.SpelledDocument | 3rdparty/libconfig/grammar.c:1176-1674 | a document with names from the scanner is never refused for a name: it is accepted if and only if the elements of each array have one type and the stack of 10000 entries has room |
| NamedDocuments.RulesExample | 3rdparty/libconfig/libconfig.c:539-556 | the tokens of `ip_rules: {};` give an empty group of that name |
| Arena.AppendedFrames | 3rdparty/libconfig/libconfig.c:405-416 | linking a new record under the current parent leaves every open ancestor as it was and adds one child |
| Arena.CloseLast | 3rdparty/libconfig/grammar.c:1385-1393 | going up to the parent turns the innermost open frame into a finished child of the next |
| Context.ParseContext.Create | 3rdparty/libconfig/libconfig.c:807-833 | a new record is linked at the end of a container, and refused elsewhere, with nothing else changed |
| Context.ParseContext.Add | 3rdparty/libconfig/libconfig.c:1576-1607 | elements lose their name, members need a valid one, duplicates are let in; a member whose name the scanner can produce is never refused in a group |
| Context.ParseContext.SetScalar | 3rdparty/libconfig/libconfig.c:1029-1183 | a setting without a type takes the type of the value, one of the same type takes the value; a 64-bit integer goes into a 32-bit one if it fits, and leaves 0 otherwise; numbers of the other sort are converted if the option is set; anything else is refused |
| Context.TakenWhen | 3rdparty/libconfig/libconfig.c:1029-1183 | which settings take which scalars, and that one without a type or of the same type takes the value itself |
| Context.TakenInteger | 3rdparty/libconfig/libconfig.c:1057-1080 | a 64-bit integer keeps its value in 32 bits if and only if it fits, and is 0 otherwise; a converted number gets the format that the setting had |
| Context.ParseContext.CheckType | 3rdparty/libconfig/libconfig.c:516-535 | an array accepts the type of its first element only, a list and an empty array any |
| Context.ParseContext.SetElement | 3rdparty/libconfig/libconfig.c:1311-1505 | with a negative index a new element is appended, or refused if its type does not fit; otherwise the element there is set, if there is one and it takes the value; nothing changes on refusal |
| Context.ParseContext.Act | 3rdparty/libconfig/grammar.c:1349-1637 | the actions on linked records have the effect of the actions on the tree, error for error |
| Turns.TurnCases | 3rdparty/libconfig/grammar.c:1255-1328 | what the driver decides is what the next step of the run does |
| Driver.Stacks.Grow | 3rdparty/libconfig/grammar.c:1207-1240 | relocated stacks hold what they held, with room for one more entry |
| Driver.Stacks.Push | 3rdparty/libconfig/grammar.c:1176-1250 | a push appends to both stacks; room runs out exactly at the maximal depth |
| Driver.Source.Look | 3rdparty/libconfig/grammar.c:1264-1285 | reading the lookahead does not change the tokens still to come |
| Driver.Source.Backup | 3rdparty/libconfig/grammar.c:1255-1328 | the decision of the tables, made without a lookahead where the state alone decides; the tables are read only inside their bounds |
| Driver.Machine.ReduceRule | 3rdparty/libconfig/grammar.c:1331-1674 | a reduction in memory is the reduction of the machine, aborts included |
| Driver.Machine.Parse | 3rdparty/libconfig/grammar.c:1140-1860 | the loop ends with the outcome of the machine, and on acceptance the records in memory are its tree; which names and which documents that lets in is said by Names.LexemesAreValid and NamedDocuments.SpelledDocument |
| Writer.Stream.WriteValue | 3rdparty/libconfig/libconfig.c:177-401 | the recursive printer emits the tokens of the value, element loops included; in which format integers are printed is said by RoundTrip.IntegerReturns and RoundTrip.RoundTripExact |
| Writer.Stream.WriteSetting | 3rdparty/libconfig/libconfig.c:640-672 | a setting is its name, an assignment sign, its value and maybe a semicolon |
| Writer.SemicolonEnds | 3rdparty/libconfig/libconfig.c:660-671 | a setting below the root ends with a semicolon if and only if semicolons are asked for |
| Writer.Stream.WriteConfig | 3rdparty/libconfig/libconfig.c:676-683 | a whole configuration |
| RoundTrip.HexWritten | 3rdparty/libconfig/scanner.c:1188-1197 | a 32-bit integer printed in hexadecimal comes back without its sign bit |
| RoundTrip.WriteThenRead | 3rdparty/libconfig/libconfig.c:177-401 | a writable configuration, written with any options, is accepted exactly if it fits the stack, and then comes back up to the changes that printing makes |
| RoundTrip.RoundTripExact | 3rdparty/libconfig/libconfig.c:640-683 | it comes back unchanged if and only if flags are 0 or 1, there are decimal integers only if the default format is decimal, hexadecimal ones of 32 bits are not negative, strings are present, and numbers survive being printed |
| RoundTrip.HexExample | 3rdparty/libconfig/scanner.c:1188-1197 | -1 in hexadecimal comes back as 0x7FFFFFFF, and in decimal as it was if the default format is decimal |
| RoundTrip.IntegerReturns | 3rdparty/libconfig/libconfig.c:1186-1190 | how any 32-bit integer comes back: a decimal one is printed in the default format, so that with hexadecimal as the default it comes back hexadecimal; a negative one printed in hexadecimal comes back with 0x80000000 added |
| RoundTrip.LongIntegerReturns | 3rdparty/libconfig/libconfig.c:1186-1190 | a 64-bit integer loses nothing but, if the default is hexadecimal, its decimal format |
| RoundTrip.OthersReturn | 3rdparty/libconfig/libconfig.c:192-255 | a flag comes back as 0 or 1, and a missing string as an empty one |
| RoundTrip.RoundTripShallow | 3rdparty/libconfig/grammar.c:849-851 | configurations of up to 1665 levels always fit |
| ScanRules.PickApplies | 3rdparty/libconfig/scanner.c:987-1050 | the rule used is the longest match, and the first among equals |
| Escapes.EscapeRule | 3rdparty/libconfig/libconfig.c:265-295 | every escape sequence of the writer is read by one rule of the scanner and stands for the same byte |
| Escapes.EscapeForms | 3rdparty/libconfig/libconfig.c:265-295 | which bytes are escaped and how: backslash, quote and four control characters by a letter or themselves, the other control characters by two capital hexadecimal digits, and nothing else |
| Escapes.DigitValues | 3rdparty/libconfig/extra/gen/scanner.l:96 | both cases of a hexadecimal digit have its value |
| Escapes.HexByteRead | 3rdparty/libconfig/scanner.c:1029-1036 | a byte written with x or X and two digits of either case is read as that byte |
| Escapes.LoneBackslash | 3rdparty/libconfig/scanner.c:1037-1041 | a backslash before any other character stands for itself |
| Escapes.ScanEscaped | 3rdparty/libconfig/scanner.c:987-1050 | scanning what the writer wrote for any bytes gives the bytes before the first NUL and stops right after the closing quote |
| Escapes.EscapeRoundTrip | 3rdparty/libconfig/libconfig.c:255-300 | a string survives if and only if it holds no NUL |
| Escapes.ScannedIsText | 3rdparty/libconfig/scanner.c:987-1050 | whatever is scanned is a C string |
| Escapes.ReadWriteRead | 3rdparty/libconfig/libconfig.c:255-300 | reading, writing and reading again changes nothing |
| Strings.TextStream.WriteString | 3rdparty/libconfig/libconfig.c:255-300 | the loop writes the escaped text between quotes; a null string gives an empty one |
| Strings.Blocks | 3rdparty/libconfig/strbuf.c:41-50 | the least multiple of 64 that holds so many bytes |
| Strings.Strbuf.Append | 3rdparty/libconfig/strbuf.c:41-55 | the contents grow by the text up to its NUL; the buffer stays terminated, in whole blocks, and moves only if it is too small |
| Strings.Strbuf.Release | 3rdparty/libconfig/strbuf.c:32-37 | the buffer is handed out with its text and starts over empty |
| Strings.StringScanner.ScanString | 3rdparty/libconfig/scanner.c:987-1050 | running the rules gives the token and leaves the rest of the input, or runs to the end |
| Paths.ScanDiffers | 3rdparty/libconfig/libconfig.c:1194-1223 | the byte scan and the descent along the segments differ on just those lookups that end in a lone bracket below a setting without elements |
| Paths.BracketExample | 3rdparty/libconfig/libconfig.c:1194-1223 | a lone bracket in an empty configuration finds the configuration |
| Paths.PathRoundTrip | 3rdparty/libconfig/libconfig.c:1194-1223 | a path of names and positions in brackets, joined by colons and slashes in any mixture, leads to the setting it was built for |
| Paths.EveryPositionIsSpelled | 3rdparty/libconfig/libconfig.c:1510-1525 | every position in a tree has such a path |
| Paths.NameFindsFirst | 3rdparty/libconfig/libconfig.c:420-445 | a name leads to its setting if and only if no sibling before it has the same name |
| Paths.AtoiOfDecimal | 3rdparty/libconfig/libconfig.c:1208-1209 | a position printed in decimal is read back, the closing bracket ending it |
| PathTerms.SegmentStops | 3rdparty/libconfig/libconfig.c:1194-1223 | a segment goes up to the first colon or slash |
| PathTerms.SeparatorsMerge | 3rdparty/libconfig/libconfig.c:1200-1205 | separators before a segment are skipped, and one after a segment ends it |
| PathTerms.AtoiReads | 3rdparty/libconfig/libconfig.c:1208-1209 | an index is read after white space and one sign and up to the first character that is no digit |
| PathTerms.NegativeIndex | 3rdparty/libconfig/libconfig.c:1510-1525 | a negative index finds nothing in a setting of at most 2147483648 elements |
| Lookup.NameCompare | 3rdparty/libconfig/libconfig.c:137-159 | names are compared up to their first separator |
| PathTerms.DifferenceIsOrder | 3rdparty/libconfig/libconfig.c:137-159 | the sign of the comparison is the alphabetical order |
| Lookup.ListSearch | 3rdparty/libconfig/libconfig.c:420-445 | the first setting with the name |
| Lookup.GetElem | 3rdparty/libconfig/libconfig.c:1510-1525 | the element, unless the setting holds none or the index is too large |
| Lookup.SettingLookup | 3rdparty/libconfig/libconfig.c:1194-1223 | the loop over the bytes finds where the segments lead |
| Words.TwistBijective | 3rdparty/mt19937ar/mt19937ar.c:115-127 | multiplication by the matrix loses nothing |
| Words.TemperBijective | 3rdparty/mt19937ar/mt19937ar.c:132-137 | tempering is a bijection on words |
| Recurrence.WindowMoves | 3rdparty/mt19937ar/mt19937ar.c:117-126 | the sequence moves on by steps on windows of 624 words |
| Engine.OneSequence | 3rdparty/mt19937ar/mt19937ar.c:47-56 | there is one sequence from given 624 words that follows the recurrence, written out with its offsets, masks and matrix, and it is the one the model computes with |
| Engine.FirstWordsGenerate | 3rdparty/mt19937ar/mt19937ar.c:115-128 | the words of the model do follow that recurrence |
| Engine.NumberDrawn | 3rdparty/mt19937ar/mt19937ar.c:105-140 | number n of the engine, tempering written out with its shifts and masks, is what the model tempers |
| Engine.OneNumber | 3rdparty/mt19937ar/mt19937ar.c:105-140 | there is just one such number |
| Engine.SeedingIs | 3rdparty/mt19937ar/mt19937ar.c:60-73 | every seeded word is 1812433253 times the one before it, mixed with its top bits, plus its number |
| Engine.CountIs | 3rdparty/mt19937ar/mt19937ar.c:63-64 | the word that is added for a position is that position |
| Engine.SeedingExample | 3rdparty/mt19937ar/mt19937ar.c:112-113 | the first four words of the default seed |
| Engine.KeyingIs | 3rdparty/mt19937ar/mt19937ar.c:79-102 | seeding by a key is as many rounds as the key is long, but at least 624, and 623 more without it, on a walk that goes around the words 1 to 623, with the two multipliers; then the top bit is set |
| Recurrence.StepDepends | 3rdparty/mt19937ar/mt19937ar.c:117-126 | a step depends on 19937 bits only |
| Recurrence.StepInjective | 3rdparty/mt19937ar/mt19937ar.c:117-126 | a step is injective on these bits |
| Recurrence.StepSurjective | 3rdparty/mt19937ar/mt19937ar.c:117-126 | every state has a state before it |
| Recurrence.NeverZero | 3rdparty/mt19937ar/mt19937ar.c:101-126 | a window is zero if and only if the start was |
| Recurrence.StateIsKept | 3rdparty/mt19937ar/mt19937ar.c:117-126 | any later window determines the start, as far as it matters |
| Recurrence.SeededNotZero | 3rdparty/mt19937ar/mt19937ar.c:60-73 | no seed gives the zero state |
| Recurrence.SeededByKeyNotZero | 3rdparty/mt19937ar/mt19937ar.c:79-102 | no key gives the zero state |
| LongWords.TwistWidens | 3rdparty/mt19937ar/mt19937ar.c:117-126 | on 64-bit words holding 32 bits, the step gives the 32-bit result |
| LongWords.SeedWordWidens | 3rdparty/mt19937ar/mt19937ar.c:63-71 | with the mask, seeding in 64 bits is seeding in 32 bits |
| LongWords.KeyWordWidens | 3rdparty/mt19937ar/mt19937ar.c:86-88 | so is mixing in a key |
| LongWords.PlainWordWidens | 3rdparty/mt19937ar/mt19937ar.c:94-96 | and the second mixing |
| LongWords.TemperWidens | 3rdparty/mt19937ar/mt19937ar.c:132-137 | tempering keeps to 32 bits although shifts to the left are not masked on their own |
| Mersenne.MixKey | 3rdparty/mt19937ar/mt19937ar.c:83-92 | the in-place rounds with the key compute the rounds on 32-bit words |
| Mersenne.MixPlain | 3rdparty/mt19937ar/mt19937ar.c:93-99 | so do the rounds without it |
| Mersenne.Regenerate | 3rdparty/mt19937ar/mt19937ar.c:115-128 | the loops that overwrite the array leave the next 624 words of the recurrence, the last one made with the new first word |
| Mersenne.Generator.InitGenrand | 3rdparty/mt19937ar/mt19937ar.c:60-73 | the sequence starts with the words of the seed's low 32 bits |
| Mersenne.Generator.InitByArray | 3rdparty/mt19937ar/mt19937ar.c:79-102 | the sequence starts with the words of the key |
| Mersenne.Generator.GenrandInt32 | 3rdparty/mt19937ar/mt19937ar.c:105-140 | the n-th call returns number n of the engine: the word of the recurrence with its published numbers, tempered with its published shifts and masks; without a seeding the seed is 5489 |
| Mersenne.Generator.ArrayNotZero | 3rdparty/mt19937ar/mt19937ar.c:101 | the array is never all zero |
| Roster.Extremes | src/char/int_party.c:47-64 | the least and the greatest level are the bounds of those who count, and attained |
| Roster.KeepsExtremes | src/char/int_party.c:692-702 | replacing a member who is strictly inside keeps the extremes if and only if the new level stays within |
| RosterTerms.SharesMeans | src/char/int_party.c:318-322 | even share is allowed if and only if fewer than two are online or no two of those who take part are further apart in level than the limit; if nobody takes part the unsigned range is 1 |
| RosterTerms.CountsSlots | src/char/int_party.c:84-90 | the size is the number of slots with a level, the count that of those online among them |
| RosterTerms.FamilyOfTwo | src/char/int_party.c:91-97 | in a party of two with kinship between the first two slots, of whom one has a baby's job, the child is that one, whichever slot it is in |
| RosterTerms.ParentIsTheRange | src/char/int_party.c:105-116 | then the parent's level is the whole range, and even share is allowed whatever the child's level is |
| RosterTerms.OtherFamilies | src/char/int_party.c:91-104 | a party of three is a family if the database says so, and no other party is one |
| RosterTerms.FamilyExample | src/char/int_party.c:91-116 | a parent of level 99 and his child of level 10 share evenly |
| RosterTerms.JoinTerms | src/char/int_party.c:554-589 | whoever joins takes the first slot without an account, is no leader, and changes no other slot; a party without such a slot stays as it is |
| RosterTerms.LeaveTerms | src/char/int_party.c:614-653 | leaving empties the first slot of that account and character, and no other, and breaks up the family |
| RosterTerms.MoveTerms | src/char/int_party.c:655-709 | moving enters map, level and presence in that slot, and nothing else |
| RosterTerms.PresenceTerms | src/char/int_party.c:785-877 | logging in or out changes the presence of the first slot of that character, and nothing else |
| RosterTerms.OptionTerms | src/char/int_party.c:593-611 | the options are cut to one bit and to two, and even share is on only if asked for and allowed |
| RosterTerms.SeatedRows | src/char/int_party.c:231-243 | the first twelve rows take the slots in order, and the other slots are blank |
| Roster.NothingToDo | src/char/int_party.c:577-582 | what the handlers rely on when they recompute nothing, even share included |
| Roster.HandleKeeps | src/char/int_party.c:554-877 | each handler, called properly, keeps the slots in order and even share within the limit |
| Roster.RunKeeps | src/char/int_party.c:554-877 | so does every run |
| Roster.VacantHit | src/char/int_party.c:628-637 | a request finds an empty slot if and only if it is for account and character 0, or by character alone for character 0, and the party has room |
| Roster.NobodyIsImproper | src/char/int_party.c:614-877 | in every party with room the four requests for character 0 go wrong: leaving and going offline change no slot, coming online and moving fill one with nobody |
| Roster.NobodyExample | src/char/int_party.c:569-637 | such a party, in which a member without a level and the loss of a level spoil the figures as well, and a member without an account only the slots |
| Roster.JumpExample | src/char/int_party.c:692-702 | a level that jumps from the middle leaves even share on where it is not allowed |
| Roster.AbsentExample | src/char/int_party.c:860-870 | a member who is offline goes offline, and nobody stops being online |
| PartyCache.PartyData.Create | src/char/int_party.c:513-528 | a new party holds its leader alone, online and with right figures |
| PartyCache.PartyData.Load | src/char/int_party.c:231-268 | a loaded party holds the first twelve members listed, with right figures, and is in order just if they are |
| PartyCache.PartyData.CheckLv | src/char/int_party.c:47-72 | the range is recomputed, with a slot that is online without a level counting as 0, and even share taken away where it is not allowed |
| PartyCache.PartyData.CalcState | src/char/int_party.c:73-122 | whatever the slots hold, all figures are recounted and the family is worked out; who is the child is said by RosterTerms.FamilyOfTwo and RosterTerms.OtherFamilies |
| PartyCache.PartyData.AddMember | src/char/int_party.c:554-589 | a member, who may be in the party already, joins in the first free slot; the figures are then the recounted ones if and only if he has a level or the party is counted anew; a full party refuses |
| PartyCache.PartyData.RemoveMember | src/char/int_party.c:614-653 | the figures after a member has left are the recounted ones if and only if the slot was not empty |
| PartyCache.PartyData.ChangeOption | src/char/int_party.c:593-611 | even share is on only if asked for and allowed |
| PartyCache.PartyData.ChangeMap | src/char/int_party.c:655-709 | the figures are the recounted ones if and only if the level has not jumped, is zero before just if it is zero after, and no empty slot has come online |
| PartyCache.PartyData.CharOnline | src/char/int_party.c:785-830 | the figures after a member has come online are the recounted ones if and only if the slot was not empty |
| PartyCache.PartyData.CharOffline | src/char/int_party.c:832-877 | the figures are the recounted ones if and only if the member was online |
| PartyCache.PartyData.Dispatch | src/char/int_party.c:554-877 | for a request of any kind, exactly when the figures stay right, and exactly when the slots stay in order besides |
| PartyCache.PartyData.Serve | src/char/int_party.c:554-877 | over any run of such requests the cache is the recounted party |
| SaveTurns.DirtyStays | src/char/int_guild.c:70-94 | a guild with unsaved changes is saved by the tick or stays in memory as it is |
| SaveTurns.UnloadedIsClean | src/char/int_guild.c:88-93 | no guild is unloaded with unsaved changes |
| SaveTurns.LowTenBits | src/char/int_guild.c:75-87 | the low ten bits of the flags are what is to be saved, and saving clears just these |
| SaveTurns.TickSaves | src/char/int_guild.c:61-104 | a tick saves the first guild after the one saved last with one of the low ten bits set, or the first of all after a tick that has saved none; if the one saved last is gone it saves none |
| SaveTurns.TurnComesNearer | src/char/int_guild.c:75-99 | each tick saves a waiting guild or brings its turn nearer, but for what it costs if guilds come or go |
| SaveTurns.SaveIsFair | src/char/int_guild.c:61-104 | a dirty guild among n is saved within n + 1 ticks, and for each tick before which guilds have come or gone as many more as there are guilds then, plus one; whatever happens to the others |
| SaveTurns.SaveIsFairUnloading | src/char/int_guild.c:61-104 | if none is loaded and the number falls from n to no less than m, these are n + 1 + (n + ... + (m + 1)) ticks, and n + 1 if none is unloaded |
| SaveTurns.TickDwindles | src/char/int_guild.c:88-93 | what a tick leaves in memory is what it found, or fewer |
| SaveTurns.WaitIsReached | src/char/int_guild.c:75-99 | for every n, n ticks are not enough: if all n guilds stay dirty, the one saved last is not saved by them |
| SaveTurns.LoadingStarves | src/char/int_guild.c:70-99 | no fixed number of ticks is enough with loading: in a run in which each tick finds what the one before has left and what was loaded, two guilds that come and go keep a third one waiting |
| SaveTimer.Scheduler.SaveTick | src/char/int_guild.c:61-104 | a tick saves the first dirty guild after the one saved last, if any, and unloads just the clean guilds marked for it |
| Levels.ReachIsUnique | src/char/int_guild.c:864-880 | thresholds and experience determine the level reached |
| Levels.HighestLevel | src/char/int_guild.c:844-851 | a guild ends at most one level above MAX_GUILDLEVEL, and gets there if and only if it can pay for all levels |
| LevelTerms.CostFromOne | src/char/int_guild.c:844-851 | from level 1 to a level it takes the sum of the table's entries below that level |
| LevelTerms.LevelFor | src/char/int_guild.c:864-880 | the level that experience is good for, in terms of the table: all entries below it are not 0 and paid in sum, and the next one is 0, cannot be paid, or is past the table |
| LevelTerms.CostOfLevel | src/char/int_guild.c:844-851 | what each level costs, and that there are 50 |
| Levels.SumWraps | src/char/int_guild.c:890-905 | the sum of the levels is what a short holds of the true sum, and is the true sum if and only if that is at most 0x7FFF |
| LevelTerms.ShortIs | src/char/int_guild.c:890-905 | what a short holds of a number: the one in its range that differs by a multiple of 65536 |
| LevelTerms.CountsSlots | src/char/int_guild.c:894-912 | the average is over the slots with an account and a level that is not negative, and those online are counted among the ones with an account |
| Levels.AverageIsTrue | src/char/int_guild.c:890-914 | so the average is the true one, rounded down, if and only if the sum fits |
| Levels.AverageIsSound | src/char/int_guild.c:890-914 | it fits for sound levels, and the average lies between the least and the greatest of them |
| Levels.OverflowExample | src/char/int_guild.c:890-914 | two levels of 20000 have a negative average |
| GuildExp.GuildData.GainLevels | src/char/int_guild.c:872-880 | experience is consumed by the thresholds of the levels passed, skill points rise with the levels, and the rest is below the next threshold or there is none |
| GuildExp.GuildData.CalcInfo | src/char/int_guild.c:864-926 | the same for the whole function; it reports a change exactly if there is one, and a second call finds none |
| GuildExp.GuildData.GainExp | src/char/int_guild.c:1588-1612 | scaled experience is added with saturation and turned into levels |
| LevelTerms.ShareIs | src/char/int_guild.c:1588-1600 | the guild's share is the percentage of the gain, rounded down, unless the product overflows |
| LevelTerms.ShareOverflows | src/char/int_guild.c:1588-1600 | twice 2 to the 63 is nothing |
| LevelTerms.ExperienceStops | src/char/int_guild.c:1600-1605 | the guild's experience stops at the largest number of 64 bits |
| GuildExp.GuildData.ChangeMemberExp | src/char/int_guild.c:1564-1615 | only the member named changes, and the guild gains only if the member did |
| AuctionRules.StepBalances | src/char/int_auction.c:436-484 | every event keeps the books of every character balanced: what he has paid in and earned was returned or mailed to him or spent on his purchases, or is held for his leading bids |
| AuctionRules.NothingIsLost | src/char/int_auction.c:333-484 | all in all, zeny handed in is returned, mailed or held |
| AuctionRules.StepKeepsGoods | src/char/int_auction.c:158-178 | every event keeps each item in its live auction or mailed exactly once, to the buyer if it was sold and back to the seller if not |
| AuctionRules.StepKeepsQuota | src/char/int_auction.c:340-341 | every event keeps everyone to five live auctions and five leading bids |
| AuctionRules.StepPrices | src/char/int_auction.c:442-470 | a live auction with a buyer has a price above the opening one and below the price to buy at once |
| AuctionRules.StepSells | src/char/int_auction.c:442-479 | every event keeps each sale at the price to buy at once, or above the opening price and below that, from its seller to somebody else |
| AuctionRules.SaleWithinPrices | src/char/int_auction.c:442-479 | so over any run no sale is dearer than the price to buy at once, if that is above the opening price |
| AuctionRules.RunIsSound | src/char/int_auction.c:333-484 | all of this over every run of proper events |
| AuctionRules.NothingIsSound | src/char/int_auction.c:333-344 | and it holds of the empty house |
| AuctionHouse.Manager.Count | src/char/int_auction.c:47-61 | the loop counts the live auctions of a seller or of a leading bidder |
| AuctionHouse.Manager.Register | src/char/int_auction.c:333-344 | a sixth auction is refused with the id that was sent; a failed insert registers nothing |
| AuctionTerms.RegisterTerms | src/char/int_auction.c:333-344 | an auction is taken if and only if the seller has fewer than five and the database gives it an id, and is live then; the reply carries its id, 0, or the id sent |
| AuctionHouse.Manager.Bid | src/char/int_auction.c:436-484 | bids that are refused, that lead and that buy at once, with the mails and the reply; when which happens and what it costs is said by AuctionTerms.BidTerms, LeadTerms and BuyTerms |
| AuctionTerms.BidTerms | src/char/int_auction.c:442-452 | the reply is 1 if and only if the bid is a higher one on a live auction of somebody else, by somebody who leads it already, buys at once or leads in fewer than five; otherwise all of it comes back and nothing else happens, with code 9 just for one who leads in five |
| AuctionTerms.LeadTerms | src/char/int_auction.c:454-484 | a bid below the price to buy at once leads: nothing comes back, the previous buyer is mailed his bid, and nobody else anything |
| AuctionTerms.BuyTerms | src/char/int_auction.c:454-480 | whoever bids enough pays the price to buy at once, whatever he bids: the rest comes back with the reply, the seller is mailed that price, the previous buyer his bid, nobody else anything, and the auction is gone |
| AuctionTerms.BuyExample | src/char/int_auction.c:454-480 | 1500 bid on an auction to be had for 1000: 500 come back and the seller is mailed 1000 |
| AuctionHouse.Manager.Close | src/char/int_auction.c:395-424 | the seller ends an auction with a buyer |
| AuctionTerms.CloseTerms | src/char/int_auction.c:395-424 | code 0 if and only if the seller ends a live auction with a buyer, who is mailed the goods, while the seller is mailed the last bid; code 2 just if there is no such auction; otherwise nothing happens |
| AuctionHouse.Manager.Cancel | src/char/int_auction.c:355-381 | the seller takes back an auction without one |
| AuctionTerms.CancelTerms | src/char/int_auction.c:355-381 | code 0 if and only if the seller takes back a live auction without a buyer and is mailed the goods; the other codes say which of the three conditions failed, and nothing happens |
| AuctionHouse.Manager.EndTimer | src/char/int_auction.c:158-178 | the timer ends an auction either way |
| AuctionTerms.TimeoutTerms | src/char/int_auction.c:158-178 | the goods are mailed to the buyer and the last bid to the seller, or the goods back to the seller if there is no buyer |
| AuctionHouse.Manager.Serve | src/char/int_auction.c:333-484 | over any run of proper events in memory the books stay balanced |
| ItemRows.RowSaved | src/char/char.c:775-820 | a row made equal to the item it was matched with accounts for that item |
| ItemRows.RowDropped | src/char/char.c:821-828 | a row without a match goes, and no item is lost by it |
| ItemRows.AlikeUpdated | src/char/char.c:779-805 | the columns that an update sets make a matched row equal to the item, whatever the matching overlooked |
| ItemTerms.MatchedByIdentity | src/char/char.c:775-790 | if neither the items nor the rows are alike among themselves, a row is matched with the item that has the same name, unique id and cards 0, 2 and 3, whatever has become of the amount, the refine level or card 1 |
| ItemTerms.KeepsRowExample | src/char/char.c:775-805 | a sword that was refined and got another card 1 keeps its row, behind an item that is new |
| ItemTerms.LeftAlone | src/char/char.c:791-797 | a row needs no statement if and only if it holds what the table keeps of its item already |
| ItemTerms.KeptColumns | src/char/char.c:839-869 | what a table keeps of an item: all columns, but the favorite mark in inventories only |
| ItemTable.Table.SaveRow | src/char/char.c:770-828 | one turn of the walk: the row is matched with the first free item that is like it, keeps its id then and needs a statement only if a column differs; it is deleted only if there is no such item; it fails just if a statement is needed and does not work |
| ItemTable.Table.InsertRest | src/char/char.c:839-869 | the items that no row was found for are inserted in one statement if there are any; that fails just if it does not work, and changes nothing then |
| ItemTable.Table.Save | src/char/char.c:714-875 | the number of errors is that of the statements issued that do not work, so none if all work; then the owner's rows are as a multiset the items that are there; for any failures it is stated what becomes of each row; the rows of others are untouched |
| ItemRows.NoFailures | src/char/char.c:770-828 | there is no failure if and only if every statement that a row needs works |
| Ranking.ReportSorts | src/char/char.c:3530-3558 | a report keeps the list sorted if and only if the player does not fall past somebody, and free of gaps if and only if he does not fall to where the empty places begin |
| Ranking.FallExample | src/char/char.c:3550-3556 | a player who falls between two others ends up below both |
| Ranking.Standing | src/char/char.c:3530-3558 | a player whose fame does not fall stands before all who have no more than he, and the others keep their order; whoever comes anew puts the last one out; if everybody has more, nothing changes |
| Ranking.ReportKeepsTop | src/char/char.c:3530-3558 | a report of no less fame keeps the best players in the list |
| Ranking.BestPlayers | src/char/char.c:3512-3561 | so does any sequence of such reports: whoever is left out has no more fame than anybody in a full list |
| Ranking.BestOfAll | src/char/char.c:3512-3561 | that holds from the empty list on |
| FameList.ArrMove | src/common/db.h:1009-1020 | one element is taken out and put in elsewhere, in place |
| FameList.ParseFameList | src/char/char.c:3512-3561 | the handler computes the report on the array |
| HandOff.RunRemembers | src/char/char.c:3189-3201 | every entry is what the last event of its account has left |
| HandOff.AcceptedIff | src/char/char.c:3695-3746 | a request is let in if and only if the last thing that happened to the account was that just this was issued |
| HandOff.EveryAcceptHasSource | src/char/char.c:3724-3740 | every acceptance has a character selection or a change of map server as its source, with nothing in between |
| HandOff.SourcesDiffer | src/char/char.c:3738-3739 | no two acceptances have the same source |
| HandOffTerms.EntryIsFiled | src/char/char.c:3189-3201 | the entry of an account holds just what the request that filed it said, column by column, but for a change of sex since |
| HandOffTerms.ConnectsIff | src/char/char.c:4400-4417 | a login is let in by an entry if and only if the request that filed it had the same two logins, and its group or its time passes what restricts the server |
| HandOffTerms.OnlyItsAccount | src/char/char.c:2400-2405 | a request changes no entry but that of its account, and other than by filing one only by taking it away or entering a sex |
| AuthNodes.CharServer.SelectRequest | src/char/char.c:3172-3205 | an entry for character selection is put while the server runs |
| AuthNodes.CharServer.CharSelect | src/char/char.c:4602-4612 | an entry for the selected character is put |
| AuthNodes.CharServer.ChangeMapServer | src/char/char.c:3219-3270 | an entry for the character that moves is put, if it can move |
| AuthNodes.CharServer.AuthRequest | src/char/char.c:3695-3746 | the answer in terms of everything that has happened: a player is let in if just this was issued last, and the map server is told the login, group and time that it was issued with; just then the entry goes |
| AuthNodes.CharServer.Connect | src/char/char.c:4398-4428 | a login is let in by the entry filed last, if that has the same two logins and passes the restrictions; just then the entry goes |
| AuthNodes.CharServer.Kick | src/char/char.c:2482 | a kick revokes the entry, and no other |
| Quests.KnownQuest | src/char/int_quest.c:232-245 | a stored quest is updated if its progress differs and the statement works, and taken off those left |
| Quests.NewQuest | src/char/int_quest.c:246-249 | a quest that is not stored is added if the statement works |
| Quests.RestWithoutOne | src/char/int_quest.c:229-250 | compacting keeps the quests not received yet in the order of the database |
| Quests.AllWorkSyncs | src/char/int_quest.c:218-262 | if all statements that are issued work, the log is the received one |
| Quests.SyncedQuest | src/char/int_quest.c:229-258 | after such a save state and counts are the received ones; the time is the stored one where these were stored before, and the received one otherwise |
| Quests.OnlyTimeIsFree | src/char/int_quest.c:232-245 | a received quest needs no statement if and only if it is stored with the same state and counts, whatever the time |
| QuestTable.Compact | src/char/int_quest.c:241-245 | the array without one element, the rest moved together in place |
| QuestTable.Table.Save | src/char/int_quest.c:218-262 | success is reported if and only if all statements that are issued work, and then the stored quests are the received ones; for any failures the log afterwards is stated quest by quest; other characters' logs are untouched |

## Left out

- The scanner outside strings: bare words and printed floating-point numbers are parameters of the writer's model, and the packed tables of the scanner are not part of it.
- Floating-point numbers are opaque; only whether printing keeps them matters.
- Bison's error recovery: the grammar has no error token, so that a syntax error ends the parse.
- Line and file capture, error messages, include files, hooks, the locale, and freeing memory.
- White space, line breaks and the choice between colon and equals sign in the writer, which scan alike.
- Context.ParseContext.SetScalar: what C makes of a number that is converted between integers and floating point is a parameter.
- Failing allocations, and the growth of a list of settings in chunks of 16.
- Context.ParseContext.Add: the check for duplicate members is disabled in the source, although the error message for it remains; the model follows the code.
- Lookup.NameCompare: the order of different characters is that of unsigned ones; only equality is used.
- Paths.PathRoundTrip: positions above the largest int are left out, since the C library leaves atoi undefined for them.
- Mersenne.Generator.InitByArray: an empty key is left out, since the C code reads past it.
- The functions that make floating-point numbers of random words.
- PartyCache.PartyData.ChangeMap: the online flag is a Boolean; the source stores a byte in one bit. Levels have 16 bits, as in the request and in the slot. Where the figures go wrong, the slots and the even-share flag are stated, but not the wrong range.
- PartyCache.PartyData.AddMember: where the figures go wrong, the slots are stated, but not which wrong figures there are.
- Party names, leaders other than the first, messages, dissolving a party, and what the map servers are told.
- Guild members, positions, alliances, skills and castles beyond what the level needs.
- AuctionRules.RunIsSound: an auction registers without a buyer and under a new id, and mails are delivered.
- Searching auctions, their timestamps and names.
- ItemTable.Table.Save: column widths are not modelled; values are stored as they are.
- FameList.ParseFameList: names of players, and what the map servers are told.
- HandOff.EveryAcceptHasSource: the characters that the server knows have positive ids; a standalone request is let in without an entry and spends none.
- QuestTable.Table.Save: the received quests have distinct ids.
- Sockets, packet layouts, plugins, logging, configuration files of the server, and the remaining tables of the character server, which are copied field by field.

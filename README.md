# Turing machine visualiser: parser, machine and transformations

A model, in Dafny, of the core of `turing-machine-viz`, a browser tool that
reads a Turing machine written as a YAML document, runs it on one or
several tapes, and can rewrite a single-tape machine into other machines.

The model covers four parts of the program.

- **The specification parser** (`src/parser.js`). It turns a decoded YAML
  document into a validated machine: the blank symbol, the tape count, the
  start state, the synonyms, the transition table and the visualisation
  table. Here it is a pipeline of functions over a `Value` tree (module
  `Parser`). The two loops the source writes out become methods proved
  equal to those functions: the clause loop of `parseInstructionString`
  and the loops of `parseVis`. Three modules hold the properties:
  `ParserProperties` covers the multi-tape clause syntax and its round
  trip; `ParserWellFormed` covers what an accepted specification
  guarantees and where errors are reported; `ParserVisualisation`
  states exactly which visualisation tables `parseVis` accepts and what
  it stores.
- **The error type** (`src/errors.js`), module `Errors`. A `TMSpecError`
  is a reason and optional details. Its HTML `message` is composed from a
  header, a location phrase, a line break and the info and suggestion
  sentences.
- **The machine** (`src/TuringMachine.js`), module `Engine`. `Tape` and
  `TuringMachine` are classes whose fields the methods update. `step`
  writes then moves every tape in turn and sets the next state. It is
  proved against the configuration function `StepSpec`.
- **The transformations** (`src/transformations.js`):
  - module `Transformations` holds the shared helpers: collecting the
    symbols and states, splitting symbol keys, flattening the table,
    unary codes and table padding;
  - module `Universal` builds the three input tapes of the universal
    machine;
  - module `Shannon` rewrites a machine, after Shannon's second theorem,
    into a two-symbol machine over binary codes. The `add`-based table
    building is a `Builder` class, and the `0`-blank variant is included.

Modules `Wrappers`, `Text` and `Values` hold the supporting definitions:
`Option`/`Result`, the JavaScript string operations used (`trim`, `split`,
`join`, `String(n)`, `parseInt`, `padStart`/`padEnd`, `toString(2)`,
`sort`) and the decoded document values.

`step` assigns `this.state = instruct.state` unconditionally
(`src/TuringMachine.js:36`), so a transition without a next state leaves
the machine in an `undefined` state. The model keeps this: the state is an
`Option<string>`, and `StepMeaning` says the new state is the instruction's
`state` field, present or not. `src/parser.js:19-70` repeats `TMSpecError` word for word; that
copy is modelled once, in `Errors`.

## Model

| member | source | states |
|---|---|---|
| Errors.NewSpecError | src/errors.js:16-22 | the error keeps the reason as given; missing details become the empty details record |
| Errors.LocationChoice | src/errors.js:37-49 | the location phrase is empty exactly when neither a state nor a synonym is given; a state wins over a synonym; with a symbol it names the transition, otherwise the state |
| Errors.MessageShape | src/errors.js:51-64 | the message starts with `<strong>` and the reason; the sentences are the header, then `<br>` exactly when there is a location, then the present info and suggestion, each ending with a full stop |
| Errors.LayoutShape | src/errors.js:51-64 | the sentence list is the header, a `<br>` exactly when a location is given, then the other sentences; every sentence but the break keeps its full stop |
| Errors.FalsyProblemValueIgnored | src/errors.js:51 | a falsy problem value leaves the message as if it were absent |
| Errors.JoinStartsWith | src/errors.js:64 | the joined sentences start with the first sentence |
| Parser.MakeInstruction | src/parser.js:263-270 | symbol and move are kept; the next state is absent exactly when the given one is nullish |
| Parser.SynonymEntries | src/parser.js:206-218 | the parsed synonyms have the document's keys in order |
| Parser.ParseStates | src/parser.js:227-254 | the parsed table has the document's states, in document order |
| Parser.ParseRow | src/parser.js:242-252 | a parsed row has the cell keys of the document, in order |
| Parser.WordRun | src/parser.js:349-350 | the run of word characters `\w+` the state pattern matches: maximal, and only word characters |
| Parser.MatchState | src/parser.js:349-355 | a matched state token is a prefix of at least two characters, the first not a digit and the rest word characters, followed by a space or the end |
| Parser.ClauseAt | src/parser.js:358-368 | a matched clause has a tape digit, an optional `R`/`L` direction and an optional write that is not a space, and consumes at least one character |
| Parser.ClauseStep | src/parser.js:357-395 | one loop iteration keeps one direction and one write per tape, keeps directions valid, and consumes text |
| Parser.Clauses | src/parser.js:357-395 | the whole clause loop returns one direction and one write per tape, with valid directions |
| Parser.NoWrites | src/parser.js:351 | the initial write list: one empty write per tape |
| Parser.ParseInstructionString | src/parser.js:344-416 | the method with the clause loop returns what the functional model `StringInstruction` returns |
| Parser.ScanClauses | src/parser.js:350-395 | the clause loop as a method, equal to `Clauses` from all tapes at `H` and no writes |
| Parser.FirstBadKey | src/parser.js:426-441 | no bad key exactly when every key is `L`, `R` or `write`; a reported key is a listed key outside those |
| Parser.ParseVis | src/parser.js:477-534 | the method with the loops of `parseVis` returns what `BuildVis` returns |
| Parser.ParseVisRules | src/parser.js:490-531 | the loop over one state's rules equals `VisRules` |
| Parser.ParseVisTapes | src/parser.js:504-530 | the loop over the comma-separated tape numbers of one rule equals `VisTapes` |
| ParserProperties.ClauseFor | src/parser.js:357-395 | the clause for a tape is absent exactly when no clause names it; a found clause is listed and names that tape |
| ParserProperties.StepCases | src/parser.js:358-389 | one iteration succeeds exactly when a clause matches, its tape is from 1 to the tape count and not set before; then it advances by that clause |
| ParserProperties.ClausesFail | src/parser.js:357-395 | the loop fails on text that is not a sequence of clauses naming distinct, in-range tapes |
| ParserProperties.ClausesResult | src/parser.js:357-395 | on a valid clause sequence the loop succeeds, each tape taking its own clause's direction and write |
| ParserProperties.ClausesMeaning | src/parser.js:357-395 | both directions: the loop succeeds exactly on valid clause sequences, and then each tape has its clause's direction and write or keeps its start value |
| ParserProperties.MultiTapeStringMeaning | src/parser.js:345-396 | a multi-tape string instruction: the optional state token, then the clauses; unnamed tapes stay put (`H`) and write nothing; accepted exactly when the clauses are valid |
| ParserProperties.ClausesTextRead | src/parser.js:357-395 | the clause loop reads back the rendered clauses of the tapes still to come |
| ParserProperties.RenderedStateMatch | src/parser.js:349-355 | the state pattern finds exactly the rendered state name, and the rest is the clause text |
| ParserProperties.MultiTapeRoundTrip | src/parser.js:345-396 | parsing the text rendered from any expressible multi-tape instruction gives the instruction back |
| ParserProperties.TwoTapeExample | src/parser.js:345-396 | `next 1R0 2L` on two tapes: tape 1 moves right writing `0`, tape 2 moves left, the next state is `next` |
| ParserWellFormed.MultiTapeShaped | src/parser.js:345-396 | an accepted multi-tape string instruction has one direction and one write per tape |
| ParserWellFormed.SingleTapeShaped | src/parser.js:398-414 | an accepted single-tape string instruction has the single-tape shape |
| ParserWellFormed.InstructionFacts | src/parser.js:311-334 | every instruction the parser accepts has its machine's shape and names a declared state or none |
| ParserWellFormed.CheckTargetDeclared | src/parser.js:272-280 | a transition the target check lets through is unchanged and names a declared state or none |
| ParserWellFormed.ObjectShaped | src/parser.js:420-468 | an accepted mapping instruction moves `L` or `R` and writes at most one symbol |
| ParserWellFormed.SynonymsFacts | src/parser.js:192-219 | accepted synonyms are well-formed instructions with declared targets |
| ParserWellFormed.StateFacts | src/parser.js:228-253 | a state's row is absent exactly for a `null` entry, and well-formed otherwise |
| ParserWellFormed.StatesFacts | src/parser.js:227-254 | every row of the table is well-formed, and a state halts exactly when its document entry is `null` |
| ParserWellFormed.VisTapeCount | src/parser.js:478-482 | tape count 0 gives one per-tape map, a positive count that many, otherwise none |
| ParserWellFormed.BuildVisOk | src/parser.js:477-534 | an accepted visualisation mentions only declared states, has one map per tape, and stores only complete rules |
| ParserWellFormed.TapesReasons | src/parser.js:126-143 | the reason for each rejected tape count: a non-integer, more than 9 tapes when several are allowed, anything but 1 when not |
| ParserWellFormed.HeaderErrorOrder | src/parser.js:117-152 | the blank, then the tape count, then the start state are checked, and the first failure is the error; the header is accepted exactly when all three are |
| ParserWellFormed.HeaderErrorsFirst | src/parser.js:108-152 | an empty document is rejected first; otherwise a header error is the result whatever the table, synonyms and visualisation hold |
| ParserVisualisation.CheckRuleAccepted | src/parser.js:521-526 | a rule passes exactly when it is not null, a truthy `skip` is an integer, and mode, direction and colour are listed |
| ParserVisualisation.WithCharsKeeps | src/parser.js:527 | turning `chars` into a string leaves the checked properties alone, and a second time changes nothing |
| ParserVisualisation.VisTapeFacts | src/parser.js:505-528 | one tape number is accepted exactly when it is an integer from 1 to the tape count and the rule passes; the rule is then stored on that tape with `chars` as a string |
| ParserVisualisation.VisTapesFacts | src/parser.js:504-529 | the rule's tape numbers are accepted exactly when every one of them is and the rule passes; the rule is stored on each named tape |
| ParserVisualisation.VisRuleFacts | src/parser.js:490-529 | `title`, `info` and `color` are always accepted and stored (a colour as its `String()`); any other key is accepted exactly as its tape numbers are |
| ParserVisualisation.VisRulesFacts | src/parser.js:490-530 | a state's entries are accepted exactly when each one is; the result applies them in order |
| ParserVisualisation.VisStatesFacts | src/parser.js:486-531 | the visualisation's states are accepted exactly when each is declared, not null, and has only accepted entries; the result applies all entries in document order |
| ParserVisualisation.BuildVisAccepted | src/parser.js:477-534 | both directions: `parseVis` accepts exactly a falsy visualisation or one meeting `VisAccepted`, and then returns the document's entries applied in order to the empty tables |
| ParserVisualisation.BuildVisMeaning | src/parser.js:477-534 | both directions of acceptance; on acceptance the titles, info texts and colours hold each state's last such entry, and tape `t` holds, for each state, its last rule naming tape `t + 1`, with `chars` as a string, and nothing else |
| ParserVisualisation.OverlayLastWins | src/parser.js:491-528 | writing entries in order into a table leaves each written key with its last write and every other key as it was |
| ParserWellFormed.ParseSpecStages | src/parser.js:103-165 | an accepted document passed the header checks, the table type check, the synonyms, the table and the visualisation in that order, with the start state declared; the result is built from their outputs |
| ParserWellFormed.ParsedSpecWellFormed | src/parser.js:103-165 | an accepted specification has a declared start state, the document's states in order, well-shaped instructions with declared targets, halting exactly on `null` entries, at most 9 tapes (tape count 0 without multi-tape support), a complete visualisation, and the document's blank, start state and input |
| ParserWellFormed.TapesMeaning | src/parser.js:128-143 | without multi-tape support the count must be absent or 1 and becomes 0; with it, any integer up to 9 is kept and an absent one stays absent |
| ParserWellFormed.BlankMeaning | src/parser.js:117-126 | the blank is accepted exactly when it is present and its string form is one character, and it is that character |
| ParserWellFormed.ObjectInstructionMeaning | src/parser.js:420-468 | both directions: a mapping is accepted exactly when its keys are among `L`, `R`, `write`, exactly one direction is given and a write is one character; the direction key is the move and its value the next state |
| ParserWellFormed.DirectionsNotRedefinable | src/parser.js:398-404 | on a single-tape machine `L` and `R` are always the bare moves, whatever the synonyms say |
| ParserWellFormed.SynonymOfSynonym | src/parser.js:206-216 | a synonym defined by another string is rejected as an unrecognised string, noting that synonyms cannot use synonyms |
| ParserWellFormed.RowErrorLocated | src/parser.js:242-252 | an error in a cell names the cell's state and one of the row's symbol keys |
| ParserWellFormed.SynonymErrorLocated | src/parser.js:209-216 | an error in a synonym names a listed synonym, and an unrecognised string there carries the synonym note |
| ParserWellFormed.CheckTargetAsWritten | src/parser.js:272-280 | `checkTarget` with the JavaScript `in`: accepted exactly when there is no target or it is an own or inherited property name; it agrees with the own-key check wherever that one accepts |
| ParserWellFormed.InheritedTargetAccepted | src/parser.js:272-280 | as written, a target `toString` passes the check although the table does not declare it |
| ParserWellFormed.InheritedStartAccepted | src/parser.js:161-163 | as written, the start state `constructor` passes the declared-start test for any table |
| ParserWellFormed.InheritedStartRejected | src/parser.js:161-163 | with own keys, `start state: constructor` over a table declaring only `a` is rejected |
| ParserWellFormed.UndeclaredStartNotOk | src/parser.js:161-163 | no well-formed specification of that document exists |
| Engine.WriteCell | src/TuringMachine.js:33 | writing sets the cell under the head, leaves every other cell and the head alone, and an absent symbol changes nothing |
| Engine.Move | src/TuringMachine.js:58-71 | `R`, `L` and `H` keep the cells and succeed; any other direction is the `TypeError` |
| Engine.MoveInverse | src/TuringMachine.js:58-71 | moving right then left, or left then right, returns to the same tape; `H` leaves it |
| Engine.WriteRead | src/TuringMachine.js:33 | reading after a write gives the symbol written; writing back what was read changes no cell |
| Engine.Tape.Write | src/TuringMachine.js:33 | the tape's value becomes `WriteCell` of the old value |
| Engine.Tape.HeadLeft | src/TuringMachine.js:64 | the head moves one cell left, nothing else changes |
| Engine.Tape.HeadRight | src/TuringMachine.js:61 | the head moves one cell right, nothing else changes |
| Engine.MoveTape | src/TuringMachine.js:58-71 | `move` on a tape object: it succeeds exactly when `Move` does, takes its result, and changes nothing on failure |
| Engine.StepTape | src/TuringMachine.js:32-35 | one iteration of the tape loop: write, then move; on an invalid direction the write has happened and the move has not |
| Engine.ReadAll | src/TuringMachine.js:44-45 | the symbols read, one per tape, in tape order |
| Engine.ApplyFromMeaning | src/TuringMachine.js:32-35 | the loop succeeds exactly when every remaining direction is valid; then every tape is written and moved, and the earlier ones are unchanged |
| Engine.StepMeaning | src/TuringMachine.js:27-39 | both directions: `step` halts exactly when there is no instruction, and then nothing changes; a full step writes and moves every tape and takes the instruction's next state; a throw keeps the state |
| Engine.TuringMachine.constructor | src/TuringMachine.js:12-16 | the machine holds the transition function, the start state and the given tapes |
| Engine.TuringMachine.Values | src/TuringMachine.js:15 | the tape contents, one per tape, in order |
| Engine.TuringMachine.Step | src/TuringMachine.js:27-54 | the outcome, new state and new tapes are those of `StepSpec`; it reports a halt exactly when the machine was halted |
| Engine.TuringMachine.UpdateOne | src/TuringMachine.js:32-35 | distinct tapes: changing one tape object changes only its entry |
| Engine.ToStringLines | src/TuringMachine.js:18-20 | split at line breaks, the text is the state (or `undefined`) followed by one line per tape |
| Engine.Lines | src/TuringMachine.js:19 | one rendered line per tape, in order |
| Transformations.DedupFacts | src/transformations.js:11-23 | the collected list has no repetitions, holds exactly the elements met, and keeps them in order of first appearance |
| Transformations.CollectPieces | src/transformations.js:16-24 | the innermost loop of `unique_symbols_states` extends both lists as `Collected` says: each symbol, target and written symbol pushed once, in order |
| Transformations.CollectRow | src/transformations.js:15-25 | the loop over one state's cells, in the same terms |
| Transformations.UniqueSymbolsStates | src/transformations.js:7-28 | the method's two lists equal the functional `UniqueSpec` |
| Transformations.UniqueContents | src/transformations.js:7-28 | no list repeats an entry; the symbols are exactly those read or written by some transition; the states are exactly the table's states and the truthy targets |
| Transformations.ParseSymbolKeyPlain | src/transformations.js:134-143 | a key without a comma stands for itself alone |
| Transformations.ParseSymbolKeyShape | src/transformations.js:134-143 | every symbol a key yields is a comma or a text without commas |
| Transformations.ParseSymbolKeyRoundTrip | src/transformations.js:134-143 | joining key symbols with commas and parsing the key gives the symbols back |
| Transformations.PieceTriples | src/transformations.js:127-129 | one triple per symbol of a key, each with the state and the cell's instruction |
| Transformations.RowTriplesMember | src/transformations.js:126-130 | both directions: a triple belongs to a row exactly when it comes from one of its cells and a symbol of that cell's key |
| Transformations.FlattenMember | src/transformations.js:124-132 | both directions: a triple is a flattened transition exactly when some table entry yields it |
| Transformations.Remove | src/transformations.js:147 | removing a present element shortens the list by one; an absent one leaves it unchanged |
| Transformations.RemoveAt | src/transformations.js:147 | the removal is the list around the first occurrence |
| Transformations.RemoveFacts | src/transformations.js:147 | removal from a duplicate-free list leaves no repetitions and exactly the other elements |
| Transformations.RemoveMember | src/transformations.js:147 | after removing a listed `x` from a duplicate-free list, `y` is left exactly when it was there and is not `x` |
| Transformations.Unary | src/transformations.js:145-153 | the method leaves the list without `first` and the codes `UnaryCodes` assigns |
| Transformations.UnaryCodesFacts | src/transformations.js:145-153 | `first` gets `code`; the element at index `k` gets `code` followed by `k + 1` more copies of its first character; nothing else gets a code |
| Transformations.UnaryComplete | src/transformations.js:145-153 | every element of a duplicate-free list, and `first`, gets a code, and no two get the same one |
| Transformations.UnaryCodesDistinct | src/transformations.js:148-151 | no two keys share a code |
| Transformations.UnaryCodeLength | src/transformations.js:148-151 | every key's code is as long as `code` plus its rank |
| Transformations.RankInjective | src/transformations.js:148-151 | distinct keys have distinct ranks |
| Transformations.UnaryCodesKeys | src/transformations.js:146-151 | both directions: the keys are `first` and the listed elements |
| Transformations.UnaryCodesRun | src/transformations.js:149 | from a one-character code every code is a run of that character |
| Transformations.UnaryDropsLast | src/transformations.js:147 | as written, with `first` absent the last element of the list gets no code |
| Transformations.UnaryDropsLastExample | src/transformations.js:147 | symbols `0`, `1` and an unlisted blank: `1` gets no code |
| Transformations.NoDupPermutation | src/transformations.js:51 | sorting a list without repetitions keeps it without repetitions |
| Transformations.ColumnWidth | src/transformations.js:118 | the column width is at least every cell's length and equal to some cell's length |
| Transformations.PadTableFacts | src/transformations.js:117-122 | padding succeeds exactly on a non-empty table whose rows are at least as long as row 0; each cell gains only trailing spaces, cells of one column end equally long at the longest cell's length, and cells beyond row 0's width are kept |
| Text.Sort | src/transformations.js:51 | `sort()` gives a sorted rearrangement of the list |
| Text.CeilLog2 | src/transformations.js:181 | the least `s` with `2^s` at least the count |
| Text.BinaryCode | src/transformations.js:184 | `n.toString(2).padStart(width, '0')` below `2^width`: `width` binary digits whose value is `n` |
| Text.SplitJoin | src/transformations.js:134-143 | splitting at a separator is the inverse of joining pieces without it; `ParseSymbolKeyRoundTrip`, `DataTapeSplit` (`src/transformations.js:81`) and `ToStringLines` (`src/TuringMachine.js:19`) rest on it |
| Universal.CollectFinals | src/transformations.js:46-50 | the loop collects exactly `Finals`, the halting states in table order |
| Universal.FinalsMember | src/transformations.js:46-50 | both directions: a state is collected exactly when the table maps it to `null` |
| Universal.InputCodes | src/transformations.js:81 | one code per input symbol |
| Universal.EncodeTransitions | src/transformations.js:57-80 | the method produces one raw and one encoded row per flattened transition, and the instruction tape is `>` followed by the encoded rows' texts |
| Universal.EncodedRows | src/transformations.js:64-80 | one encoded row per flattened transition |
| Universal.Universal | src/transformations.js:36-82 | the method builds the three tapes `UniversalSpec` describes |
| Universal.UniversalOutcome | src/transformations.js:36-82 | both directions: accepted exactly on a single-tape machine with an input; otherwise the tape error or the `TypeError` of a missing input |
| Universal.StateTapeIsStart | src/transformations.js:54-61 | the state tape is `>2`: the start state has code `2` |
| Universal.CodesDistinct | src/transformations.js:51-54 | the blank has code `1`, and no two symbols, nor two states, share a code |
| Universal.TransitionsCoded | src/transformations.js:64-76 | every symbol a transition reads or leaves, and every state it starts from or enters, has a code |
| Universal.EncodedRowsWellCoded | src/transformations.js:70-76 | when every move has a code, each encoded row is a run of `1`s, `2`s, `1`s, `2`s and `3`s |
| Universal.InstructionTapeDecodes | src/transformations.js:60-77 | after `>`, the instruction tape's runs are, transition by transition, the five codes of each row |
| Universal.DataTapeSplit | src/transformations.js:81-82 | a data tape of codes without `;` splits back into those codes |
| Universal.DataTapeDecodes | src/transformations.js:81-82 | when every input symbol has a code, the data tape is `>;`, the codes separated by `;`, then `;` |
| Shannon.MoveFrontFacts | src/transformations.js:172-179 | moving an element to the front keeps the elements and puts it first, followed by the rest in order |
| Shannon.ShannonOrderFacts | src/transformations.js:171-179 | the order is a rearrangement of the symbols: the blank first, then `∂`, when listed, then the rest sorted |
| Shannon.AssignCodes | src/transformations.js:180-187 | the coding loop gives the codes `BinaryCodes` describes |
| Shannon.BinaryCodesFacts | src/transformations.js:183-186 | with no repetitions and at most `2^size` symbols, exactly the listed symbols get a code, the `n`-th the `size`-digit binary form of `n` |
| Shannon.BinaryCodesShaped | src/transformations.js:183-186 | every code has `size` binary digits |
| Shannon.SymbolCodesShaped | src/transformations.js:167-187 | past the too-few check, the codes are all `CodeSize` digits wide |
| Shannon.ShannonCodesFacts | src/transformations.js:167-187 | with more than two symbols the codes are `CodeSize` bits wide, with `2^(CodeSize-1) < n <= 2^CodeSize`; the symbols are exactly the coded keys; the `n`-th symbol in order has code `n`; codes are distinct; the blank's code is all zeros; `∂`, when listed, has the code right after the blank's |
| Shannon.Builder.constructor | src/transformations.js:191-192 | the table and the listing start empty |
| Shannon.Builder.Add | src/transformations.js:194-202 | `add` fails exactly when `AddSpec` throws, and otherwise leaves the table and the listing `AddSpec` gives |
| Shannon.Builder.AddEach | src/transformations.js:217-299 | a run of `add` calls leaves the state `ApplyCalls` gives, and fails exactly when it throws |
| Shannon.Builder.Separator | src/transformations.js:300-301 | the listing gains a `null` unless it already ends with one |
| Shannon.Builder.MarkHalting | src/transformations.js:204-207 | the loop sets the row of every halting state to `null`; the listing is unchanged |
| Shannon.AddFacts | src/transformations.js:194-202 | `add` throws exactly on a halting state; an existing entry changes nothing; a new one is stored and listed once; no row loses an entry |
| Shannon.AddConsistent | src/transformations.js:194-202 | `add` keeps the table and the listing in agreement |
| Shannon.ApplyCallsFacts | src/transformations.js:217-299 | a run of `add` throws exactly when some call starts from a halting state; otherwise it keeps every entry, extends the listing and keeps the agreement |
| Shannon.ApplyCallsAbort | src/transformations.js:217-299 | a run that throws on a prefix throws on the whole |
| Shannon.SeparateFacts | src/transformations.js:300-301 | the separator leaves the table alone and makes the listing end with `null`, without two `null`s in a row |
| Shannon.ReadCallsAt | src/transformations.js:217-230 | the reading calls: the `k`-th reads bit `k` of the code and moves to the state that remembers the bits so far |
| Shannon.WriteCallsAt | src/transformations.js:237-248 | the write-back calls write the new code from its last bit to its first, moving left |
| Shannon.MoveRightAt | src/transformations.js:250-267 | moving right: stay once, then one step right per bit, ending in the next state |
| Shannon.MoveLeftAt | src/transformations.js:274-299 | moving left: stay once, then one step left per bit over either bit value, ending in the next state |
| Shannon.MovePhase | src/transformations.js:250-299 | for `R`, `H` and `L` the moving calls start from `to_move`, are linked, leave the tape, and end in the next state; any other move adds none |
| Shannon.MoveHaltPhase | src/transformations.js:268-273 | with the move `H` the single call from `to_H` stays put, leaves the tape and ends in the next state |
| Shannon.TransitionChain | src/transformations.js:217-299 | the calls of one transition form a linked chain from its state; they read the code bit by bit, write the new code back, leave the tape while moving, and end in the next state |
| Shannon.WriteKeySingle | src/transformations.js:212-215 | a single-tape write is looked up under the written symbol, the same one the universal transform leaves |
| Shannon.SymbolCodesKeys | src/transformations.js:180-187 | the coded symbols are exactly the collected symbols |
| Shannon.TransitionCodesExist | src/transformations.js:211-215 | every symbol a transition reads has a code, and so has a single-tape write |
| Shannon.StepsAbort | src/transformations.js:209-302 | a failure on a prefix of the transitions is a failure of the whole loop |
| Shannon.TransitionStepFacts | src/transformations.js:209-302 | one transition extends the table and listing and ends the listing with a separator |
| Shannon.StepsFacts | src/transformations.js:209-302 | the loop over all transitions keeps every entry, extends the listing, keeps the agreement and, when there is a transition, ends with a separator |
| Shannon.HaltingFacts | src/transformations.js:204-207 | both directions: the null rows are exactly the states the table maps to `null` |
| Shannon.ShannonTable | src/transformations.js:204-311 | the new table and its listing agree; its halting states are exactly the original's; a non-empty listing ends with a separator |
| Shannon.ChunksJoin | src/transformations.js:189 | codes of one width run together are cut back into the same codes |
| Shannon.InputDecodes | src/transformations.js:189 | when every input symbol has a code, the new input cut into `CodeSize` pieces gives their codes in order |
| Shannon.Transform | src/transformations.js:160-311 | the method with its loops gives the result `ShannonSpec` describes |
| Shannon.RunTransitions | src/transformations.js:209-302 | the loop over the flattened transitions gives the state `Steps` describes, and fails exactly when it throws |
| Shannon.RunTransition | src/transformations.js:211-301 | the body of that loop for one transition equals `TransitionStep` |
| Shannon.RunEncode | src/transformations.js:189-311 | after the codes are assigned the method gives the result `Encode` describes |
| Shannon.ShannonOutcome | src/transformations.js:165-311 | with two symbols or fewer the too-few error; otherwise a missing input, or any other failure, is the `TypeError`; an accepted machine is single-tape, with blank `' '` and the original start state |
| Shannon.Shannon20Facts | src/transformations.js:323-327 | the `0`-blank variant succeeds exactly when the plain one does, fails with the same error, and differs only in the blank, which is `0` |
| Shannon.Transform20 | src/transformations.js:323-327 | the method gives `Shannon20Spec` |

## Left out

- YAML decoding (`jsyaml.safeLoad` in `parseSpec`): the model starts from the decoded `Value` tree. Number formatting is cut down to what the parser needs: an integer-valued number is an `Int`, and any other number is kept by its `String()` text.
- The template part of `universal_transform` (`src/transformations.js:39-43`, `84-114`): loading and parsing the universal machine's own source, and splicing the tapes and the commented code tables into it. It is text layout around the tapes the model builds. `examples.js` and the universal machine's source are not part of this model.
- The legend and the listing text of `shennon2_transform` (`src/transformations.js:313-319`): the listing itself is modelled, as the log of `add` calls with `null` separators. The constant `vis` object of the result is left out too.
- `Math.ceil(Math.log2(n))` is floating point; it is modelled as the exact least `s` with `2^s >= n`, without the rounding of `Math.log2`.
- JavaScript object key order: `res` and `codes` are modelled as maps. Object iteration over integer-like keys, which JavaScript visits first, is not modelled; tables are kept in document order.
- String order and length: strings are sequences of characters. Sorting compares characters, not UTF-16 code units, so characters outside the Basic Multilingual Plane may sort differently.
- Inherited property names: lookups in the model use own keys only. This holds everywhere except the two places named under Findings. `parseVis` tests `state in table` too (`src/parser.js:487`), which would also let a visualisation name `toString`; the model checks the table's own states there. The model also omits `res["constructor"]`, which `add` would find on a fresh object.
- In the `L` branch of `shennon2_transform` the symbols `0` and `1` are numbers; they become the string keys `"0"` and `"1"`, which is how the model writes them.
- The `add` calls of each loop in one transition are modelled by `Builder.AddEach` over the precomputed call sequence `TransitionCalls`, not by separate `for` loops.
- `src/tape/Tape.js` is not part of this model. The tape is modelled abstractly by its written cells, its head and its blank. `Tape.write(undefined)` is taken to leave the cell unchanged.
- `Engine.TuringMachine.constructor` requires the tapes to be distinct objects: aliasing one tape twice is not modelled.
- A negative tape count makes `Array(tapes)` in `parseInstructionString` (`src/parser.js:350-351`) throw a `RangeError`; it is modelled as a thrown failure without the JavaScript message. `parseVis` creates no per-tape map for such a count, so every tape rule it meets is rejected as bigger than the number of tapes, as `VisTape` has it.
- Transformations.UniqueSymbolsStates: for a multi-tape transition that writes nothing on tape 1, the source pushes its `write[0]`, which is `undefined` (`src/transformations.js:22-23`); the model's `Written` pushes nothing, so `undefined` is never among the collected symbols.
- Shannon.Transform: because of that missing `undefined` entry, a multi-tape machine with exactly two other symbols gets the too-few-symbols error in the model (`Transformations.Written`), where the source counts three symbols, goes on, and throws a `TypeError` at `write.slice` (`src/transformations.js:215`, `239`).
- Universal.Universal: it is built on the corrected `unary` of the third Findings row (`UnaryComplete`), not on the `splice(-1, 1)` of `src/transformations.js:147`; `SymbolCodes`, `CodesDistinct`, `TransitionsCoded`, `InstructionTapeDecodes` and `DataTapeDecodes` hold for the corrected program. The program as written gives the last sorted symbol no code when the blank is not among the symbols.
- Universal.InputKeys: walks a text by its characters and a list by its elements, and gives nothing for any other value; a mapping with a numeric `length` key, which `Array.prototype.map.call` would walk by index, is not modelled.
- A next state given in an object instruction as a number or a mapping is kept by its `String()` form.
- Transformations.Unary: requires a non-empty code, because `code[0]` of an empty code is `undefined`; both callers pass `1` or `2`.
- The DOM, visualisation and concurrency code (`src/TMViz.js`, `src/tape/TapeViz.js`, `webpack.config.js`) is outside the core.

## Findings

| source | as written | input that shows it | evidently intended | confidence | as-written member | corrected member |
|---|---|---|---|---|---|---|
| src/parser.js:272-280 | `instruct.state in table` also accepts names `Object.prototype` provides, such as `toString` or `constructor` | table `{a: null}` with a transition `{R: toString}` passes the undeclared-state check | only states the table declares are accepted targets | not executed | ParserWellFormed.InheritedTargetAccepted | ParserWellFormed.InstructionFacts |
| src/parser.js:161-163 | `obj.startState in obj.table` accepts an inherited name as start state | `start state: constructor` with table `{a: null}` is accepted | the start state must be one of the table's own states | not executed | ParserWellFormed.InheritedStartAccepted | ParserWellFormed.InheritedStartRejected |
| src/transformations.js:147 | `arr.splice(arr.indexOf(first), 1)` with `first` absent is `splice(-1, 1)`, which removes the last element | symbols `0`, `1` with blank `' '` not among them: `1` gets no code | only `first` is taken out, and only when it is listed | not executed | Transformations.UnaryDropsLast | Transformations.UnaryComplete |

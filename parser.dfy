/** The specification parser: from a decoded YAML document to a validated
    machine specification or the first `TMSpecError` found. */
module Parser {
  import opened Wrappers
  import opened Text
  import opened Values
  import opened Errors

  /** One instruction. `symbol` is what to write: a one-element list for a
      single-tape machine, one optional symbol per tape for a multi-tape
      machine, absent when nothing is written. `move` has one direction
      letter per tape. An absent `state` keeps the machine in its state. */
  datatype Instruction = Instruction(symbol: Option<seq<Option<char>>>, move: string, state: Option<string>)

  /** The instructions of one state, by symbol key, in document order. */
  type Row = seq<(string, Instruction)>

  /** The transition table in document order; a halting state has no row. */
  type Table = seq<(string, Option<Row>)>

  type SynonymMap = seq<(string, Instruction)>

  /** The visualisation table: titles, info texts and colours per state, and
      one map from state to highlighting rule per tape. */
  datatype Vis = Vis(titles: map<string, Value>, info: map<string, Value>, colors: map<string, string>, tapes: seq<map<string, Value>>)

  /** A parsed specification. `tapes` is `Some(0)` for a single-tape machine
      and `None` when multi-tape parsing was allowed but no count was
      given. `input` is carried over from the document unchanged. */
  datatype Spec = Spec(blank: char, tapes: Option<int>, startState: string, table: Table, vis: Vis, input: Option<Value>)

  type Res<T> = Result<T, Failure>

  /** The `if (tapes)` test: a tape count other than 0 selects the multi-tape
      instruction syntax. */
  predicate MultiTape(tapes: Option<int>) {
    tapes.Some? && tapes.value != 0
  }

  function Reason<T>(r: Res<T>): string {
    if r.Err? && r.error.Invalid? then r.error.error.reason else ""
  }

  // ---------------------------------------------------------------------
  // Messages

  const EmptyDocumentInfo := "Every Turing machine requires a <code>blank</code> tape symbol, a <code>start state</code>, and a transition <code>table</code>"
  const BlankSuggestion := "Examples: <code>blank: ' '</code>, <code>blank: '0'</code>"
  const StartSuggestion := "Assign one using <code>start state: </code>"
  const TableSuggestion := "Specify one using <code>table:</code>"
  const TableTypeInfo := "The transition table should be a nested mapping from states to symbols to instructions"
  const SynonymsTypeInfo := "Synonyms should be a mapping from string abbreviations to instructions (e.g. <code>accept: {R: accept}</code>)"
  const SynonymNote := "Note that a synonym cannot be defined using another synonym"
  const StateTypeInfo := "Each state should map symbols to instructions. An empty map signifies a halting state."
  const UndeclaredSuggestion := "Make sure to list all states in the transition table and define their transitions (if any)"
  const InstructionTypeInfo := "An instruction can be a string (a direction <code>L</code>/<code>R</code> or a synonym) or a mapping (examples: <code>{R: accept}</code>, <code>{write: ' ', L: start}</code>)"
  const MultiTapeStringInfo := "An instruction can be a synonym or a state with instructions for tapes. Examples: <code>state2 1R 2R0</code>, <code>2Lx 3R</code>"
  const SingleTapeStringInfo := "An instruction can be a string if it's a synonym or a direction"
  const KeyInfo := "An instruction always has a tape movement <code>L</code> or <code>R</code>, and optionally can <code>write</code> a symbol"
  const ConflictInfo := "Each instruction needs exactly one movement direction, but two were found"

  // ---------------------------------------------------------------------
  // parseSpec

  /** The fields checked before the table is looked at. */
  datatype Header = Header(blank: char, tapes: Option<int>, startState: string)

  function ParseBlank(v: Option<Value>): Res<char> {
    if IsNullish(v) then Err(Fail("No blank symbol was specified", Details(suggestion := Some(BlankSuggestion))))
    else
      var s := JsString(v.value);
      if |s| != 1 then Err(Fail("The blank symbol must be a string of length 1", Details(suggestion := Some(BlankSuggestion))))
      else Ok(s[0])
  }

  /** The tape count: only checked when multi-tape machines are allowed,
      otherwise it must be absent or 1 and becomes 0. */
  function ParseTapes(v: Option<Value>, allowTapes: bool): Res<Option<int>> {
    if allowTapes && v.Some? then
      if !v.value.Int? then
        Err(Fail("The number of tapes must be an integer", Details(problemValue := Some(Str(TypeOf(v.value))))))
      else if v.value.i > 9 then Err(Fail("Why would you need more than 9 tapes?"))
      else Ok(Some(v.value.i))
    else if allowTapes then Ok(None)
    else if v.Some? && v.value != Int(1) then Err(Fail("This Turing machine has only 1 tape"))
    else Ok(Some(0))
  }

  function ParseStartState(v: Option<Value>): Res<string> {
    if IsNullish(v) then Err(Fail("No start state was specified", Details(suggestion := Some(StartSuggestion))))
    else Ok(JsString(v.value))
  }

  function ParseHeader(blank: Option<Value>, tapes: Option<Value>, start: Option<Value>, allowTapes: bool): Res<Header> {
    var b :- ParseBlank(blank);
    var t :- ParseTapes(tapes, allowTapes);
    var s :- ParseStartState(start);
    Ok(Header(b, t, s))
  }

  function CheckTableType(v: Option<Value>): Res<Value> {
    if IsNullish(v) then Err(Fail("Missing transition table", Details(suggestion := Some(TableSuggestion))))
    else if !IsObject(v.value) then
      Err(Fail("Transition table has an invalid type", Details(problemValue := Some(Str(TypeOf(v.value))), info := Some(TableTypeInfo))))
    else Ok(v.value)
  }

  /** `parseSpec(str, allowTapes)` on the decoded document. */
  function ParseSpec(doc: Value, allowTapes: bool): Res<Spec> {
    if doc.Null? then Err(Fail("The document is empty", Details(info := Some(EmptyDocumentInfo))))
    else
      var h :- ParseHeader(Prop(doc, "blank"), Prop(doc, "tapes"), Prop(doc, "start state"), allowTapes);
      var raw :- CheckTableType(Prop(doc, "table"));
      var synonyms :- ParseSynonyms(Prop(doc, "synonyms"), raw, h.tapes);
      var table :- ParseTable(synonyms, raw, h.tapes);
      var vis :- BuildVis(Prop(doc, "vis"), table, h.tapes);
      if h.startState !in Keys(table) then Err(Fail("The start state has to be declared in the transition table"))
      else Ok(Spec(h.blank, h.tapes, h.startState, table, vis, Prop(doc, "input")))
  }

  // ---------------------------------------------------------------------
  // parseSynonyms and parseTable

  function AnnotateSynonym(f: Failure, key: string): Failure {
    match f
    case Thrown(_) => f
    case Invalid(e) =>
      var info := if e.reason == "Unrecognized string" then Some(SynonymNote) else e.details.info;
      Invalid(e.(details := e.details.(synonym := Some(key), info := info)))
  }

  function AnnotateCell(f: Failure, state: string, symbol: string): Failure {
    match f
    case Thrown(_) => f
    case Invalid(e) => Invalid(e.(details := e.details.(state := Some(state), symbol := Some(symbol))))
  }

  /** `parseSynonyms`: synonyms are parsed without access to other synonyms. */
  function ParseSynonyms(v: Option<Value>, raw: Value, tapes: Option<int>): Res<Option<SynonymMap>> {
    if IsNullish(v) then Ok(None)
    else if !IsObject(v.value) then
      Err(Fail("Synonyms table has an invalid type", Details(problemValue := Some(Str(TypeOf(v.value))), info := Some(SynonymsTypeInfo))))
    else
      var m :- SynonymEntries(OwnEntries(v.value).GetOr([]), raw, tapes);
      Ok(Some(m))
  }

  function SynonymEntries(entries: seq<(string, Value)>, raw: Value, tapes: Option<int>): (r: Res<SynonymMap>)
    ensures r.Ok? ==> Keys(r.value) == Keys(entries)
  {
    if |entries| == 0 then Ok([])
    else
      var (key, val) := entries[0];
      match ParseInstruction(None, raw, val, tapes)
      case Err(f) => Err(AnnotateSynonym(f, key))
      case Ok(instr) =>
        var rest :- SynonymEntries(entries[1..], raw, tapes);
        KeysCons((key, instr), rest, entries);
        Ok([(key, instr)] + rest)
  }

  /** `parseTable`: every cell parsed, its errors located at its state and
      symbol key. */
  function ParseTable(synonyms: Option<SynonymMap>, raw: Value, tapes: Option<int>): Res<Table> {
    ParseStates(synonyms, raw, OwnEntries(raw).GetOr([]), tapes)
  }

  function ParseStates(synonyms: Option<SynonymMap>, raw: Value, entries: seq<(string, Value)>, tapes: Option<int>): (r: Res<Table>)
    ensures r.Ok? ==> Keys(r.value) == Keys(entries)
  {
    if |entries| == 0 then Ok([])
    else
      var (state, stateObj) := entries[0];
      var row :- ParseState(synonyms, raw, state, stateObj, tapes);
      var rest :- ParseStates(synonyms, raw, entries[1..], tapes);
      KeysCons((state, row), rest, entries);
      Ok([(state, row)] + rest)
  }

  function ParseState(synonyms: Option<SynonymMap>, raw: Value, state: string, stateObj: Value, tapes: Option<int>): Res<Option<Row>> {
    if stateObj.Null? then Ok(None)
    else if !IsObject(stateObj) then
      Err(Fail("State entry has an invalid type", Details(problemValue := Some(Str(TypeOf(stateObj))), state := Some(state), info := Some(StateTypeInfo))))
    else
      var row :- ParseRow(synonyms, raw, state, OwnEntries(stateObj).GetOr([]), tapes);
      Ok(Some(row))
  }

  function ParseRow(synonyms: Option<SynonymMap>, raw: Value, state: string, cells: seq<(string, Value)>, tapes: Option<int>): (r: Res<Row>)
    ensures r.Ok? ==> Keys(r.value) == Keys(cells)
  {
    if |cells| == 0 then Ok([])
    else
      var (symbol, val) := cells[0];
      match ParseInstruction(synonyms, raw, val, tapes)
      case Err(f) => Err(AnnotateCell(f, state, symbol))
      case Ok(instr) =>
        var rest :- ParseRow(synonyms, raw, state, cells[1..], tapes);
        KeysCons((symbol, instr), rest, cells);
        Ok([(symbol, instr)] + rest)
  }

  // ---------------------------------------------------------------------
  // parseInstruction, makeInstruction, checkTarget

  /** `checkTarget`: a next state must be declared in the raw table. */
  function CheckTarget(raw: Value, instr: Instruction): Res<Instruction> {
    if instr.state.Some? && instr.state.value !in DeclaredKeys(raw) then
      Err(Fail("Undeclared state", Details(problemValue := Some(Str(instr.state.value)), suggestion := Some(UndeclaredSuggestion))))
    else Ok(instr)
  }

  /** `parseInstruction`: by the JavaScript type of the value, then the
      target check. */
  function ParseInstruction(synonyms: Option<SynonymMap>, raw: Value, val: Value, tapes: Option<int>): Res<Instruction> {
    var instr :- TypedInstruction(synonyms, val, tapes);
    CheckTarget(raw, instr)
  }

  /** The type switch of `parseInstruction`, before the target check. */
  function TypedInstruction(synonyms: Option<SynonymMap>, val: Value, tapes: Option<int>): Res<Instruction> {
    match val {
      case Str(s) => StringInstruction(synonyms, s, tapes)
      case Null => if MultiTape(tapes) then Err(Fail("Multitape TM only supports string instructions")) else ObjectInstruction(val)
      case Map(_) => if MultiTape(tapes) then Err(Fail("Multitape TM only supports string instructions")) else ObjectInstruction(val)
      case Seq(_) => if MultiTape(tapes) then Err(Fail("Multitape TM only supports string instructions")) else ObjectInstruction(val)
      case _ => Err(Fail("Invalid instruction type", Details(problemValue := Some(Str(TypeOf(val))), info := Some(InstructionTypeInfo))))
    }
  }

  /** `makeInstruction`: null fields are omitted. */
  function MakeInstruction(symbol: Option<seq<Option<char>>>, move: string, state: Option<Value>): (i: Instruction)
    ensures i.symbol == symbol && i.move == move
    ensures i.state.None? <==> IsNullish(state)
  {
    Instruction(symbol, move, if IsNullish(state) then None else Some(JsString(state.value)))
  }

  // ---------------------------------------------------------------------
  // parseInstructionString

  /** The outcome of `val.match(/^([^\d]\w+)?( |$)/)`: no match, a match
      with the state token, or a match whose group is undefined. */
  datatype StateMatch = NoMatch | Group(token: string) | EmptyGroup

  function WordRun(s: string): (n: nat)
    ensures n <= |s| && forall i :: 0 <= i < n ==> IsWordChar(s[i])
    ensures n < |s| ==> !IsWordChar(s[n])
  {
    if |s| > 0 && IsWordChar(s[0]) then 1 + WordRun(s[1..]) else 0
  }

  function MatchState(val: string): (m: StateMatch)
    ensures m.Group? ==> |m.token| >= 2 && m.token <= val && !IsDigit(m.token[0])
    ensures m.Group? ==> forall i :: 1 <= i < |m.token| ==> IsWordChar(m.token[i])
    ensures m.Group? ==> |m.token| == |val| || val[|m.token|] == ' '
  {
    var fallback := if val == "" || val[0] == ' ' then EmptyGroup else NoMatch;
    if |val| >= 2 && !IsDigit(val[0]) && IsWordChar(val[1]) then
      var k := 1 + WordRun(val[1..]);
      if k == |val| || val[k] == ' ' then Group(val[..k]) else fallback
    else fallback
  }

  /** One clause of a multi-tape instruction, as
      `/^(\d)([RL]?)([^ ]?)( |$)/` matches it; `len` counts the trailing
      space when there is one. */
  datatype Clause = Clause(tape: nat, dir: Option<char>, write: Option<char>, len: nat)

  function ClauseAt(s: string): (c: Option<Clause>)
    ensures c.Some? ==> 1 <= c.value.len <= |s| && c.value.tape < 10
    ensures c.Some? ==> c.value.dir.Some? ==> (c.value.dir.value == 'R' || c.value.dir.value == 'L')
    ensures c.Some? ==> c.value.write.Some? ==> c.value.write.value != ' '
  {
    if |s| == 0 || !IsDigit(s[0]) then None
    else
      var d := DigitValue(s[0]);
      if |s| >= 2 && (s[1] == 'R' || s[1] == 'L') then
        if |s| == 2 then Some(Clause(d, Some(s[1]), None, 2))
        else if s[2] == ' ' then Some(Clause(d, Some(s[1]), None, 3))
        else if |s| == 3 then Some(Clause(d, Some(s[1]), Some(s[2]), 3))
        else if s[3] == ' ' then Some(Clause(d, Some(s[1]), Some(s[2]), 4))
        else None
      else if |s| == 1 then Some(Clause(d, None, None, 1))
      else if s[1] == ' ' then Some(Clause(d, None, None, 2))
      else if |s| == 2 then Some(Clause(d, None, Some(s[1]), 2))
      else if s[2] == ' ' then Some(Clause(d, None, Some(s[1]), 3))
      else None
  }

  /** A direction letter of a multi-tape instruction: `H` stays put. */
  predicate IsDirection(c: char) {
    c == 'H' || c == 'R' || c == 'L'
  }

  /** `'_'` in the write position stands for a blank. */
  function WriteSymbol(c: char): char {
    if c == '_' then ' ' else c
  }

  /** What the clause loop carries from one clause to the next: the text
      still to read, the moves and writes so far, the tapes already set. */
  datatype ClauseState = ClauseState(rest: string, move: string, write: seq<Option<char>>, seen: set<nat>)

  /** One iteration of the clause loop: match a clause at the start of the
      remaining text, check its tape number, record its direction and
      write. */
  function ClauseStep(st: ClauseState, t: nat): (r: Res<ClauseState>)
    requires |st.move| == t && |st.write| == t && st.rest != ""
    ensures r.Ok? ==> |r.value.move| == t && |r.value.write| == t && |r.value.rest| < |st.rest|
    ensures r.Ok? ==> (forall k :: 0 <= k < t ==> IsDirection(st.move[k])) ==> forall k :: 0 <= k < t ==> IsDirection(r.value.move[k])
  {
    match ClauseAt(st.rest)
    case None => Err(Fail("Unrecognized string", Details(problemValue := Some(Str(st.rest)), info := Some(MultiTapeStringInfo))))
    case Some(c) =>
      var next := TrimStart(st.rest[c.len..]);
      if c.tape == 0 then Err(Fail("Tape numbers start from 1", Details(problemValue := Some(Str(next)))))
      else if c.tape > t then
        Err(Fail("Tape number is bigger than the number of tapes", Details(problemValue := Some(Str(next)), info := Some("Your machine has only " + NatToString(t) + " tapes"))))
      else
        var k := c.tape - 1;
        if k in st.seen then Err(Fail("Two instructions for tape \U{2116}" + NatToString(k), Details(problemValue := Some(Str(next)))))
        else
          var move := if c.dir.Some? then st.move[k := c.dir.value] else st.move;
          var write := if c.write.Some? then st.write[k := Some(WriteSymbol(c.write.value))] else st.write;
          Ok(ClauseState(next, move, write, st.seen + {k}))
  }

  /** The clause loop of `parseInstructionString`, run to the end of the
      text or the first error. */
  function Clauses(st: ClauseState, t: nat): (r: Res<(string, seq<Option<char>>)>)
    requires |st.move| == t && |st.write| == t
    ensures r.Ok? ==> |r.value.0| == t && |r.value.1| == t
    ensures r.Ok? && (forall k :: 0 <= k < t ==> IsDirection(st.move[k])) ==> forall k :: 0 <= k < t ==> IsDirection(r.value.0[k])
    decreases |st.rest|
  {
    if st.rest == "" then Ok((st.move, st.write))
    else
      var st' :- ClauseStep(st, t);
      Clauses(st', t)
  }

  function NoWrites(t: nat): (w: seq<Option<char>>)
    ensures |w| == t && forall i :: 0 <= i < t ==> w[i].None?
  {
    seq(t, _ => None)
  }

  /** `parseInstructionString` for a multi-tape machine with `t` tapes. */
  function MultiTapeString(synonyms: Option<SynonymMap>, val: string, t: int): Res<Instruction> {
    if synonyms.Some? && Lookup(synonyms.value, val).Some? then Ok(Lookup(synonyms.value, val).value)
    else
      var m := MatchState(val);
      if t < 0 then Err(Thrown("RangeError"))        // Array(tapes)
      else if m.EmptyGroup? then Err(Thrown("TypeError"))  // state[1].length
      else
        var state := if m.Group? then Some(m.token) else None;
        var rest := if m.Group? then Trim(val[|m.token|..]) else val;
        var mw :- Clauses(ClauseState(rest, Repeat('H', t), NoWrites(t), {}), t);
        Ok(Instruction(Some(mw.1), mw.0, state))
  }

  /** `parseInstructionString` for a single-tape machine: the bare
      directions first, so that no synonym can redefine them. */
  function SingleTapeString(synonyms: Option<SynonymMap>, val: string): Res<Instruction> {
    if val == "L" then Ok(Instruction(None, "L", None))
    else if val == "R" then Ok(Instruction(None, "R", None))
    else if synonyms.Some? && Lookup(synonyms.value, val).Some? then Ok(Lookup(synonyms.value, val).value)
    else Err(Fail("Unrecognized string", Details(problemValue := Some(Str(val)), info := Some(SingleTapeStringInfo))))
  }

  function StringInstruction(synonyms: Option<SynonymMap>, val: string, tapes: Option<int>): Res<Instruction> {
    if MultiTape(tapes) then MultiTapeString(synonyms, val, tapes.value) else SingleTapeString(synonyms, val)
  }

  /** `parseInstructionString`, with its clause loop as the source writes it
      (`ScanClauses`). */
  method ParseInstructionString(synonyms: Option<SynonymMap>, val: string, tapes: Option<int>) returns (r: Res<Instruction>)
    ensures r == StringInstruction(synonyms, val, tapes)
  {
    if !MultiTape(tapes) {
      return SingleTapeString(synonyms, val);
    }
    if synonyms.Some? && Lookup(synonyms.value, val).Some? {
      return Ok(Lookup(synonyms.value, val).value);
    }
    var m := MatchState(val);
    if tapes.value < 0 {
      return Err(Thrown("RangeError"));
    }
    if m.EmptyGroup? {
      return Err(Thrown("TypeError"));
    }
    var state: Option<string> := None;
    var rest := val;
    if m.Group? {
      rest := Trim(val[|m.token|..]);
      state := Some(m.token);
    }
    var mw := ScanClauses(rest, tapes.value);
    if mw.Err? {
      return Err(mw.error);
    }
    return Ok(Instruction(Some(mw.value.1), mw.value.0, state));
  }

  /** The clause loop: one clause per iteration, the moves starting as `H`
      and the writes as absent. */
  method ScanClauses(text: string, t: nat) returns (r: Res<(string, seq<Option<char>>)>)
    ensures r == Clauses(ClauseState(text, Repeat('H', t), NoWrites(t), {}), t)
  {
    var st := ClauseState(text, Repeat('H', t), NoWrites(t), {});
    ghost var goal := Clauses(st, t);
    while st.rest != ""
      invariant |st.move| == t && |st.write| == t
      invariant Clauses(st, t) == goal
      decreases |st.rest|
    {
      var next := ClauseStep(st, t);
      if next.Err? {
        return Err(next.error);
      }
      st := next.value;
    }
    return Ok((st.move, st.write));
  }

  // ---------------------------------------------------------------------
  // parseInstructionObject

  function FirstBadKey(keys: seq<string>): (b: Option<string>)
    ensures b.None? <==> forall i :: 0 <= i < |keys| ==> keys[i] in {"L", "R", "write"}
    ensures b.Some? ==> b.value in keys && b.value !in {"L", "R", "write"}
  {
    if |keys| == 0 then None
    else if keys[0] !in {"L", "R", "write"} then Some(keys[0])
    else
      var b := FirstBadKey(keys[1..]);
      assert forall i :: 1 <= i < |keys| ==> keys[i] == keys[1..][i - 1];
      b
  }

  /** `parseInstructionObject`: `{L: state?}` or `{R: state?}`, with an
      optional `write` of one character. */
  function ObjectInstruction(val: Value): Res<Instruction> {
    if val.Null? then Err(Fail("Missing instruction"))
    else
      var keys := Keys(OwnEntries(val).GetOr([]));
      var bad := FirstBadKey(keys);
      if bad.Some? then Err(Fail("Unrecognized key", Details(problemValue := Some(Str(bad.value)), info := Some(KeyInfo))))
      else if "L" in keys && "R" in keys then Err(Fail("Conflicting tape movements", Details(info := Some(ConflictInfo))))
      else if "L" !in keys && "R" !in keys then Err(Fail("Missing movement direction"))
      else
        var move := if "L" in keys then "L" else "R";
        var target := Prop(val, move);
        if "write" in keys then
          var w := JsStringOf(Prop(val, "write"));
          if |w| != 1 then Err(Fail("Write requires a string of length 1"))
          else Ok(MakeInstruction(Some([Some(w[0])]), move, target))
        else Ok(MakeInstruction(None, move, target))
  }

  // ---------------------------------------------------------------------
  // parseVis

  const ModeValues := ["row", "find"]
  const DirValues := ["->", "<-"]
  const ColorValues := ["green", "blue", "red"]

  /** `JSON.stringify` of a list of plain strings. */
  function JsonList(items: seq<string>): string {
    "[" + Join(seq(|items|, i requires 0 <= i < |items| => "\"" + items[i] + "\""), ",") + "]"
  }

  predicate IsOneOf(v: Option<Value>, allowed: seq<string>) {
    v.Some? && v.value.Str? && v.value.s in allowed
  }

  /** `assert_in`: the value must be one of the allowed strings. */
  function AssertIn(v: Option<Value>, name: string, allowed: seq<string>, state: string, key: string): Res<()> {
    if IsOneOf(v, allowed) then Ok(())
    else Err(Fail(name + " has incorrect value", Details(problemValue := v, state := Some(state), symbol := Some(key), info := Some("Possible values are: " + JsonList(allowed)))))
  }

  /** The per-tape maps `parseVis` starts from: tape count 0 counts as one
      tape, an absent count creates none. */
  function EmptyVis(count: Option<int>): Vis {
    Vis(map[], map[], map[], if count.Some? && count.value > 0 then seq(count.value, _ => map[]) else [])
  }

  function VisCount(tapes: Option<int>): Option<int> {
    if tapes == Some(0) then Some(1) else tapes
  }

  /** `parseVis(vis, table, tapes)`. */
  function BuildVis(vis: Option<Value>, table: Table, tapes: Option<int>): Res<Vis> {
    var count := VisCount(tapes);
    if !TruthyOpt(vis) then Ok(EmptyVis(count))
    else VisStates(OwnEntries(vis.value).GetOr([]), table, count, EmptyVis(count))
  }

  function VisStates(entries: seq<(string, Value)>, table: Table, count: Option<int>, acc: Vis): Res<Vis>
    decreases |entries|
  {
    if |entries| == 0 then Ok(acc)
    else
      var acc' :- VisState(entries[0].0, entries[0].1, table, count, acc);
      VisStates(entries[1..], table, count, acc')
  }

  function VisState(state: string, rules: Value, table: Table, count: Option<int>, acc: Vis): Res<Vis> {
    if state !in Keys(table) then Err(Fail("Visualization state must be on the state table", Details(problemValue := Some(Str(state)))))
    else if rules.Null? then Err(Thrown("TypeError"))  // Object.entries(null)
    else VisRules(state, OwnEntries(rules).GetOr([]), count, acc)
  }

  function VisRules(state: string, rules: seq<(string, Value)>, count: Option<int>, acc: Vis): Res<Vis>
    decreases |rules|
  {
    if |rules| == 0 then Ok(acc)
    else
      var acc' :- VisRule(state, rules[0].0, rules[0].1, count, acc);
      VisRules(state, rules[1..], count, acc')
  }

  function VisRule(state: string, key: string, rule: Value, count: Option<int>, acc: Vis): Res<Vis> {
    if key == "title" then Ok(acc.(titles := acc.titles[state := rule]))
    else if key == "info" then Ok(acc.(info := acc.info[state := rule]))
    else if key == "color" then Ok(acc.(colors := acc.colors[state := JsString(rule)]))
    else VisTapes(state, key, rule, Split(key, ','), count, acc)
  }

  /** The checks of one highlighting rule, in the source's order. */
  function CheckRule(state: string, key: string, rule: Value): Res<()> {
    if rule.Null? then Err(Thrown("TypeError"))  // rule.skip on null
    else
      var skip := Prop(rule, "skip");
      if TruthyOpt(skip) && !skip.value.Int? then Err(Fail("\"skip\" must be an integer", Details(problemValue := skip, state := Some(state))))
      else
        var _ :- AssertIn(Prop(rule, "mode"), "mode", ModeValues, state, key);
        var _ :- AssertIn(Prop(rule, "dir"), "dir", DirValues, state, key);
        AssertIn(Prop(rule, "color"), "color", ColorValues, state, key)
  }

  /** `rule.chars = String(rule.chars)`. */
  function WithCharsString(rule: Value): Value {
    SetProp(rule, "chars", Str(JsStringOf(Prop(rule, "chars"))))
  }

  /** One tape number of a rule: the checks in the source's order, then
      the rule (with `chars` made a string) stored for that tape. */
  function VisTape(state: string, key: string, rule: Value, piece: string, count: Option<int>, acc: Vis): Res<(Value, Vis)> {
    var n := ParseInt(piece);
    if n.None? then Err(Fail("Visualization table requires comma-separated tape numbers", Details(problemValue := Some(Str(key)), state := Some(state))))
    else
      var tape := n.value - 1;
      if tape < 0 then Err(Fail("Tape numbers start from 1", Details(problemValue := Some(Str(key)), state := Some(state))))
      else if count.Some? && tape >= count.value then
        Err(Fail("Tape number is bigger than the number of tapes", Details(problemValue := Some(Str(key)), info := Some("Your machine has only " + key + " tapes"))))
      else
        var _ :- CheckRule(state, key, rule);
        var rule' := WithCharsString(rule);
        if tape >= |acc.tapes| then Err(Thrown("TypeError"))  // res[tape] is undefined
        else Ok((rule', acc.(tapes := acc.tapes[tape := acc.tapes[tape][state := rule']])))
  }

  /** The loop over the comma-separated tape numbers of one rule. */
  function VisTapes(state: string, key: string, rule: Value, pieces: seq<string>, count: Option<int>, acc: Vis): Res<Vis>
    decreases |pieces|
  {
    if |pieces| == 0 then Ok(acc)
    else
      var step :- VisTape(state, key, rule, pieces[0], count, acc);
      VisTapes(state, key, step.0, pieces[1..], count, step.1)
  }


  /** `parseVis`, with the outer loop of the source over the states; the
      inner loops are `ParseVisRules` and `ParseVisTapes`. */
  method ParseVis(vis: Option<Value>, table: Table, tapes: Option<int>) returns (r: Res<Vis>)
    ensures r == BuildVis(vis, table, tapes)
  {
    var count := VisCount(tapes);
    var res := EmptyVis(count);
    if !TruthyOpt(vis) {
      return Ok(res);
    }
    var entries := OwnEntries(vis.value).GetOr([]);
    ghost var goal := VisStates(entries, table, count, res);
    var i := 0;
    while i < |entries|
      invariant 0 <= i <= |entries|
      invariant VisStates(entries[i..], table, count, res) == goal
    {
      assert entries[i..][1..] == entries[i + 1..];
      var (state, rules) := entries[i];
      if state !in Keys(table) {
        return Err(Fail("Visualization state must be on the state table", Details(problemValue := Some(Str(state)))));
      }
      if rules.Null? {
        return Err(Thrown("TypeError"));
      }
      var next := ParseVisRules(state, OwnEntries(rules).GetOr([]), count, res);
      if next.Err? {
        return next;
      }
      res := next.value;
      i := i + 1;
    }
    return Ok(res);
  }

  /** The loop over the rules of one state. */
  method ParseVisRules(state: string, rules: seq<(string, Value)>, count: Option<int>, acc: Vis) returns (r: Res<Vis>)
    ensures r == VisRules(state, rules, count, acc)
  {
    var res := acc;
    var j := 0;
    while j < |rules|
      invariant 0 <= j <= |rules|
      invariant VisRules(state, rules[j..], count, res) == VisRules(state, rules, count, acc)
    {
      assert rules[j..][1..] == rules[j + 1..];
      var (key, rule) := rules[j];
      if key == "title" {
        res := res.(titles := res.titles[state := rule]);
      } else if key == "info" {
        res := res.(info := res.info[state := rule]);
      } else if key == "color" {
        res := res.(colors := res.colors[state := JsString(rule)]);
      } else {
        var next := ParseVisTapes(state, key, rule, count, res);
        if next.Err? {
          return next;
        }
        res := next.value;
      }
      j := j + 1;
    }
    return Ok(res);
  }

  /** The loop over the comma-separated tape numbers of one rule. */
  method ParseVisTapes(state: string, key: string, rule: Value, count: Option<int>, acc: Vis) returns (r: Res<Vis>)
    ensures r == VisTapes(state, key, rule, Split(key, ','), count, acc)
  {
    var pieces := Split(key, ',');
    var res := acc;
    var current := rule;
    var k := 0;
    while k < |pieces|
      invariant 0 <= k <= |pieces|
      invariant VisTapes(state, key, current, pieces[k..], count, res) == VisTapes(state, key, rule, pieces, count, acc)
    {
      assert pieces[k..][1..] == pieces[k + 1..];
      var step := VisTape(state, key, current, pieces[k], count, res);
      if step.Err? {
        return Err(step.error);
      }
      current, res := step.value.0, step.value.1;
      k := k + 1;
    }
    return Ok(res);
  }
}

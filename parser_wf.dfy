/** What an accepted specification looks like: every instruction has the
    shape its machine needs and names a declared state, the start state is
    declared, the halting states are the null entries, and every
    visualisation rule is complete. Also the rules by which errors are
    located, and the membership test as the source writes it. */
module ParserWellFormed {
  import opened Wrappers
  import opened Text
  import opened Values
  import opened Errors
  import opened Parser

  // ---------------------------------------------------------------------
  // The shape of instructions

  /** A multi-tape instruction has one direction and one optional write per
      tape; a single-tape instruction moves `L` or `R` and writes at most
      one symbol. */
  predicate Shaped(i: Instruction, tapes: Option<int>) {
    if MultiTape(tapes) then
      && 1 <= tapes.value
      && |i.move| == tapes.value && i.symbol.Some? && |i.symbol.value| == tapes.value
      && forall k :: 0 <= k < |i.move| ==> IsDirection(i.move[k])
    else
      && (i.move == "L" || i.move == "R")
      && (i.symbol.None? || (|i.symbol.value| == 1 && i.symbol.value[0].Some?))
  }

  /** The next state, if any, is among `keys`. */
  predicate Declared(i: Instruction, keys: seq<string>) {
    i.state.Some? ==> i.state.value in keys
  }

  predicate SynonymsShaped(syn: Option<SynonymMap>, tapes: Option<int>) {
    syn.Some? ==> forall j :: 0 <= j < |syn.value| ==> Shaped(syn.value[j].1, tapes)
  }

  predicate RowOk(row: Row, tapes: Option<int>, keys: seq<string>) {
    forall j :: 0 <= j < |row| ==> Shaped(row[j].1, tapes) && Declared(row[j].1, keys)
  }

  predicate TableOk(table: Table, tapes: Option<int>, keys: seq<string>) {
    forall j :: 0 <= j < |table| && table[j].1.Some? ==> RowOk(table[j].1.value, tapes, keys)
  }

  lemma MultiTapeShaped(syn: Option<SynonymMap>, val: string, t: int)
    requires t != 0 && SynonymsShaped(syn, Some(t))
    ensures var r := MultiTapeString(syn, val, t); r.Ok? ==> Shaped(r.value, Some(t))
  {
    if syn.Some? && Lookup(syn.value, val).Some? {
      var j :| 0 <= j < |syn.value| && syn.value[j] == (val, Lookup(syn.value, val).value);
    } else if t > 0 {
      var h := Repeat('H', t);
      assert forall k :: 0 <= k < t ==> IsDirection(h[k]);
    }
  }

  lemma SingleTapeShaped(syn: Option<SynonymMap>, val: string, tapes: Option<int>)
    requires !MultiTape(tapes) && SynonymsShaped(syn, tapes)
    ensures var r := SingleTapeString(syn, val); r.Ok? ==> Shaped(r.value, tapes)
  {
    if val != "L" && val != "R" && syn.Some? && Lookup(syn.value, val).Some? {
      var j :| 0 <= j < |syn.value| && syn.value[j] == (val, Lookup(syn.value, val).value);
    }
  }

  /** Every instruction the parser accepts has its machine's shape and a
      declared target. */
  lemma InstructionFacts(syn: Option<SynonymMap>, raw: Value, val: Value, tapes: Option<int>)
    requires SynonymsShaped(syn, tapes)
    ensures var r := ParseInstruction(syn, raw, val, tapes);
      r.Ok? ==> Shaped(r.value, tapes) && Declared(r.value, DeclaredKeys(raw))
  {
    var typed := TypedInstruction(syn, val, tapes);
    if typed.Ok? {
      TypedShaped(syn, val, tapes);
      CheckTargetDeclared(raw, typed.value);
    }
  }

  lemma TypedShaped(syn: Option<SynonymMap>, val: Value, tapes: Option<int>)
    requires SynonymsShaped(syn, tapes)
    ensures var r := TypedInstruction(syn, val, tapes); r.Ok? ==> Shaped(r.value, tapes)
  {
    if val.Str? {
      StringShaped(syn, val.s, tapes);
    } else if !MultiTape(tapes) {
      ObjectShaped(val, tapes);
    }
  }

  lemma StringShaped(syn: Option<SynonymMap>, val: string, tapes: Option<int>)
    requires SynonymsShaped(syn, tapes)
    ensures var r := StringInstruction(syn, val, tapes); r.Ok? ==> Shaped(r.value, tapes)
  {
    if MultiTape(tapes) { MultiTapeShaped(syn, val, tapes.value); }
    else { SingleTapeShaped(syn, val, tapes); }
  }

  lemma ObjectShaped(val: Value, tapes: Option<int>)
    requires !MultiTape(tapes)
    ensures var r := ObjectInstruction(val); r.Ok? ==> Shaped(r.value, tapes)
  {
  }

  lemma CheckTargetDeclared(raw: Value, instr: Instruction)
    ensures var r := CheckTarget(raw, instr); r.Ok? ==> r.value == instr && Declared(instr, DeclaredKeys(raw))
  {
  }

  lemma RowCons(x: (string, Instruction), rest: Row, tapes: Option<int>, keys: seq<string>)
    requires Shaped(x.1, tapes) && Declared(x.1, keys) && RowOk(rest, tapes, keys)
    ensures RowOk([x] + rest, tapes, keys)
  {
    assert forall j :: 1 <= j < |[x] + rest| ==> ([x] + rest)[j] == rest[j - 1];
  }

  /** The first entry's instruction, when the whole list is accepted. */
  lemma SynonymEntriesCons(entries: seq<(string, Value)>, raw: Value, tapes: Option<int>)
    requires |entries| > 0 && SynonymEntries(entries, raw, tapes).Ok?
    ensures var i := ParseInstruction(None, raw, entries[0].1, tapes); var rest := SynonymEntries(entries[1..], raw, tapes);
      && i.Ok? && rest.Ok?
      && SynonymEntries(entries, raw, tapes).value == [(entries[0].0, i.value)] + rest.value
  {
  }

  lemma {:induction false} SynonymEntriesFacts(entries: seq<(string, Value)>, raw: Value, tapes: Option<int>)
    ensures var r := SynonymEntries(entries, raw, tapes); r.Ok? ==> RowOk(r.value, tapes, DeclaredKeys(raw))
  {
    if |entries| > 0 && SynonymEntries(entries, raw, tapes).Ok? {
      SynonymEntriesCons(entries, raw, tapes);
      InstructionFacts(None, raw, entries[0].1, tapes);
      SynonymEntriesFacts(entries[1..], raw, tapes);
      RowCons((entries[0].0, ParseInstruction(None, raw, entries[0].1, tapes).value), SynonymEntries(entries[1..], raw, tapes).value, tapes, DeclaredKeys(raw));
    }
  }

  lemma SynonymsFacts(v: Option<Value>, raw: Value, tapes: Option<int>)
    ensures var r := ParseSynonyms(v, raw, tapes);
      r.Ok? && r.value.Some? ==> RowOk(r.value.value, tapes, DeclaredKeys(raw))
  {
    if !IsNullish(v) && IsObject(v.value) {
      SynonymEntriesFacts(OwnEntries(v.value).GetOr([]), raw, tapes);
    }
  }

  lemma ParseRowCons(syn: Option<SynonymMap>, raw: Value, state: string, cells: seq<(string, Value)>, tapes: Option<int>)
    requires |cells| > 0 && ParseRow(syn, raw, state, cells, tapes).Ok?
    ensures var i := ParseInstruction(syn, raw, cells[0].1, tapes); var rest := ParseRow(syn, raw, state, cells[1..], tapes);
      && i.Ok? && rest.Ok?
      && ParseRow(syn, raw, state, cells, tapes).value == [(cells[0].0, i.value)] + rest.value
  {
  }

  lemma {:induction false} RowFacts(syn: Option<SynonymMap>, raw: Value, state: string, cells: seq<(string, Value)>, tapes: Option<int>)
    requires SynonymsShaped(syn, tapes)
    ensures var r := ParseRow(syn, raw, state, cells, tapes); r.Ok? ==> RowOk(r.value, tapes, DeclaredKeys(raw))
  {
    if |cells| > 0 && ParseRow(syn, raw, state, cells, tapes).Ok? {
      ParseRowCons(syn, raw, state, cells, tapes);
      InstructionFacts(syn, raw, cells[0].1, tapes);
      RowFacts(syn, raw, state, cells[1..], tapes);
      RowCons((cells[0].0, ParseInstruction(syn, raw, cells[0].1, tapes).value), ParseRow(syn, raw, state, cells[1..], tapes).value, tapes, DeclaredKeys(raw));
    }
  }

  /** One state's row: well-formed, and absent exactly for a null entry. */
  lemma StateFacts(syn: Option<SynonymMap>, raw: Value, state: string, obj: Value, tapes: Option<int>)
    requires SynonymsShaped(syn, tapes)
    ensures var r := ParseState(syn, raw, state, obj, tapes);
      r.Ok? ==> (r.value.None? <==> obj.Null?) && (r.value.Some? ==> RowOk(r.value.value, tapes, DeclaredKeys(raw)))
  {
    if !obj.Null? && IsObject(obj) {
      RowFacts(syn, raw, state, OwnEntries(obj).GetOr([]), tapes);
    }
  }

  /** What `StatesFacts` states about a table. */
  predicate StatesOk(table: Table, entries: seq<(string, Value)>, tapes: Option<int>, keys: seq<string>) {
    && TableOk(table, tapes, keys)
    && |table| == |entries|
    && forall j :: 0 <= j < |entries| ==> (table[j].1.None? <==> entries[j].1.Null?)
  }

  lemma StatesCons(x: (string, Option<Row>), rest: Table, entries: seq<(string, Value)>, tapes: Option<int>, keys: seq<string>)
    requires |entries| > 0 && StatesOk(rest, entries[1..], tapes, keys)
    requires (x.1.None? <==> entries[0].1.Null?) && (x.1.Some? ==> RowOk(x.1.value, tapes, keys))
    ensures StatesOk([x] + rest, entries, tapes, keys)
  {
    var t := [x] + rest;
    assert forall j :: 1 <= j < |t| ==> t[j] == rest[j - 1] && entries[j] == entries[1..][j - 1];
  }

  lemma ParseStatesCons(syn: Option<SynonymMap>, raw: Value, entries: seq<(string, Value)>, tapes: Option<int>)
    requires |entries| > 0 && ParseStates(syn, raw, entries, tapes).Ok?
    ensures var row := ParseState(syn, raw, entries[0].0, entries[0].1, tapes); var rest := ParseStates(syn, raw, entries[1..], tapes);
      && row.Ok? && rest.Ok?
      && ParseStates(syn, raw, entries, tapes).value == [(entries[0].0, row.value)] + rest.value
  {
  }

  /** The rows are well-formed, and a state has no row (halts) exactly when
      its entry in the document is null. */
  lemma {:induction false} StatesFacts(syn: Option<SynonymMap>, raw: Value, entries: seq<(string, Value)>, tapes: Option<int>)
    requires SynonymsShaped(syn, tapes)
    ensures var r := ParseStates(syn, raw, entries, tapes); r.Ok? ==> StatesOk(r.value, entries, tapes, DeclaredKeys(raw))
  {
    if |entries| > 0 && ParseStates(syn, raw, entries, tapes).Ok? {
      ParseStatesCons(syn, raw, entries, tapes);
      StateFacts(syn, raw, entries[0].0, entries[0].1, tapes);
      StatesFacts(syn, raw, entries[1..], tapes);
      StatesCons((entries[0].0, ParseState(syn, raw, entries[0].0, entries[0].1, tapes).value),
                 ParseStates(syn, raw, entries[1..], tapes).value, entries, tapes, DeclaredKeys(raw));
    }
  }

  // ---------------------------------------------------------------------
  // The visualisation table

  /** A highlighting rule as stored: a mapping whose mode, direction and
      colour are among the allowed values, and whose `chars` is a string. */
  predicate RuleOk(v: Value) {
    && v.Map?
    && IsOneOf(Prop(v, "mode"), ModeValues)
    && IsOneOf(Prop(v, "dir"), DirValues)
    && IsOneOf(Prop(v, "color"), ColorValues)
    && Prop(v, "chars").Some? && Prop(v, "chars").value.Str?
  }

  /** Every state the visualisation mentions is in `keys`, there are `n`
      per-tape maps, and every stored rule is complete. */
  predicate VisOk(vis: Vis, keys: seq<string>, n: nat) {
    && |vis.tapes| == n
    && (forall s :: s in vis.titles ==> s in keys)
    && (forall s :: s in vis.info ==> s in keys)
    && (forall s :: s in vis.colors ==> s in keys)
    && (forall k, s :: 0 <= k < n && s in vis.tapes[k] ==> s in keys && RuleOk(vis.tapes[k][s]))
  }

  lemma CheckRuleOk(state: string, key: string, rule: Value)
    ensures CheckRule(state, key, rule).Ok? ==> RuleOk(WithCharsString(rule))
  {
    if CheckRule(state, key, rule).Ok? {
      assert rule.Map?;
      var r := WithCharsString(rule);
      assert Prop(r, "mode") == Prop(rule, "mode");
      assert Prop(r, "dir") == Prop(rule, "dir");
      assert Prop(r, "color") == Prop(rule, "color");
    }
  }

  /** Storing a complete rule for a declared state keeps the table valid. */
  lemma VisOkStore(acc: Vis, keys: seq<string>, n: nat, tape: int, state: string, rule: Value)
    requires VisOk(acc, keys, n) && 0 <= tape < |acc.tapes| && state in keys && RuleOk(rule)
    ensures VisOk(acc.(tapes := acc.tapes[tape := acc.tapes[tape][state := rule]]), keys, n)
  {
  }

  lemma VisTapeOk(state: string, key: string, rule: Value, piece: string, count: Option<int>, acc: Vis, keys: seq<string>, n: nat)
    requires VisOk(acc, keys, n) && state in keys
    ensures var r := VisTape(state, key, rule, piece, count, acc); r.Ok? ==> VisOk(r.value.1, keys, n)
  {
    var r := VisTape(state, key, rule, piece, count, acc);
    if r.Ok? {
      var tape := ParseInt(piece).value - 1;
      assert CheckRule(state, key, rule).Ok?;
      CheckRuleOk(state, key, rule);
      assert 0 <= tape < |acc.tapes|;
      assert r.value.1 == acc.(tapes := acc.tapes[tape := acc.tapes[tape][state := WithCharsString(rule)]]);
      VisOkStore(acc, keys, n, tape, state, WithCharsString(rule));
    }
  }

  lemma {:induction false} VisTapesOk(state: string, key: string, rule: Value, pieces: seq<string>, count: Option<int>, acc: Vis, keys: seq<string>, n: nat)
    requires VisOk(acc, keys, n) && state in keys
    ensures var r := VisTapes(state, key, rule, pieces, count, acc); r.Ok? ==> VisOk(r.value, keys, n)
    decreases |pieces|
  {
    if |pieces| > 0 {
      VisTapeOk(state, key, rule, pieces[0], count, acc, keys, n);
      var step := VisTape(state, key, rule, pieces[0], count, acc);
      if step.Ok? {
        VisTapesOk(state, key, step.value.0, pieces[1..], count, step.value.1, keys, n);
      }
    }
  }

  lemma VisRuleOk(state: string, key: string, rule: Value, count: Option<int>, acc: Vis, keys: seq<string>, n: nat)
    requires VisOk(acc, keys, n) && state in keys
    ensures var r := VisRule(state, key, rule, count, acc); r.Ok? ==> VisOk(r.value, keys, n)
  {
    if key != "title" && key != "info" && key != "color" {
      VisTapesOk(state, key, rule, Split(key, ','), count, acc, keys, n);
    }
  }

  lemma {:induction false} VisRulesOk(state: string, rules: seq<(string, Value)>, count: Option<int>, acc: Vis, keys: seq<string>, n: nat)
    requires VisOk(acc, keys, n) && state in keys
    ensures var r := VisRules(state, rules, count, acc); r.Ok? ==> VisOk(r.value, keys, n)
    decreases |rules|
  {
    if |rules| > 0 {
      var (key, rule) := rules[0];
      VisRuleOk(state, key, rule, count, acc, keys, n);
      var step := VisRule(state, key, rule, count, acc);
      if step.Ok? {
        VisRulesOk(state, rules[1..], count, step.value, keys, n);
      }
    }
  }

  lemma {:induction false} VisStatesOk(entries: seq<(string, Value)>, table: Table, count: Option<int>, acc: Vis, n: nat)
    requires VisOk(acc, Keys(table), n)
    ensures var r := VisStates(entries, table, count, acc); r.Ok? ==> VisOk(r.value, Keys(table), n)
    decreases |entries|
  {
    if |entries| > 0 {
      var (state, rules) := entries[0];
      if state in Keys(table) && !rules.Null? {
        VisRulesOk(state, OwnEntries(rules).GetOr([]), count, acc, Keys(table), n);
        var step := VisState(state, rules, table, count, acc);
        if step.Ok? {
          VisStatesOk(entries[1..], table, count, step.value, n);
        }
      }
    }
  }

  /** The number of per-tape maps: one for a single-tape machine, the tape
      count for a multi-tape machine, none when the count is absent or
      negative. */
  function VisTapeCount(tapes: Option<int>): (n: nat)
    ensures tapes == Some(0) ==> n == 1
    ensures tapes.Some? && tapes.value > 0 ==> n == tapes.value
    ensures (tapes.None? || tapes.value < 0) ==> n == 0
  {
    |EmptyVis(VisCount(tapes)).tapes|
  }

  lemma BuildVisOk(vis: Option<Value>, table: Table, tapes: Option<int>)
    ensures var r := BuildVis(vis, table, tapes); r.Ok? ==> VisOk(r.value, Keys(table), VisTapeCount(tapes))
  {
    var count := VisCount(tapes);
    if TruthyOpt(vis) {
      VisStatesOk(OwnEntries(vis.value).GetOr([]), table, count, EmptyVis(count), VisTapeCount(tapes));
    }
  }

  // ---------------------------------------------------------------------
  // An accepted specification

  /** The stages of `parseSpec` on a document it accepts. */
  lemma ParseSpecStages(doc: Value, allowTapes: bool)
    requires ParseSpec(doc, allowTapes).Ok?
    ensures var h := ParseHeader(Prop(doc, "blank"), Prop(doc, "tapes"), Prop(doc, "start state"), allowTapes);
      && h.Ok? && Prop(doc, "table").Some? && CheckTableType(Prop(doc, "table")) == Ok(Prop(doc, "table").value)
      && var raw := Prop(doc, "table").value;
         var syn := ParseSynonyms(Prop(doc, "synonyms"), raw, h.value.tapes);
         && syn.Ok?
         && var table := ParseTable(syn.value, raw, h.value.tapes);
            && table.Ok?
            && var vis := BuildVis(Prop(doc, "vis"), table.value, h.value.tapes);
               && vis.Ok?
               && h.value.startState in Keys(table.value)
               && ParseSpec(doc, allowTapes).value == Spec(h.value.blank, h.value.tapes, h.value.startState, table.value, vis.value, Prop(doc, "input"))
  {
  }

  lemma HeaderFacts(blank: Option<Value>, tapes: Option<Value>, start: Option<Value>, allowTapes: bool)
    requires ParseHeader(blank, tapes, start, allowTapes).Ok?
    ensures var h := ParseHeader(blank, tapes, start, allowTapes).value;
      && (h.tapes.None? || h.tapes.value <= 9)
      && (!allowTapes ==> h.tapes == Some(0))
      && !IsNullish(blank) && [h.blank] == JsString(blank.value)
      && !IsNullish(start) && h.startState == JsString(start.value)
  {
  }

  lemma RowOkShaped(syn: Option<SynonymMap>, tapes: Option<int>, keys: seq<string>)
    requires syn.Some? ==> RowOk(syn.value, tapes, keys)
    ensures SynonymsShaped(syn, tapes)
  {
  }

  /** Everything `parseSpec` guarantees about a specification `s` it
      returns for `doc`: the start state is declared, the table has the
      document's states in order, every instruction is shaped for the
      machine and names a declared state, exactly the null entries halt,
      the tape count is in range, the visualisation is complete, and the
      header fields are the document's. */
  predicate SpecOk(s: Spec, doc: Value, allowTapes: bool) {
    && s.startState in Keys(s.table)
    && Prop(doc, "table").Some?
    && OwnEntries(Prop(doc, "table").value).Some?
    && Keys(s.table) == Keys(OwnEntries(Prop(doc, "table").value).value)
    && StatesOk(s.table, OwnEntries(Prop(doc, "table").value).value, s.tapes, Keys(s.table))
    && (s.tapes.None? || s.tapes.value <= 9)
    && (!allowTapes ==> s.tapes == Some(0))
    && VisOk(s.vis, Keys(s.table), VisTapeCount(s.tapes))
    && !IsNullish(Prop(doc, "blank")) && [s.blank] == JsString(Prop(doc, "blank").value)
    && !IsNullish(Prop(doc, "start state")) && s.startState == JsString(Prop(doc, "start state").value)
    && s.input == Prop(doc, "input")
  }

  lemma ParsedSpecWellFormed(doc: Value, allowTapes: bool)
    ensures var r := ParseSpec(doc, allowTapes); r.Ok? ==> SpecOk(r.value, doc, allowTapes)
  {
    if ParseSpec(doc, allowTapes).Ok? {
      ParseSpecStages(doc, allowTapes);
      HeaderFacts(Prop(doc, "blank"), Prop(doc, "tapes"), Prop(doc, "start state"), allowTapes);
      var h := ParseHeader(Prop(doc, "blank"), Prop(doc, "tapes"), Prop(doc, "start state"), allowTapes).value;
      var raw := Prop(doc, "table").value;
      SynonymsFacts(Prop(doc, "synonyms"), raw, h.tapes);
      var syn := ParseSynonyms(Prop(doc, "synonyms"), raw, h.tapes).value;
      RowOkShaped(syn, h.tapes, DeclaredKeys(raw));
      StatesFacts(syn, raw, OwnEntries(raw).GetOr([]), h.tapes);
      var table := ParseTable(syn, raw, h.tapes).value;
      BuildVisOk(Prop(doc, "vis"), table, h.tapes);
    }
  }

  // ---------------------------------------------------------------------
  // The header fields

  /** Without multi-tape support the tape count must be absent or 1, and
      becomes 0; with it, any integer up to 9 is kept and an absent count
      stays absent. */
  lemma TapesMeaning(v: Option<Value>, allowTapes: bool)
    ensures var r := ParseTapes(v, allowTapes);
      && (!allowTapes ==> (r.Ok? <==> v.None? || v.value == Int(1)) && (r.Ok? ==> r.value == Some(0)))
      && (allowTapes ==> (r.Ok? <==> v.None? || (v.value.Int? && v.value.i <= 9)))
      && (allowTapes && r.Ok? ==> r.value == if v.None? then None else Some(v.value.i))
  {
  }

  /** The blank symbol is any value whose `String()` form is one character. */
  lemma BlankMeaning(v: Option<Value>)
    ensures var r := ParseBlank(v);
      && (r.Ok? <==> !IsNullish(v) && |JsString(v.value)| == 1)
      && (r.Ok? ==> [r.value] == JsString(v.value))
  {
  }

  /** The reasons for a rejected tape count: a non-integer or a count
      above 9 when multi-tape machines are allowed, anything but an absent
      count or 1 when they are not. */
  lemma TapesReasons(v: Option<Value>, allowTapes: bool)
    ensures allowTapes && v.Some? && !v.value.Int? ==>
      ParseTapes(v, allowTapes) == Err(Fail("The number of tapes must be an integer", Details(problemValue := Some(Str(TypeOf(v.value))))))
    ensures allowTapes && v.Some? && v.value.Int? && v.value.i > 9 ==>
      ParseTapes(v, allowTapes) == Err(Fail("Why would you need more than 9 tapes?"))
    ensures !allowTapes && v.Some? && v.value != Int(1) ==>
      ParseTapes(v, allowTapes) == Err(Fail("This Turing machine has only 1 tape"))
  {
  }

  /** The header fields are checked in the order blank, tape count, start
      state, and the first failing one gives the error. */
  lemma HeaderErrorOrder(blank: Option<Value>, tapes: Option<Value>, start: Option<Value>, allowTapes: bool)
    ensures ParseBlank(blank).Err? ==> ParseHeader(blank, tapes, start, allowTapes) == Err(ParseBlank(blank).error)
    ensures ParseBlank(blank).Ok? && ParseTapes(tapes, allowTapes).Err? ==>
      ParseHeader(blank, tapes, start, allowTapes) == Err(ParseTapes(tapes, allowTapes).error)
    ensures ParseBlank(blank).Ok? && ParseTapes(tapes, allowTapes).Ok? && ParseStartState(start).Err? ==>
      ParseHeader(blank, tapes, start, allowTapes) == Err(ParseStartState(start).error)
    ensures ParseHeader(blank, tapes, start, allowTapes).Ok? <==>
      ParseBlank(blank).Ok? && ParseTapes(tapes, allowTapes).Ok? && ParseStartState(start).Ok?
  {
  }

  /** An empty document is rejected first; otherwise a header error wins
      over anything the table, the synonyms or the visualisation would
      report. */
  lemma HeaderErrorsFirst(doc: Value, allowTapes: bool)
    ensures doc.Null? ==> ParseSpec(doc, allowTapes) == Err(Fail("The document is empty", Details(info := Some(EmptyDocumentInfo))))
    ensures var h := ParseHeader(Prop(doc, "blank"), Prop(doc, "tapes"), Prop(doc, "start state"), allowTapes);
      !doc.Null? && h.Err? ==> ParseSpec(doc, allowTapes) == Err(h.error)
  {
  }

  // ---------------------------------------------------------------------
  // Instructions

  /** A mapping instruction is accepted exactly when its keys are among
      `L`, `R` and `write`, it has exactly one of `L` and `R`, and a
      `write` is one character; the key present is the move, its value the
      next state. */
  lemma ObjectInstructionMeaning(val: Value)
    ensures var keys := Keys(OwnEntries(val).GetOr([])); var r := ObjectInstruction(val);
      && (r.Ok? <==>
           && !val.Null?
           && (forall j :: 0 <= j < |keys| ==> keys[j] in {"L", "R", "write"})
           && (("L" in keys) != ("R" in keys))
           && ("write" in keys ==> |JsStringOf(Prop(val, "write"))| == 1))
      && (r.Ok? ==>
           && r.value.move == (if "L" in keys then "L" else "R")
           && (r.value.symbol.Some? <==> "write" in keys)
           && (r.value.symbol.Some? ==> r.value.symbol.value == [Some(JsStringOf(Prop(val, "write"))[0])])
           && (r.value.state.None? <==> IsNullish(Prop(val, r.value.move)))
           && (r.value.state.Some? ==> r.value.state.value == JsString(Prop(val, r.value.move).value)))
  {
  }

  /** On a single-tape machine `L` and `R` always mean the bare moves, even
      when a synonym of that name is defined. */
  lemma DirectionsNotRedefinable(syn: Option<SynonymMap>, d: string, tapes: Option<int>)
    requires d == "L" || d == "R"
    requires !MultiTape(tapes)
    ensures StringInstruction(syn, d, tapes) == Ok(Instruction(None, d, None))
  {
  }

  /** A synonym cannot be defined by another synonym: on a single-tape
      machine a synonym whose value is a string other than `L` or `R` is
      rejected, with the note that says so. */
  lemma SynonymOfSynonym(k: string, s: string, rest: seq<(string, Value)>, raw: Value, tapes: Option<int>)
    requires !MultiTape(tapes) && s != "L" && s != "R"
    ensures SynonymEntries([(k, Str(s))] + rest, raw, tapes)
      == Err(Fail("Unrecognized string", Details(problemValue := Some(Str(s)), synonym := Some(k), info := Some(SynonymNote))))
  {
  }

  // ---------------------------------------------------------------------
  // Where errors are reported

  /** An error in a cell names the cell's state and symbol. */
  lemma {:induction false} RowErrorLocated(syn: Option<SynonymMap>, raw: Value, state: string, cells: seq<(string, Value)>, tapes: Option<int>)
    ensures var r := ParseRow(syn, raw, state, cells, tapes);
      r.Err? && r.error.Invalid? ==>
        r.error.error.details.state == Some(state)
        && r.error.error.details.symbol.Some? && r.error.error.details.symbol.value in Keys(cells)
  {
    if |cells| > 0 {
      assert Keys(cells) == [cells[0].0] + Keys(cells[1..]);
      RowErrorLocated(syn, raw, state, cells[1..], tapes);
    }
  }

  /** An error in a synonym names the synonym, and an unrecognised string
      there carries the note that synonyms cannot use synonyms. */
  lemma {:induction false} SynonymErrorLocated(entries: seq<(string, Value)>, raw: Value, tapes: Option<int>)
    ensures var r := SynonymEntries(entries, raw, tapes);
      r.Err? && r.error.Invalid? ==>
        && r.error.error.details.synonym.Some? && r.error.error.details.synonym.value in Keys(entries)
        && (r.error.error.reason == "Unrecognized string" ==> r.error.error.details.info == Some(SynonymNote))
  {
    if |entries| > 0 {
      assert Keys(entries) == [entries[0].0] + Keys(entries[1..]);
      SynonymErrorLocated(entries[1..], raw, tapes);
    }
  }

  // ---------------------------------------------------------------------
  // Membership as written: `k in obj` also sees inherited properties

  /** The properties every plain object inherits from `Object.prototype`. */
  const ObjectPrototypeNames: set<string> := {
    "constructor", "hasOwnProperty", "isPrototypeOf", "propertyIsEnumerable",
    "toLocaleString", "toString", "valueOf", "__proto__",
    "__defineGetter__", "__defineSetter__", "__lookupGetter__", "__lookupSetter__"}

  /** `k in v` for a mapping or list `v`: its own keys and the inherited
      names. */
  predicate InAsWritten(k: string, v: Value) {
    k in DeclaredKeys(v) || ((v.Map? || v.Seq?) && k in ObjectPrototypeNames)
  }

  /** `checkTarget` as written, with the `in` test. */
  function CheckTargetAsWritten(raw: Value, instr: Instruction): (r: Res<Instruction>)
    ensures r.Ok? <==> instr.state.None? || InAsWritten(instr.state.value, raw)
    ensures CheckTarget(raw, instr).Ok? ==> r == CheckTarget(raw, instr)
  {
    if instr.state.Some? && !InAsWritten(instr.state.value, raw) then
      Err(Fail("Undeclared state", Details(problemValue := Some(Str(instr.state.value)), suggestion := Some(UndeclaredSuggestion))))
    else Ok(instr)
  }

  /** The start-state test of `parseSpec` as written: the parsed table is a
      plain object, so the inherited names pass too. */
  predicate StartDeclaredAsWritten(start: string, table: Table) {
    start in Keys(table) || start in ObjectPrototypeNames
  }

  /** `{R: toString}` passes the target check as written although the table
      declares only `a`; the own-key check rejects it. */
  lemma InheritedTargetAccepted()
    ensures var raw := Map([("a", Null)]); var i := Instruction(None, "R", Some("toString"));
      CheckTargetAsWritten(raw, i) == Ok(i) && CheckTarget(raw, i).Err?
  {
    var raw := Map([("a", Null)]);
    assert DeclaredKeys(raw) == ["a"];
  }

  /** A start state named like an inherited property, say `constructor`,
      passes the start-state test as written whatever the table declares. */
  lemma InheritedStartAccepted(table: Table)
    ensures StartDeclaredAsWritten("constructor", table)
  {
  }

  /** With own keys, `start state: constructor` is rejected when the table
      declares only `a`. */
  lemma InheritedStartRejected(doc: Value, allowTapes: bool)
    requires Prop(doc, "start state") == Some(Str("constructor"))
    requires Prop(doc, "table") == Some(Map([("a", Null)]))
    ensures ParseSpec(doc, allowTapes).Err?
  {
    var r := ParseSpec(doc, allowTapes);
    ParsedSpecWellFormed(doc, allowTapes);
    if r.Ok? {
      UndeclaredStartNotOk(r.value, doc, allowTapes);
    }
  }

  /** No specification whose table declares only `a` has the start state
      `constructor`. */
  lemma UndeclaredStartNotOk(s: Spec, doc: Value, allowTapes: bool)
    requires Prop(doc, "start state") == Some(Str("constructor"))
    requires Prop(doc, "table") == Some(Map([("a", Null)]))
    ensures !SpecOk(s, doc, allowTapes)
  {
    assert OwnEntries(Map([("a", Null)])) == Some([("a", Null)]);
    assert Keys([("a", Null)]) == ["a"];
  }
}

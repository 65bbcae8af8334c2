/** The universal transformation: the three input tapes of the universal
    machine that simulates a given single-tape machine. Symbols are coded
    as runs of `1`, states as runs of `2`, moves as runs of `3`. */
module Universal {
  import opened Wrappers
  import opened Text
  import opened Values
  import opened Errors
  import opened Parser
  import opened Transformations

  const TapesReason := "For universal transform tapes must be 1"

  /** The three tapes: the encoded transitions, the current state and the
      encoded input. */
  datatype Tapes = Tapes(instructions: string, state: string, data: string)

  /** A cell of an encoded row; `None` is `undefined`, which `join` renders
      as nothing. */
  type Cell = Option<string>

  function CodeOf(codes: map<string, string>, k: string): Cell {
    if k in codes then Some(codes[k]) else None
  }

  /** The `move` table, looked up with the instruction's direction. */
  function MoveCode(m: string): Cell {
    if m == "R" then Some("3")
    else if m == "L" then Some("33")
    else if m == "H" || m == "null" || m == "undefined" then Some("333")
    else None
  }

  /** The symbol the transition leaves on the tape: the written one, or
      the one read. */
  function NewSymbol(t: Triple): string {
    Written(t.2).GetOr(t.1)
  }

  /** The state the transition goes to: the named one, or the same. */
  function NewState(t: Triple): string {
    Target(t.2).GetOr(t.0)
  }

  /** The move cell: `3333` for a move into a halting state. */
  function MoveCell(t: Triple, finals: seq<string>): Cell {
    if t.2.state.Some? && t.2.state.value in finals then Some("3333") else MoveCode(t.2.move)
  }

  function EncodedRow(t: Triple, symbols: map<string, string>, states: map<string, string>, finals: seq<string>): seq<Cell> {
    [CodeOf(symbols, t.1), CodeOf(states, t.0), CodeOf(symbols, NewSymbol(t)), CodeOf(states, NewState(t)), MoveCell(t, finals)]
  }

  function RawRow(t: Triple): seq<string> {
    [t.1, t.0, NewSymbol(t), NewState(t), t.2.move]
  }

  /** `row.join('')`. */
  function RowText(cells: seq<Cell>): string {
    if |cells| == 0 then "" else cells[0].GetOr("") + RowText(cells[1..])
  }

  /** The rows' texts one after another. */
  function RowsText(rows: seq<seq<Cell>>): string {
    if |rows| == 0 then "" else RowsText(rows[..|rows| - 1]) + RowText(rows[|rows| - 1])
  }

  lemma RowsTextSnoc(rows: seq<seq<Cell>>, row: seq<Cell>)
    ensures RowsText(rows + [row]) == RowsText(rows) + RowText(row)
  {
    assert (rows + [row])[..|rows|] == rows;
  }

  /** The halting states, in table order. */
  function Finals(table: Table): seq<string> {
    if |table| == 0 then []
    else Finals(table[..|table| - 1]) + (if table[|table| - 1].1.None? then [table[|table| - 1].0] else [])
  }

  lemma {:induction false} FinalsMember(table: Table, s: string)
    ensures s in Finals(table) <==> exists j :: 0 <= j < |table| && table[j] == (s, None)
  {
    if |table| > 0 {
      var p := table[..|table| - 1];
      FinalsMember(p, s);
      if exists j :: 0 <= j < |table| && table[j] == (s, None) {
        var j :| 0 <= j < |table| && table[j] == (s, None);
        if j < |p| { assert p[j] == table[j]; }
      }
      if exists j :: 0 <= j < |p| && p[j] == (s, None) {
        var j :| 0 <= j < |p| && p[j] == (s, None);
        assert table[j] == p[j];
      }
    }
  }

  /** The loop collecting the halting states. */
  method CollectFinals(table: Table) returns (finals: seq<string>)
    ensures finals == Finals(table)
  {
    finals := [];
    var i := 0;
    while i < |table|
      invariant 0 <= i <= |table|
      invariant finals == Finals(table[..i])
    {
      assert table[..i + 1][..i] == table[..i];
      if table[i].1.None? {
        finals := finals + [table[i].0];
      }
      i := i + 1;
    }
    assert table[..i] == table;
  }

  /** `Array.prototype.map.call(spec.input, f)` walks: the characters of a
      text, the elements of a list (by their `String()` form, the key
      under which a code is looked up), nothing for a value without a
      length, and a `TypeError` for `null` or `undefined`. */
  function InputKeys(input: Option<Value>): Res<seq<string>> {
    if IsNullish(input) then Err(Thrown("TypeError"))
    else
      match input.value
      case Str(s) => Ok(seq(|s|, i requires 0 <= i < |s| => [s[i]]))
      case Seq(items) => Ok(seq(|items|, i requires 0 <= i < |items| => JsString(items[i])))
      case _ => Ok([])
  }

  /** The codes of the input's symbols; an uncoded one is `undefined`. */
  function InputCodes(keys: seq<string>, symbols: map<string, string>): (r: seq<string>)
    ensures |r| == |keys|
  {
    seq(|keys|, i requires 0 <= i < |keys| => CodeOf(symbols, keys[i]).GetOr(""))
  }

  /** The loop over the flattened transitions: the raw and encoded rows
      and the instruction tape `>` followed by each encoded row. */
  method EncodeTransitions(ts: seq<Triple>, symbols: map<string, string>, states: map<string, string>, finals: seq<string>)
    returns (instructions: string, raw: seq<seq<string>>, encoded: seq<seq<Cell>>)
    ensures |raw| == |ts| && forall k :: 0 <= k < |ts| ==> raw[k] == RawRow(ts[k])
    ensures |encoded| == |ts| && forall k :: 0 <= k < |ts| ==> encoded[k] == EncodedRow(ts[k], symbols, states, finals)
    ensures instructions == ">" + RowsText(encoded)
  {
    instructions, raw, encoded := ">", [], [];
    ghost var rawOf := RawRow;
    ghost var encodedOf := t => EncodedRow(t, symbols, states, finals);
    var k := 0;
    while k < |ts|
      invariant 0 <= k <= |ts|
      invariant MapsTo(ts[..k], raw, rawOf)
      invariant MapsTo(ts[..k], encoded, encodedOf)
      invariant instructions == ">" + RowsText(encoded)
    {
      var row := EncodedRow(ts[k], symbols, states, finals);
      MapsToSnoc(ts, k, raw, rawOf);
      MapsToSnoc(ts, k, encoded, encodedOf);
      TapeSnoc(instructions, encoded, row);
      raw := raw + [RawRow(ts[k])];
      encoded := encoded + [row];
      instructions := instructions + RowText(row);
      k := k + 1;
    }
    assert ts[..k] == ts;
  }

  lemma TapeSnoc(instructions: string, rows: seq<seq<Cell>>, row: seq<Cell>)
    requires instructions == ">" + RowsText(rows)
    ensures instructions + RowText(row) == ">" + RowsText(rows + [row])
  {
    RowsTextSnoc(rows, row);
  }

  /** `ys` is `xs` mapped by `f`. */
  ghost predicate MapsTo<A, B>(xs: seq<A>, ys: seq<B>, f: A -> B) {
    |ys| == |xs| && forall m :: 0 <= m < |xs| ==> ys[m] == f(xs[m])
  }

  lemma MapsToSnoc<A, B>(xs: seq<A>, k: nat, ys: seq<B>, f: A -> B)
    requires k < |xs| && MapsTo(xs[..k], ys, f)
    ensures MapsTo(xs[..k + 1], ys + [f(xs[k])], f)
  {
    assert forall m :: 0 <= m < k ==> xs[..k + 1][m] == xs[..k][m];
  }

  /** The symbol codes: the sorted symbols, blank first with `1`. */
  function SymbolCodes(spec: Spec): map<string, string> {
    var sorted := Sort(UniqueSpec(spec.table).0);
    UnaryCodes(Remove(sorted, [spec.blank]), [spec.blank], "1")
  }

  /** The state codes: the start state first with `2`. */
  function StateCodes(spec: Spec): map<string, string> {
    UnaryCodes(Remove(UniqueSpec(spec.table).1, spec.startState), spec.startState, "2")
  }

  function EncodedRows(spec: Spec): (rows: seq<seq<Cell>>)
    ensures |rows| == |Flatten(spec.table)|
  {
    var ts := Flatten(spec.table);
    seq(|ts|, k requires 0 <= k < |ts| => EncodedRow(ts[k], SymbolCodes(spec), StateCodes(spec), Finals(spec.table)))
  }

  /** The three tapes of `universal_transform`, or its failures. */
  function UniversalSpec(spec: Spec): Res<Tapes> {
    if spec.tapes != Some(0) then Err(Invalid(NewSpecError(TapesReason, None)))
    else
      UnaryCodesKeys(Remove(UniqueSpec(spec.table).1, spec.startState), spec.startState, "2");
      var keys :- InputKeys(spec.input);
      Ok(Tapes(">" + RowsText(EncodedRows(spec)),
               ">" + StateCodes(spec)[spec.startState],
               ">;" + Join(InputCodes(keys, SymbolCodes(spec)), ";") + ";"))
  }

  /** `universal_transform(spec)`, the part that builds the tapes: collect
      symbols and states, sort the symbols, assign unary codes, encode
      every flattened transition, then the state and data tapes. */
  method Universal(spec: Spec) returns (r: Res<Tapes>)
    ensures r == UniversalSpec(spec)
  {
    if spec.tapes != Some(0) {
      return Err(Invalid(NewSpecError(TapesReason, None)));
    }
    var symbols, states := UniqueSymbolsStates(spec.table);
    var finals := CollectFinals(spec.table);
    symbols := Sort(symbols);
    var _, symbolCodes := Unary(symbols, [spec.blank], "1");
    var _, stateCodes := Unary(states, spec.startState, "2");
    var instructions, _, encoded := EncodeTransitions(Flatten(spec.table), symbolCodes, stateCodes, finals);
    assert encoded == EncodedRows(spec);
    UnaryCodesKeys(Remove(states, spec.startState), spec.startState, "2");
    var stateTape := ">" + stateCodes[spec.startState];
    var keys :- InputKeys(spec.input);
    var dataTape := ">;" + Join(InputCodes(keys, symbolCodes), ";") + ";";
    return Ok(Tapes(instructions, stateTape, dataTape));
  }

  // ---------------------------------------------------------------------
  // What the tapes say

  /** The universal transformation accepts exactly the single-tape
      machines whose input has a length or is a value; any other tape
      count is the specification error, a missing input a `TypeError`. */
  lemma UniversalOutcome(spec: Spec)
    ensures spec.tapes != Some(0) ==> UniversalSpec(spec) == Err(Invalid(SpecError(TapesReason, Details())))
    ensures spec.tapes == Some(0) && IsNullish(spec.input) ==> UniversalSpec(spec) == Err(Thrown("TypeError"))
    ensures UniversalSpec(spec).Ok? <==> spec.tapes == Some(0) && !IsNullish(spec.input)
  {
  }

  /** The start state always has code `2`, so the state tape is `>2`. */
  lemma StateTapeIsStart(spec: Spec)
    requires UniversalSpec(spec).Ok?
    ensures UniversalSpec(spec).value.state == ">2"
  {
    var states := UniqueSpec(spec.table).1;
    UniqueContents(spec.table);
    RemoveFacts(states, spec.startState);
    UnaryCodesFacts(Remove(states, spec.startState), spec.startState, "2");
  }

  /** The blank has code `1`, and no two symbols, nor two states, share a
      code. */
  lemma CodesDistinct(spec: Spec)
    ensures [spec.blank] in SymbolCodes(spec) && SymbolCodes(spec)[[spec.blank]] == "1"
    ensures forall a, b :: a in SymbolCodes(spec) && b in SymbolCodes(spec) && a != b ==> SymbolCodes(spec)[a] != SymbolCodes(spec)[b]
    ensures forall a, b :: a in StateCodes(spec) && b in StateCodes(spec) && a != b ==> StateCodes(spec)[a] != StateCodes(spec)[b]
  {
    var (symbols, states) := UniqueSpec(spec.table);
    UniqueContents(spec.table);
    var sorted := Sort(symbols);
    NoDupPermutation(symbols, sorted);
    UnaryComplete(sorted, [spec.blank], "1");
    UnaryComplete(states, spec.startState, "2");
    RemoveFacts(sorted, [spec.blank]);
    UnaryCodesFacts(Remove(sorted, [spec.blank]), [spec.blank], "1");
  }

  /** Every symbol a transition reads or leaves, and every state it starts
      from or reaches, has a code. */
  lemma TransitionsCoded(spec: Spec, t: Triple)
    requires t in Flatten(spec.table)
    ensures t.1 in SymbolCodes(spec) && NewSymbol(t) in SymbolCodes(spec)
    ensures t.0 in StateCodes(spec) && NewState(t) in StateCodes(spec)
  {
    var (symbols, states) := UniqueSpec(spec.table);
    UniqueContents(spec.table);
    var sorted := Sort(symbols);
    assert forall x :: x in symbols ==> x in sorted by {
      forall x | x in symbols ensures x in sorted {
        assert x in multiset(symbols);
      }
    }
    UnaryCodesKeys(Remove(sorted, [spec.blank]), [spec.blank], "1");
    UnaryCodesKeys(Remove(states, spec.startState), spec.startState, "2");
    if t.1 != [spec.blank] { RemoveKeeps(sorted, [spec.blank], t.1); }
    if NewSymbol(t) != [spec.blank] { RemoveKeeps(sorted, [spec.blank], NewSymbol(t)); }
    FlattenMember(spec.table, t);
    var j :| 0 <= j < |spec.table| && t in EntryTriples(spec.table[j]);
    RowTriplesMember(spec.table[j].0, spec.table[j].1.value, t);
    assert HasState(spec.table, t.0);
    if t.0 != spec.startState { RemoveKeeps(states, spec.startState, t.0); }
    if NewState(t) != spec.startState { RemoveKeeps(states, spec.startState, NewState(t)); }
  }

  // ---------------------------------------------------------------------
  // Decoding the instruction tape

  /** Run-length form of a text: each maximal run of one character as the
      character and the run's length. */
  function Runs(s: string): seq<(char, nat)> {
    if |s| == 0 then [] else Merge(s[0], Runs(s[1..]))
  }

  /** One more `c` in front of the runs `r`. */
  function Merge(c: char, r: seq<(char, nat)>): seq<(char, nat)> {
    if |r| > 0 && r[0].0 == c then [(c, r[0].1 + 1)] + r[1..] else [(c, 1)] + r
  }

  lemma MergeAppend(c: char, r: seq<(char, nat)>, r': seq<(char, nat)>)
    requires |r| > 0
    ensures Merge(c, r + r') == Merge(c, r) + r'
  {
    var x, y := Merge(c, r + r'), Merge(c, r) + r';
    assert |x| == |y|;
    forall i | 0 <= i < |x|
      ensures x[i] == y[i]
    {
      if r[0].0 == c {
        if i > 0 { assert x[i] == (r + r')[i]; }
      } else {
        if i > 0 { assert x[i] == (r + r')[i - 1]; }
      }
    }
  }

  lemma RunsHead(s: string)
    requires |s| > 0
    ensures |Runs(s)| > 0 && Runs(s)[0].0 == s[0]
  {
  }

  lemma {:induction false} RunsAppend(a: string, b: string)
    requires |a| > 0 && |b| > 0 && a[|a| - 1] != b[0]
    ensures Runs(a + b) == Runs(a) + Runs(b)
  {
    RunsHead(b);
    assert (a + b)[0] == a[0];
    if |a| == 1 {
      assert (a + b)[1..] == b;
      assert a[1..] == [];
    } else {
      assert (a + b)[1..] == a[1..] + b;
      RunsAppend(a[1..], b);
      RunsHead(a[1..]);
      MergeAppend(a[0], Runs(a[1..]), Runs(b));
    }
  }

  /** A non-empty run of `c`. */
  predicate RunOf(s: string, c: char) {
    |s| >= 1 && forall i :: 0 <= i < |s| ==> s[i] == c
  }

  lemma {:induction false} RunsOfRun(s: string, c: char)
    requires RunOf(s, c)
    ensures Runs(s) == [(c, |s|)]
  {
    if |s| > 1 {
      RunsOfRun(s[1..], c);
    }
  }

  /** A row whose five cells are runs of `1`, `2`, `1`, `2` and `3`. */
  predicate WellCoded(row: seq<Cell>) {
    |row| == 5 && (forall i :: 0 <= i < 5 ==> row[i].Some?) &&
    RunOf(row[0].value, '1') && RunOf(row[1].value, '2') && RunOf(row[2].value, '1') &&
    RunOf(row[3].value, '2') && RunOf(row[4].value, '3')
  }

  /** What a well-coded row reads back as: the lengths of its five codes. */
  function RowRuns(row: seq<Cell>): seq<(char, nat)>
    requires WellCoded(row)
  {
    [('1', |row[0].value|), ('2', |row[1].value|), ('1', |row[2].value|), ('2', |row[3].value|), ('3', |row[4].value|)]
  }

  function AllRuns(rows: seq<seq<Cell>>): seq<(char, nat)>
    requires forall k :: 0 <= k < |rows| ==> WellCoded(rows[k])
  {
    if |rows| == 0 then [] else AllRuns(rows[..|rows| - 1]) + RowRuns(rows[|rows| - 1])
  }

  lemma RunsCons(a: string, c: char, rest: string)
    requires RunOf(a, c) && |rest| > 0 && rest[0] != c
    ensures Runs(a + rest) == [(c, |a|)] + Runs(rest)
  {
    RunsOfRun(a, c);
    RunsAppend(a, rest);
  }

  lemma RowTextRuns(row: seq<Cell>)
    requires WellCoded(row)
    ensures |RowText(row)| > 0 && RowText(row)[0] == '1' && RowText(row)[|RowText(row)| - 1] == '3'
    ensures Runs(RowText(row)) == RowRuns(row)
  {
    var a, b, c, d, e := row[0].value, row[1].value, row[2].value, row[3].value, row[4].value;
    assert RowText(row[5..]) == "";
    assert RowText(row[4..]) == e by { assert row[4..][1..] == row[5..]; }
    assert RowText(row[3..]) == d + e by { assert row[3..][1..] == row[4..]; }
    assert RowText(row[2..]) == c + (d + e) by { assert row[2..][1..] == row[3..]; }
    assert RowText(row[1..]) == b + (c + (d + e)) by { assert row[1..][1..] == row[2..]; }
    RunsOfRun(e, '3');
    RunsCons(d, '2', e);
    RunsCons(c, '1', d + e);
    RunsCons(b, '2', c + (d + e));
    RunsCons(a, '1', b + (c + (d + e)));
  }

  lemma {:induction false} RowsTextRuns(rows: seq<seq<Cell>>)
    requires forall k :: 0 <= k < |rows| ==> WellCoded(rows[k])
    ensures |rows| > 0 ==> |RowsText(rows)| > 0 && RowsText(rows)[|RowsText(rows)| - 1] == '3'
    ensures Runs(RowsText(rows)) == AllRuns(rows)
  {
    if |rows| > 0 {
      var p := rows[..|rows| - 1];
      var last := rows[|rows| - 1];
      RowsTextRuns(p);
      RowTextRuns(last);
      if |p| > 0 {
        RunsAppend(RowsText(p), RowText(last));
      } else {
        assert RowsText(rows) == RowText(last);
      }
    }
  }

  lemma SymbolCodesRuns(spec: Spec)
    ensures forall x :: x in SymbolCodes(spec) ==> RunOf(SymbolCodes(spec)[x], '1')
  {
    UnaryCodesRun(Remove(Sort(UniqueSpec(spec.table).0), [spec.blank]), [spec.blank], '1');
  }

  lemma StateCodesRuns(spec: Spec)
    ensures forall x :: x in StateCodes(spec) ==> RunOf(StateCodes(spec)[x], '2')
  {
    UnaryCodesRun(Remove(UniqueSpec(spec.table).1, spec.startState), spec.startState, '2');
  }

  lemma MoveCellRun(t: Triple, finals: seq<string>)
    requires MoveCell(t, finals).Some?
    ensures RunOf(MoveCell(t, finals).value, '3')
  {
    var m := MoveCell(t, finals).value;
    assert m == "3" || m == "33" || m == "333" || m == "3333";
  }

  /** A row whose lookups all find a code of the right character. */
  lemma RowWellCodedBy(t: Triple, symbols: map<string, string>, states: map<string, string>, finals: seq<string>)
    requires t.1 in symbols && NewSymbol(t) in symbols && t.0 in states && NewState(t) in states
    requires forall x :: x in symbols ==> RunOf(symbols[x], '1')
    requires forall x :: x in states ==> RunOf(states[x], '2')
    requires MoveCell(t, finals).Some?
    ensures WellCoded(EncodedRow(t, symbols, states, finals))
  {
    MoveCellRun(t, finals);
  }

  lemma RowWellCoded(spec: Spec, t: Triple)
    requires t in Flatten(spec.table) && MoveCell(t, Finals(spec.table)).Some?
    ensures WellCoded(EncodedRow(t, SymbolCodes(spec), StateCodes(spec), Finals(spec.table)))
  {
    SymbolCodesRuns(spec);
    StateCodesRuns(spec);
    TransitionsCoded(spec, t);
    RowWellCodedBy(t, SymbolCodes(spec), StateCodes(spec), Finals(spec.table));
  }

  /** When every move has a code, each encoded row is well coded. */
  lemma EncodedRowsWellCoded(spec: Spec)
    requires forall t :: t in Flatten(spec.table) ==> MoveCell(t, Finals(spec.table)).Some?
    ensures forall k :: 0 <= k < |EncodedRows(spec)| ==> WellCoded(EncodedRows(spec)[k])
  {
    var ts := Flatten(spec.table);
    forall k | 0 <= k < |ts| ensures WellCoded(EncodedRows(spec)[k]) {
      RowWellCoded(spec, ts[k]);
    }
  }

  /** The instruction tape decodes: after `>`, its runs are, transition by
      transition in table order, a run of `1` as long as the read symbol's
      code, a run of `2` as long as the from-state's code, the new
      symbol's and the new state's runs, and the move's run of `3`. */
  lemma InstructionTapeDecodes(spec: Spec)
    requires UniversalSpec(spec).Ok?
    requires forall t :: t in Flatten(spec.table) ==> MoveCell(t, Finals(spec.table)).Some?
    ensures forall k :: 0 <= k < |EncodedRows(spec)| ==> WellCoded(EncodedRows(spec)[k])
    ensures UniversalSpec(spec).value.instructions[0] == '>'
    ensures Runs(UniversalSpec(spec).value.instructions[1..]) == AllRuns(EncodedRows(spec))
  {
    EncodedRowsWellCoded(spec);
    RowsTextRuns(EncodedRows(spec));
    assert UniversalSpec(spec).value.instructions[1..] == RowsText(EncodedRows(spec));
  }

  /** A data tape made of codes without `;` splits back into them. */
  lemma DataTapeSplit(codes: seq<string>)
    requires |codes| > 0 && forall i :: 0 <= i < |codes| ==> ';' !in codes[i]
    ensures var d := ">;" + Join(codes, ";") + ";";
      |d| >= 3 && d[..2] == ">;" && d[|d| - 1] == ';' && Split(d[2..|d| - 1], ';') == codes
  {
    SplitJoin(codes, ';');
    var d := ">;" + Join(codes, ";") + ";";
    assert d[2..|d| - 1] == Join(codes, ";");
  }

  /** When every input symbol has a code, the data tape is `>;`, the codes
      separated by `;`, and a closing `;`; splitting its middle at `;`
      gives the codes back. */
  lemma DataTapeDecodes(spec: Spec, keys: seq<string>)
    requires UniversalSpec(spec).Ok? && InputKeys(spec.input) == Ok(keys) && |keys| > 0
    requires forall i :: 0 <= i < |keys| ==> keys[i] in SymbolCodes(spec)
    ensures var d := UniversalSpec(spec).value.data;
      |d| >= 3 && d[..2] == ">;" && d[|d| - 1] == ';' &&
      Split(d[2..|d| - 1], ';') == seq(|keys|, i requires 0 <= i < |keys| => SymbolCodes(spec)[keys[i]])
  {
    var sc := SymbolCodes(spec);
    var codes := InputCodes(keys, sc);
    SymbolCodesRuns(spec);
    assert codes == seq(|keys|, i requires 0 <= i < |keys| => sc[keys[i]]);
    forall i | 0 <= i < |codes| ensures ';' !in codes[i] {
      assert RunOf(codes[i], '1');
    }
    DataTapeSplit(codes);
    assert UniversalSpec(spec).value.data == ">;" + Join(codes, ";") + ";";
  }
}

/** The helpers shared by the machine transformations: symbol keys with a
    comma escape, the flattened transition list, the duplicate-free symbol
    and state lists, unary code assignment and column padding. */
module Transformations {
  import opened Wrappers
  import opened Text
  import opened Values
  import opened Errors
  import opened Parser

  // ---------------------------------------------------------------------
  // Lists without repetitions

  predicate NoDup<T(==)>(s: seq<T>) {
    forall i, j :: 0 <= i < j < |s| ==> s[i] != s[j]
  }

  /** The index of the first `x` in `s` (`s.indexOf(x)` when present). */
  function Position<T(==)>(s: seq<T>, x: T): (i: nat)
    requires x in s
    ensures i < |s| && s[i] == x && x !in s[..i]
  {
    if s[0] == x then 0 else 1 + Position(s[1..], x)
  }

  /** `if (!list.includes(x)) list.push(x)`. */
  function PushNew<T(==)>(list: seq<T>, x: T): seq<T> {
    if x in list then list else list + [x]
  }

  /** The elements of `s` in the order they first appear, each once. */
  function Dedup<T(==)>(s: seq<T>): seq<T> {
    if |s| == 0 then [] else PushNew(Dedup(s[..|s| - 1]), s[|s| - 1])
  }

  lemma DedupSnoc<T>(s: seq<T>, x: T)
    ensures Dedup(s + [x]) == PushNew(Dedup(s), x)
  {
    assert (s + [x])[..|s|] == s;
  }

  /** `Dedup` keeps every element once and puts them in order of first
      appearance. */
  lemma {:induction false} DedupFacts<T>(s: seq<T>)
    ensures NoDup(Dedup(s))
    ensures forall x :: x in Dedup(s) <==> x in s
    ensures forall i, j :: 0 <= i < j < |Dedup(s)| ==> Position(s, Dedup(s)[i]) < Position(s, Dedup(s)[j])
  {
    if |s| > 0 {
      var p, x := s[..|s| - 1], s[|s| - 1];
      assert s == p + [x];
      DedupFacts(p);
      var d := Dedup(p);
      forall y | y in p ensures Position(s, y) == Position(p, y) {
        PositionPrefix(p, x, y);
      }
      if x !in p {
        assert Position(s, x) == |p| by {
          assert s[..|p|] == p;
          PositionAt(s, x, |p|);
        }
        forall i | 0 <= i < |d| ensures Position(s, d[i]) < |p| {
          assert d[i] in d;
          assert Position(s, d[i]) == Position(p, d[i]);
        }
      }
    }
  }

  lemma PositionPrefix<T>(p: seq<T>, x: T, y: T)
    requires y in p
    ensures Position(p + [x], y) == Position(p, y)
  {
    var k := Position(p, y);
    assert (p + [x])[..k] == p[..k];
    PositionAt(p + [x], y, k);
  }

  lemma {:induction false} PositionAt<T>(s: seq<T>, x: T, k: nat)
    requires k < |s| && s[k] == x && x !in s[..k]
    ensures Position(s, x) == k
  {
    if k > 0 {
      assert s[0] in s[..k];
      assert s[1..][..k - 1] == s[..k][1..];
      PositionAt(s[1..], x, k - 1);
    }
  }

  // ---------------------------------------------------------------------
  // parseSymbolKey

  /** One step of the reduction in `parseSymbolKey`: an empty piece right
      after an empty piece turns that one into a literal comma. */
  function KeyStep(acc: seq<string>, x: string): seq<string> {
    if x == "" && |acc| > 0 && acc[|acc| - 1] == "" then acc[|acc| - 1 := ","] else acc + [x]
  }

  function KeyFold(acc: seq<string>, pieces: seq<string>): seq<string>
    decreases |pieces|
  {
    if |pieces| == 0 then acc else KeyFold(KeyStep(acc, pieces[0]), pieces[1..])
  }

  /** The symbols a table key stands for: the key split at commas, where
      `,,,` between two symbols (or `,` alone) denotes the comma symbol. */
  function ParseSymbolKey(key: string): seq<string> {
    KeyFold([], Split(key, ','))
  }

  /** A symbol that can appear in a key list: the comma itself, or a
      non-empty text without commas. */
  predicate KeySymbol(s: string) {
    s == "," || (s != "" && ',' !in s)
  }

  lemma JoinTwoParts(parts: seq<string>, sep: char)
    requires |parts| >= 2
    ensures sep in Join(parts, [sep])
  {
    assert Join(parts, [sep])[|parts[0]|] == sep;
  }

  /** A key without a comma stands for itself alone. */
  lemma ParseSymbolKeyPlain(key: string)
    requires ',' !in key
    ensures ParseSymbolKey(key) == [key]
  {
    var parts := Split(key, ',');
    if |parts| >= 2 {
      JoinTwoParts(parts, ',');
      assert false;
    }
    assert parts == [key];
    assert KeyStep([], key) == [key];
    assert [key][1..] == [];
    assert KeyFold([], [key]) == KeyFold([key], []);
  }

  /** Every symbol a key yields is the comma or a comma-free text. */
  lemma {:induction false} KeyFoldShape(acc: seq<string>, pieces: seq<string>)
    requires forall i :: 0 <= i < |acc| ==> acc[i] == "," || ',' !in acc[i]
    requires forall i :: 0 <= i < |pieces| ==> ',' !in pieces[i]
    ensures forall i :: 0 <= i < |KeyFold(acc, pieces)| ==> KeyFold(acc, pieces)[i] == "," || ',' !in KeyFold(acc, pieces)[i]
    decreases |pieces|
  {
    if |pieces| > 0 {
      KeyFoldShape(KeyStep(acc, pieces[0]), pieces[1..]);
    }
  }

  lemma ParseSymbolKeyShape(key: string)
    ensures forall i :: 0 <= i < |ParseSymbolKey(key)| ==> ParseSymbolKey(key)[i] == "," || ',' !in ParseSymbolKey(key)[i]
  {
    KeyFoldShape([], Split(key, ','));
  }

  /** The pieces `split(',')` produces for a list of key symbols: the comma
      symbol shows up as two empty pieces. */
  function Expand(syms: seq<string>): seq<string> {
    if |syms| == 0 then [] else (if syms[0] == "," then ["", ""] else [syms[0]]) + Expand(syms[1..])
  }

  lemma {:induction false} JoinAppend(a: seq<string>, b: seq<string>, sep: string)
    requires |a| >= 1 && |b| >= 1
    ensures Join(a + b, sep) == Join(a, sep) + sep + Join(b, sep)
  {
    if |a| > 1 {
      assert (a + b)[1..] == a[1..] + b;
      JoinAppend(a[1..], b, sep);
    }
  }

  lemma {:induction false} JoinExpand(syms: seq<string>)
    requires |syms| >= 1
    ensures |Expand(syms)| >= 1
    ensures Join(Expand(syms), ",") == Join(syms, ",")
  {
    var head: seq<string> := if syms[0] == "," then ["", ""] else [syms[0]];
    assert Join(head, ",") == syms[0];
    if |syms| > 1 {
      JoinExpand(syms[1..]);
      JoinAppend(head, Expand(syms[1..]), ",");
    } else {
      assert Expand(syms) == head;
    }
  }

  lemma {:induction false} ExpandCommaFree(syms: seq<string>)
    requires forall i :: 0 <= i < |syms| ==> KeySymbol(syms[i])
    ensures forall i :: 0 <= i < |Expand(syms)| ==> ',' !in Expand(syms)[i]
  {
    if |syms| > 0 {
      ExpandCommaFree(syms[1..]);
    }
  }

  lemma {:induction false} KeyFoldExpand(acc: seq<string>, syms: seq<string>)
    requires |acc| == 0 || acc[|acc| - 1] != ""
    requires forall i :: 0 <= i < |syms| ==> KeySymbol(syms[i])
    ensures KeyFold(acc, Expand(syms)) == acc + syms
    decreases |syms|
  {
    if |syms| > 0 {
      var rest := Expand(syms[1..]);
      KeyFoldExpand(acc + [syms[0]], syms[1..]);
      if syms[0] == "," {
        assert Expand(syms) == [""] + ([""] + rest);
        KeyFoldCons(acc, "", [""] + rest);
        assert KeyStep(acc, "") == acc + [""];
        KeyFoldCons(acc + [""], "", rest);
        assert KeyStep(acc + [""], "") == acc + [","];
      } else {
        assert Expand(syms) == [syms[0]] + rest;
        KeyFoldCons(acc, syms[0], rest);
      }
      AppendFirst(acc, syms);
    }
  }

  lemma AppendFirst<T>(acc: seq<T>, xs: seq<T>)
    requires |xs| > 0
    ensures acc + [xs[0]] + xs[1..] == acc + xs
  {
    var x, y := acc + [xs[0]] + xs[1..], acc + xs;
    assert |x| == |y|;
    forall i | 0 <= i < |x|
      ensures x[i] == y[i]
    {
      if i > |acc| {
        assert x[i] == xs[1..][i - |acc| - 1];
      }
    }
  }

  lemma KeyFoldCons(acc: seq<string>, p: string, ps: seq<string>)
    ensures KeyFold(acc, [p] + ps) == KeyFold(KeyStep(acc, p), ps)
  {
    assert ([p] + ps)[1..] == ps;
  }

  /** Writing key symbols joined by commas and parsing the key gives the
      symbols back. */
  lemma ParseSymbolKeyRoundTrip(syms: seq<string>)
    requires |syms| >= 1
    requires forall i :: 0 <= i < |syms| ==> KeySymbol(syms[i])
    ensures ParseSymbolKey(Join(syms, ",")) == syms
  {
    JoinExpand(syms);
    ExpandCommaFree(syms);
    SplitJoin(Expand(syms), ',');
    KeyFoldExpand([], syms);
  }

  // ---------------------------------------------------------------------
  // flatten_spec

  /** A flattened transition: from-state, one read symbol, its instruction. */
  type Triple = (string, string, Instruction)

  function PieceTriples(from: string, pieces: seq<string>, instr: Instruction): (ts: seq<Triple>)
    ensures |ts| == |pieces| && forall k :: 0 <= k < |ts| ==> ts[k] == (from, pieces[k], instr)
  {
    if |pieces| == 0 then [] else PieceTriples(from, pieces[..|pieces| - 1], instr) + [(from, pieces[|pieces| - 1], instr)]
  }

  function RowTriples(from: string, row: Row): seq<Triple> {
    if |row| == 0 then []
    else
      var (key, instr) := row[|row| - 1];
      RowTriples(from, row[..|row| - 1]) + PieceTriples(from, ParseSymbolKey(key), instr)
  }

  function EntryTriples(entry: (string, Option<Row>)): seq<Triple> {
    if entry.1.Some? then RowTriples(entry.0, entry.1.value) else []
  }

  /** The transitions of a table, one per (state, symbol), in table order. */
  function Flatten(table: Table): seq<Triple> {
    if |table| == 0 then [] else Flatten(table[..|table| - 1]) + EntryTriples(table[|table| - 1])
  }

  /** A triple of a row comes from one of its cells and one symbol of
      that cell's key, and every such combination is a triple. */
  lemma {:induction false} RowTriplesMember(from: string, row: Row, t: Triple)
    ensures t in RowTriples(from, row) <==>
      (t.0 == from && exists k :: 0 <= k < |row| && row[k].1 == t.2 && t.1 in ParseSymbolKey(row[k].0))
  {
    if |row| > 0 {
      var p := row[..|row| - 1];
      RowTriplesLast(from, row, t);
      RowTriplesMember(from, p, t);
      PieceMember(from, ParseSymbolKey(row[|row| - 1].0), row[|row| - 1].1, t);
      ExistsLast(row, p, (c: (string, Instruction)) => c.1 == t.2 && t.1 in ParseSymbolKey(c.0));
    }
  }

  lemma RowTriplesLast(from: string, row: Row, t: Triple)
    requires |row| > 0
    ensures t in RowTriples(from, row) <==>
      t in RowTriples(from, row[..|row| - 1]) || t in PieceTriples(from, ParseSymbolKey(row[|row| - 1].0), row[|row| - 1].1)
  {
  }

  /** The triples of one cell: its source state, each symbol of its key,
      its instruction. */
  lemma PieceMember(from: string, pieces: seq<string>, instr: Instruction, t: Triple)
    ensures t in PieceTriples(from, pieces, instr) <==> t.0 == from && t.2 == instr && t.1 in pieces
  {
    var ts := PieceTriples(from, pieces, instr);
    if t.0 == from && t.2 == instr && t.1 in pieces {
      var k :| 0 <= k < |pieces| && pieces[k] == t.1;
      assert ts[k] == t;
    }
  }

  /** `t` is a flattened transition exactly when some table entry yields
      it; with `RowTriplesMember`, when the table has a row for `t.0` with
      a cell whose key lists `t.1` and holds `t.2`. */
  lemma {:induction false} FlattenMember(table: Table, t: Triple)
    ensures t in Flatten(table) <==> exists j :: 0 <= j < |table| && t in EntryTriples(table[j])
  {
    if |table| > 0 {
      FlattenLast(table, t);
      FlattenMember(table[..|table| - 1], t);
      ExistsLast(table, table[..|table| - 1], e => t in EntryTriples(e));
    }
  }

  lemma FlattenLast(table: Table, t: Triple)
    requires |table| > 0
    ensures t in Flatten(table) <==> t in Flatten(table[..|table| - 1]) || t in EntryTriples(table[|table| - 1])
  {
  }

  /** Some element of `s` satisfies `P` exactly when one of its prefix
      `p` does or its last one does. */
  lemma ExistsLast<T>(s: seq<T>, p: seq<T>, P: T -> bool)
    requires |s| > 0 && p == s[..|s| - 1]
    ensures (exists j :: 0 <= j < |s| && P(s[j])) <==> (exists j :: 0 <= j < |p| && P(p[j])) || P(s[|s| - 1])
  {
    if exists j :: 0 <= j < |s| && P(s[j]) {
      var j :| 0 <= j < |s| && P(s[j]);
      if j < |p| {
        assert p[j] == s[j];
      }
    }
    if exists j :: 0 <= j < |p| && P(p[j]) {
      var j :| 0 <= j < |p| && P(p[j]);
      assert s[j] == p[j];
    }
  }

  // ---------------------------------------------------------------------
  // unique_symbols_states

  /** The state an instruction names, when that name is truthy. */
  function Target(instr: Instruction): Option<string> {
    if instr.state.Some? && instr.state.value != "" then instr.state else None
  }

  /** `action.symbol[0]`: the symbol written on the first tape, if any. */
  function Written(instr: Instruction): Option<string> {
    if instr.symbol.Some? && |instr.symbol.value| > 0 && instr.symbol.value[0].Some? then Some([instr.symbol.value[0].value]) else None
  }

  function OptList(o: Option<string>): seq<string> {
    if o.Some? then [o.value] else []
  }

  /** The symbols in the order the collection meets them: per flattened
      transition the read symbol, then the written one. */
  function SymbolOccurrences(ts: seq<Triple>): seq<string> {
    if |ts| == 0 then []
    else
      var t := ts[|ts| - 1];
      SymbolOccurrences(ts[..|ts| - 1]) + [t.1] + OptList(Written(t.2))
  }

  /** The target states of some flattened transitions, in order. */
  function TargetOccurrences(ts: seq<Triple>): seq<string> {
    if |ts| == 0 then [] else TargetOccurrences(ts[..|ts| - 1]) + OptList(Target(ts[|ts| - 1].2))
  }

  /** The states in the order the collection meets them: each table state,
      followed by the targets of its transitions. */
  function StateOccurrences(table: Table): seq<string> {
    if |table| == 0 then []
    else
      var e := table[|table| - 1];
      StateOccurrences(table[..|table| - 1]) + [e.0] + TargetOccurrences(EntryTriples(e))
  }

  lemma {:induction false} SymbolOccurrencesAppend(a: seq<Triple>, b: seq<Triple>)
    ensures SymbolOccurrences(a + b) == SymbolOccurrences(a) + SymbolOccurrences(b)
  {
    if |b| > 0 {
      var b' := b[..|b| - 1];
      assert (a + b)[..|a + b| - 1] == a + b';
      SymbolOccurrencesAppend(a, b');
    } else {
      assert a + b == a;
    }
  }

  lemma {:induction false} TargetOccurrencesAppend(a: seq<Triple>, b: seq<Triple>)
    ensures TargetOccurrences(a + b) == TargetOccurrences(a) + TargetOccurrences(b)
  {
    if |b| > 0 {
      var b' := b[..|b| - 1];
      assert (a + b)[..|a + b| - 1] == a + b';
      TargetOccurrencesAppend(a, b');
    } else {
      assert a + b == a;
    }
  }

  lemma SymbolOccurrencesSnoc(ts: seq<Triple>, t: Triple)
    ensures SymbolOccurrences(ts + [t]) == SymbolOccurrences(ts) + [t.1] + OptList(Written(t.2))
  {
    assert (ts + [t])[..|ts|] == ts;
  }

  lemma TargetOccurrencesSnoc(ts: seq<Triple>, t: Triple)
    ensures TargetOccurrences(ts + [t]) == TargetOccurrences(ts) + OptList(Target(t.2))
  {
    assert (ts + [t])[..|ts|] == ts;
  }

  /** `unique_symbols_states` as a value: both lists without repetitions,
      in order of first appearance. */
  function UniqueSpec(table: Table): (seq<string>, seq<string>) {
    (Dedup(SymbolOccurrences(Flatten(table))), Dedup(StateOccurrences(table)))
  }

  function PushNewOpt(list: seq<string>, x: Option<string>): seq<string> {
    if x.Some? then PushNew(list, x.value) else list
  }

  /** The lists after the flattened transitions `base` of earlier states
      and `entry` of the current one, where `prior` holds the states met
      before the current state's targets. */
  ghost predicate Collected(symbols: seq<string>, states: seq<string>, base: seq<Triple>, prior: seq<string>, entry: seq<Triple>) {
    symbols == Dedup(SymbolOccurrences(base + entry)) && states == Dedup(prior + TargetOccurrences(entry))
  }

  /** One key symbol: push it, then the target, then the written symbol. */
  lemma CollectStep(symbols: seq<string>, states: seq<string>, base: seq<Triple>, prior: seq<string>, entry: seq<Triple>, t: Triple)
    requires Collected(symbols, states, base, prior, entry)
    ensures Collected(PushNewOpt(PushNew(symbols, t.1), Written(t.2)), PushNewOpt(states, Target(t.2)), base, prior, entry + [t])
  {
    assert base + (entry + [t]) == (base + entry) + [t];
    SymbolsStep(symbols, base + entry, t);
    StatesStep(states, prior, entry, t);
  }

  lemma SymbolsStep(symbols: seq<string>, done: seq<Triple>, t: Triple)
    requires symbols == Dedup(SymbolOccurrences(done))
    ensures PushNewOpt(PushNew(symbols, t.1), Written(t.2)) == Dedup(SymbolOccurrences(done + [t]))
  {
    SymbolOccurrencesSnoc(done, t);
    DedupSnoc(SymbolOccurrences(done), t.1);
    if Written(t.2).Some? {
      DedupSnoc(SymbolOccurrences(done) + [t.1], Written(t.2).value);
    } else {
      assert SymbolOccurrences(done) + [t.1] + [] == SymbolOccurrences(done) + [t.1];
    }
  }

  lemma StatesStep(states: seq<string>, prior: seq<string>, entry: seq<Triple>, t: Triple)
    requires states == Dedup(prior + TargetOccurrences(entry))
    ensures PushNewOpt(states, Target(t.2)) == Dedup(prior + TargetOccurrences(entry + [t]))
  {
    TargetOccurrencesSnoc(entry, t);
    if Target(t.2).Some? {
      assert prior + TargetOccurrences(entry + [t]) == (prior + TargetOccurrences(entry)) + [Target(t.2).value];
      DedupSnoc(prior + TargetOccurrences(entry), Target(t.2).value);
    } else {
      assert prior + TargetOccurrences(entry + [t]) == prior + TargetOccurrences(entry);
    }
  }

  lemma FlattenSnoc(table: Table, i: nat)
    requires i < |table|
    ensures Flatten(table[..i + 1]) == Flatten(table[..i]) + EntryTriples(table[i])
    ensures StateOccurrences(table[..i + 1]) == StateOccurrences(table[..i]) + [table[i].0] + TargetOccurrences(EntryTriples(table[i]))
  {
    assert table[..i + 1][..i] == table[..i];
  }

  lemma RowTriplesSnoc(from: string, row: Row, j: nat)
    requires j < |row|
    ensures RowTriples(from, row[..j + 1]) == RowTriples(from, row[..j]) + PieceTriples(from, ParseSymbolKey(row[j].0), row[j].1)
  {
    assert row[..j + 1][..j] == row[..j];
  }

  lemma PieceTriplesSnoc(from: string, pieces: seq<string>, instr: Instruction, entry: seq<Triple>, k: nat)
    requires k < |pieces|
    ensures entry + PieceTriples(from, pieces[..k + 1], instr) == (entry + PieceTriples(from, pieces[..k], instr)) + [(from, pieces[k], instr)]
  {
    assert pieces[..k + 1][..k] == pieces[..k];
  }

  /** The innermost loop of `unique_symbols_states`: the symbols of one
      key, each with the cell's target and written symbol. */
  method CollectPieces(from: string, pieces: seq<string>, action: Instruction, symbols0: seq<string>, states0: seq<string>,
                       ghost base: seq<Triple>, ghost prior: seq<string>, ghost entry: seq<Triple>)
    returns (symbols: seq<string>, states: seq<string>)
    requires Collected(symbols0, states0, base, prior, entry)
    ensures Collected(symbols, states, base, prior, entry + PieceTriples(from, pieces, action))
  {
    symbols, states := symbols0, states0;
    ghost var done := entry;
    assert entry + PieceTriples(from, pieces[..0], action) == entry;
    var k := 0;
    while k < |pieces|
      invariant 0 <= k <= |pieces|
      invariant done == entry + PieceTriples(from, pieces[..k], action)
      invariant Collected(symbols, states, base, prior, done)
    {
      var symbol := pieces[k];
      CollectStep(symbols, states, base, prior, done, (from, symbol, action));
      symbols := PushNew(symbols, symbol);
      if Target(action).Some? {
        states := PushNew(states, Target(action).value);
      }
      if Written(action).Some? {
        symbols := PushNew(symbols, Written(action).value);
      }
      PieceTriplesSnoc(from, pieces, action, entry, k);
      done := done + [(from, symbol, action)];
      k := k + 1;
    }
    assert pieces[..k] == pieces;
  }

  /** The loop over one state's cells. */
  method CollectRow(from: string, row: Row, symbols0: seq<string>, states0: seq<string>, ghost base: seq<Triple>, ghost prior: seq<string>)
    returns (symbols: seq<string>, states: seq<string>)
    requires Collected(symbols0, states0, base, prior, [])
    ensures Collected(symbols, states, base, prior, RowTriples(from, row))
  {
    symbols, states := symbols0, states0;
    var j := 0;
    while j < |row|
      invariant 0 <= j <= |row|
      invariant Collected(symbols, states, base, prior, RowTriples(from, row[..j]))
    {
      var (key, action) := row[j];
      symbols, states := CollectPieces(from, ParseSymbolKey(key), action, symbols, states, base, prior, RowTriples(from, row[..j]));
      RowTriplesSnoc(from, row, j);
      j := j + 1;
    }
    assert row[..j] == row;
  }

  /** `unique_symbols_states(spec)`: walks the table, its cells and their
      key symbols, pushing every symbol and state not yet listed. */
  method UniqueSymbolsStates(table: Table) returns (symbols: seq<string>, states: seq<string>)
    ensures (symbols, states) == UniqueSpec(table)
  {
    symbols, states := [], [];
    var i := 0;
    while i < |table|
      invariant 0 <= i <= |table|
      invariant symbols == Dedup(SymbolOccurrences(Flatten(table[..i])))
      invariant states == Dedup(StateOccurrences(table[..i]))
    {
      var (from, cells) := table[i];
      ghost var prior := StateOccurrences(table[..i]) + [from];
      DedupSnoc(StateOccurrences(table[..i]), from);
      if from !in states {
        states := states + [from];
      }
      var row: Row := if cells.Some? then cells.value else [];
      assert Flatten(table[..i]) + [] == Flatten(table[..i]);
      assert prior + TargetOccurrences([]) == prior;
      symbols, states := CollectRow(from, row, symbols, states, Flatten(table[..i]), prior);
      assert RowTriples(from, row) == EntryTriples(table[i]);
      FlattenSnoc(table, i);
      assert prior + TargetOccurrences(EntryTriples(table[i])) == StateOccurrences(table[..i + 1]);
      i := i + 1;
    }
    assert table[..i] == table;
  }

  /** Taken together: no list repeats an entry; the symbols are exactly the
      read and written symbols of the flattened transitions; the states are
      exactly the table's states and the truthy targets. */
  lemma {:induction false} UniqueContents(table: Table)
    ensures NoDup(UniqueSpec(table).0) && NoDup(UniqueSpec(table).1)
    ensures forall x :: x in UniqueSpec(table).0 <==>
      exists t :: t in Flatten(table) && (x == t.1 || Written(t.2) == Some(x))
    ensures forall s :: s in UniqueSpec(table).1 <==>
      (HasState(table, s) || exists t :: t in Flatten(table) && Target(t.2) == Some(s))
  {
    DedupFacts(SymbolOccurrences(Flatten(table)));
    DedupFacts(StateOccurrences(table));
    SymbolOccurrencesMember(Flatten(table));
    StateOccurrencesMember(table);
  }

  /** The table lists a state named `s`. */
  predicate HasState(table: Table, s: string) {
    exists j :: 0 <= j < |table| && table[j].0 == s
  }

  lemma {:induction false} SymbolOccurrencesMember(ts: seq<Triple>)
    ensures forall x :: x in SymbolOccurrences(ts) <==> exists t :: t in ts && (x == t.1 || Written(t.2) == Some(x))
  {
    if |ts| > 0 {
      var p := ts[..|ts| - 1];
      SymbolOccurrencesMember(p);
      assert ts == p + [ts[|ts| - 1]];
    }
  }

  lemma {:induction false} TargetOccurrencesMember(ts: seq<Triple>)
    ensures forall s :: s in TargetOccurrences(ts) <==> exists t :: t in ts && Target(t.2) == Some(s)
  {
    if |ts| > 0 {
      var p := ts[..|ts| - 1];
      TargetOccurrencesMember(p);
      assert ts == p + [ts[|ts| - 1]];
    }
  }

  lemma {:induction false} StateOccurrencesMember(table: Table)
    ensures forall s :: s in StateOccurrences(table) <==>
      (HasState(table, s) || exists t :: t in Flatten(table) && Target(t.2) == Some(s))
  {
    if |table| > 0 {
      var p := table[..|table| - 1];
      var e := table[|table| - 1];
      StateOccurrencesMember(p);
      TargetOccurrencesMember(EntryTriples(e));
      forall s ensures HasState(table, s) <==> HasState(p, s) || e.0 == s {
        if HasState(table, s) {
          var j :| 0 <= j < |table| && table[j].0 == s;
          if j < |p| { assert p[j] == table[j]; }
        }
        if HasState(p, s) {
          var j :| 0 <= j < |p| && p[j].0 == s;
          assert table[j] == p[j];
        }
      }
    }
  }

  // ---------------------------------------------------------------------
  // unary

  /** `arr` without its first `x` (unchanged when `x` is absent). */
  function Remove(arr: seq<string>, x: string): (r: seq<string>)
    ensures x in arr ==> |r| == |arr| - 1
    ensures x !in arr ==> r == arr
  {
    if |arr| == 0 then arr
    else if arr[0] == x then arr[1..]
    else [arr[0]] + Remove(arr[1..], x)
  }

  /** `Remove` is `splice(indexOf(x), 1)`: the list around the first `x`. */
  lemma {:induction false} RemoveAt(arr: seq<string>, x: string, i: nat)
    requires i < |arr| && arr[i] == x && x !in arr[..i]
    ensures Remove(arr, x) == arr[..i] + arr[i + 1..]
  {
    if i == 0 {
      assert arr[..0] == [];
    } else {
      var t := arr[1..];
      assert arr[0] != x by { assert arr[0] == arr[..i][0]; }
      assert t[..i - 1] == arr[1..i];
      RemoveAt(t, x, i - 1);
      assert arr[..i] == [arr[0]] + t[..i - 1];
      assert arr[i + 1..] == t[i..];
    }
  }

  lemma RemoveSplit(arr: seq<string>, x: string)
    requires x in arr
    ensures arr == arr[..Position(arr, x)] + [x] + arr[Position(arr, x) + 1..]
    ensures Remove(arr, x) == arr[..Position(arr, x)] + arr[Position(arr, x) + 1..]
  {
    var i := Position(arr, x);
    RemoveAt(arr, x, i);
    assert arr == arr[..i] + [arr[i]] + arr[i + 1..];
  }

  /** `arr.splice(arr.indexOf(x), 1)` as written: when `x` is absent the
      index is -1, which removes the last element instead. */
  function SpliceAsWritten(arr: seq<string>, x: string): seq<string> {
    if x in arr then Remove(arr, x) else if |arr| > 0 then arr[..|arr| - 1] else arr
  }

  /** The codes `unary` assigns: `first` gets `code`, and the element at
      index `k` of `rest` gets `code` followed by `k + 1` copies of
      `code[0]`; a later element overwrites an equal earlier key. */
  function UnaryCodes(rest: seq<string>, first: string, code: string): map<string, string>
    requires |code| >= 1
  {
    if |rest| == 0 then map[first := code]
    else UnaryCodes(rest[..|rest| - 1], first, code)[rest[|rest| - 1] := code + Repeat(code[0], |rest|)]
  }

  /** `unary(arr, first, code)` with the removal of `first` done only when
      `first` is listed: returns what is left of `arr` and the codes. */
  method Unary(arr: seq<string>, first: string, code: string) returns (rest: seq<string>, codes: map<string, string>)
    requires |code| >= 1
    ensures rest == Remove(arr, first)
    ensures codes == UnaryCodes(rest, first, code)
  {
    rest := Remove(arr, first);
    codes := map[first := code];
    var c := code;
    var i := 0;
    while i < |rest|
      invariant 0 <= i <= |rest|
      invariant c == code + Repeat(code[0], i)
      invariant codes == UnaryCodes(rest[..i], first, code)
    {
      assert c[0] == code[0];
      c := c + [c[0]];
      assert rest[..i + 1][..i] == rest[..i];
      codes := codes[rest[i] := c];
      i := i + 1;
    }
    assert rest[..i] == rest;
  }

  lemma {:induction false} UnaryCodesFacts(rest: seq<string>, first: string, code: string)
    requires |code| >= 1 && NoDup(rest) && first !in rest
    ensures UnaryCodes(rest, first, code).Keys == {first} + set x | x in rest
    ensures UnaryCodes(rest, first, code)[first] == code
    ensures forall k :: 0 <= k < |rest| ==> UnaryCodes(rest, first, code)[rest[k]] == code + Repeat(code[0], k + 1)
  {
    if |rest| > 0 {
      var p := rest[..|rest| - 1];
      UnaryCodesFacts(p, first, code);
      forall k | 0 <= k < |rest| ensures UnaryCodes(rest, first, code)[rest[k]] == code + Repeat(code[0], k + 1) {
        if k < |p| { assert rest[k] == p[k] && rest[k] != rest[|rest| - 1]; }
      }
      assert rest == p + [rest[|rest| - 1]];
    }
  }

  lemma RemoveFacts(arr: seq<string>, x: string)
    requires NoDup(arr)
    ensures NoDup(Remove(arr, x)) && x !in Remove(arr, x)
    ensures forall y :: y in Remove(arr, x) <==> y in arr && y != x
  {
    if x in arr {
      RemoveIndex(arr, x);
      RemoveNoDup(arr, x);
      forall y
        ensures y in Remove(arr, x) <==> y in arr && y != x
      {
        RemoveMember(arr, x, y);
      }
    }
  }

  lemma RemoveNoDup(arr: seq<string>, x: string)
    requires NoDup(arr) && x in arr
    ensures NoDup(Remove(arr, x))
  {
    var i := Position(arr, x);
    var r := Remove(arr, x);
    RemoveIndex(arr, x);
    forall m, n | 0 <= m < n < |r|
      ensures r[m] != r[n]
    {
      assert r[m] == arr[if m < i then m else m + 1];
      assert r[n] == arr[if n < i then n else n + 1];
    }
  }

  lemma RemoveMember(arr: seq<string>, x: string, y: string)
    requires NoDup(arr) && x in arr
    ensures y in Remove(arr, x) <==> y in arr && y != x
  {
    var i := Position(arr, x);
    var r := Remove(arr, x);
    RemoveIndex(arr, x);
    if y in r {
      var m :| 0 <= m < |r| && r[m] == y;
      assert r[m] == arr[if m < i then m else m + 1];
    }
    if y in arr && y != x {
      var k :| 0 <= k < |arr| && arr[k] == y;
      assert k != i;
      var m := if k < i then k else k - 1;
      assert (if m < i then m else m + 1) == k;
      assert r[m] == arr[k];
    }
  }

  /** The list without its first `x`, place by place. */
  lemma RemoveIndex(arr: seq<string>, x: string)
    requires x in arr
    ensures var r, i := Remove(arr, x), Position(arr, x);
      |r| == |arr| - 1 && forall m :: 0 <= m < |r| ==> r[m] == arr[if m < i then m else m + 1]
  {
    RemoveSplit(arr, x);
    DropAt(arr, Position(arr, x));
  }

  /** The list without its element at `i`, place by place. */
  lemma DropAt<T>(arr: seq<T>, i: nat)
    requires i < |arr|
    ensures var r := arr[..i] + arr[i + 1..];
      |r| == |arr| - 1 && forall m :: 0 <= m < |r| ==> r[m] == arr[if m < i then m else m + 1]
  {
  }

  /** With the removal done only for a listed `first`, every element of a
      duplicate-free `arr`, and `first`, gets a code, and no two get the
      same one: `first` has `code` and the others longer and longer runs. */
  lemma UnaryComplete(arr: seq<string>, first: string, code: string)
    requires |code| >= 1 && NoDup(arr)
    ensures forall x :: x in UnaryCodes(Remove(arr, first), first, code) <==> x == first || x in arr
    ensures forall a, b :: a in UnaryCodes(Remove(arr, first), first, code) && b in UnaryCodes(Remove(arr, first), first, code) && a != b ==>
      UnaryCodes(Remove(arr, first), first, code)[a] != UnaryCodes(Remove(arr, first), first, code)[b]
  {
    var rest := Remove(arr, first);
    RemoveFacts(arr, first);
    UnaryCodesFacts(rest, first, code);
    UnaryCodesDistinct(rest, first, code);
  }

  /** No two keys share a code: the codes have different lengths. */
  lemma UnaryCodesDistinct(rest: seq<string>, first: string, code: string)
    requires |code| >= 1 && NoDup(rest) && first !in rest
    ensures forall a, b :: a in UnaryCodes(rest, first, code) && b in UnaryCodes(rest, first, code) && a != b ==>
      UnaryCodes(rest, first, code)[a] != UnaryCodes(rest, first, code)[b]
  {
    UnaryCodesFacts(rest, first, code);
    var codes := UnaryCodes(rest, first, code);
    forall a, b | a in codes && b in codes && a != b ensures codes[a] != codes[b] {
      if a != first { UnaryCodeLength(rest, first, code, a); }
      if b != first { UnaryCodeLength(rest, first, code, b); }
      RankInjective(rest, first, a, b);
    }
  }

  /** The place of `x` among the codes: `0` for `first`, `k + 1` for the
      element at index `k` of `rest`. */
  function Rank(rest: seq<string>, first: string, x: string): nat {
    if x == first || x !in rest then 0 else Position(rest, x) + 1
  }

  lemma UnaryCodeLength(rest: seq<string>, first: string, code: string, x: string)
    requires |code| >= 1 && NoDup(rest) && first !in rest && x in rest
    ensures x in UnaryCodes(rest, first, code) && |UnaryCodes(rest, first, code)[x]| == |code| + Rank(rest, first, x)
  {
    UnaryCodesFacts(rest, first, code);
    var k := Position(rest, x);
    assert UnaryCodes(rest, first, code)[rest[k]] == code + Repeat(code[0], k + 1);
  }

  lemma RankInjective(rest: seq<string>, first: string, a: string, b: string)
    requires first !in rest && a != b && (a == first || a in rest) && (b == first || b in rest)
    ensures Rank(rest, first, a) != Rank(rest, first, b)
  {
  }

  /** As written, when `first` is not listed the last element of `arr`
      is dropped and gets no code. */
  lemma UnaryDropsLast(arr: seq<string>, first: string, code: string)
    requires |code| >= 1 && NoDup(arr) && |arr| > 0 && first !in arr
    ensures arr[|arr| - 1] !in UnaryCodes(SpliceAsWritten(arr, first), first, code)
  {
    var rest := SpliceAsWritten(arr, first);
    assert NoDup(rest);
    assert arr[|arr| - 1] !in rest;
    UnaryCodesFacts(rest, first, code);
  }

  /** The smallest case: the sorted symbols `0`, `1` with a blank that no
      transition reads or writes. */
  lemma UnaryDropsLastExample()
    ensures UnaryCodes(SpliceAsWritten(["0", "1"], " "), " ", "1") == map[" " := "1", "0" := "11"]
  {
    var arr := ["0", "1"];
    assert " " !in arr;
    assert SpliceAsWritten(arr, " ") == ["0"];
    assert ["0"][..0] == [];
    assert Repeat('1', 1) == "1";
    assert "1" + Repeat('1', 1) == "11";
    assert UnaryCodes([], " ", "1") == map[" " := "1"];
    assert UnaryCodes(["0"], " ", "1") == map[" " := "1"]["0" := "11"];
  }

  /** The keys `unary` assigns, whatever the list: `first` and every
      element of `rest`. */
  lemma {:induction false} UnaryCodesKeys(rest: seq<string>, first: string, code: string)
    requires |code| >= 1
    ensures forall x :: x in UnaryCodes(rest, first, code) <==> x == first || x in rest
  {
    if |rest| > 0 {
      UnaryCodesKeys(rest[..|rest| - 1], first, code);
      assert rest == rest[..|rest| - 1] + [rest[|rest| - 1]];
    }
  }

  /** Every code `unary` makes from a one-character code is a run of that
      character. */
  lemma {:induction false} UnaryCodesRun(rest: seq<string>, first: string, c: char)
    ensures forall x :: x in UnaryCodes(rest, first, [c]) ==>
      |UnaryCodes(rest, first, [c])[x]| >= 1 && forall i :: 0 <= i < |UnaryCodes(rest, first, [c])[x]| ==> UnaryCodes(rest, first, [c])[x][i] == c
  {
    if |rest| > 0 {
      UnaryCodesRun(rest[..|rest| - 1], first, c);
    }
  }

  lemma RemoveKeeps(arr: seq<string>, x: string, y: string)
    requires y in arr && y != x
    ensures y in Remove(arr, x)
  {
    if x in arr {
      RemoveSplit(arr, x);
      var i := Position(arr, x);
      var k :| 0 <= k < |arr| && arr[k] == y;
      assert arr == arr[..i] + [x] + arr[i + 1..];
      if k < i { assert arr[..i][k] == y; } else { assert arr[i + 1..][k - i - 1] == y; }
    }
  }

  lemma {:induction false} NoDupCount(a: seq<string>, x: string)
    requires NoDup(a)
    ensures multiset(a)[x] <= 1
  {
    if |a| > 0 {
      var p := a[..|a| - 1];
      assert a == p + [a[|a| - 1]];
      NoDupCount(p, x);
      if x == a[|a| - 1] {
        assert x !in p;
      }
    }
  }

  /** A rearrangement of a list without repetitions has none either. */
  lemma NoDupPermutation(a: seq<string>, b: seq<string>)
    requires NoDup(a) && multiset(a) == multiset(b)
    ensures NoDup(b)
  {
    forall i, j | 0 <= i < j < |b| ensures b[i] != b[j] {
      if b[i] == b[j] {
        assert b == b[..i] + [b[i]] + b[i + 1..j] + [b[j]] + b[j + 1..];
        assert multiset(b)[b[i]] >= 2;
        NoDupCount(a, b[i]);
      }
    }
  }

  // ---------------------------------------------------------------------
  // pad_table

  /** `Math.max(...table.map(row => row[i].length))`. */
  function ColumnWidth(table: seq<seq<string>>, i: nat): (w: nat)
    requires forall j :: 0 <= j < |table| ==> i < |table[j]|
    ensures forall j :: 0 <= j < |table| ==> |table[j][i]| <= w
    ensures |table| > 0 ==> exists j :: 0 <= j < |table| && |table[j][i]| == w
  {
    if |table| == 0 then 0
    else
      var w := ColumnWidth(table[..|table| - 1], i);
      var last := |table[|table| - 1][i]|;
      assert forall j :: 0 <= j < |table| - 1 ==> table[..|table| - 1][j] == table[j];
      if last > w then last else w
  }

  /** `pad_table(table)`: every cell of a column that row 0 has is padded
      with spaces to the column's greatest width; an empty table, or a row
      shorter than row 0, is a `TypeError`. */
  function PadTable(table: seq<seq<string>>): Res<seq<seq<string>>> {
    if |table| == 0 || exists j :: 0 <= j < |table| && |table[j]| < |table[0]| then Err(Thrown("TypeError"))
    else
      Ok(seq(|table|, j requires 0 <= j < |table| =>
        seq(|table[j]|, i requires 0 <= i < |table[j]| =>
          if i < |table[0]| then PadEnd(table[j][i], ColumnWidth(table, i)) else table[j][i])))
  }

  /** Some cell of column `i` is left as it was: the column is no wider
      than its longest cell. */
  predicate Unpadded(table: seq<seq<string>>, r: seq<seq<string>>, i: nat) {
    exists j :: 0 <= j < |r| && j < |table| && i < |r[j]| && i < |table[j]| && r[j][i] == table[j][i]
  }

  /** One cell after padding: a cell of a column that row 0 has ends as
      long as the column's longest cell, with spaces added; any other cell
      is kept. */
  lemma PadCell(table: seq<seq<string>>, j: nat, i: nat)
    requires PadTable(table).Ok? && j < |table| && i < |table[j]|
    ensures var r := PadTable(table).value;
      && |r| == |table| && |r[j]| == |table[j]|
      && table[j][i] <= r[j][i] && (forall c :: |table[j][i]| <= c < |r[j][i]| ==> r[j][i][c] == ' ')
      && (i < |table[0]| ==> |r[j][i]| == ColumnWidth(table, i))
      && (i >= |table[0]| ==> r[j][i] == table[j][i])
  {
  }

  /** Padding succeeds exactly on a non-empty table whose rows are at
      least as long as row 0; then each cell keeps its text and gains only
      spaces, cells of one column end equally long and that length is the
      longest original cell, and cells beyond row 0's length are kept. */
  lemma PadTableFacts(table: seq<seq<string>>)
    ensures PadTable(table).Ok? <==> |table| > 0 && forall j :: 0 <= j < |table| ==> |table[j]| >= |table[0]|
    ensures PadTable(table).Ok? ==>
      var r := PadTable(table).value;
      |r| == |table| &&
      (forall j :: 0 <= j < |r| ==> |r[j]| == |table[j]|) &&
      (forall j, i :: 0 <= j < |r| && 0 <= i < |r[j]| ==>
        table[j][i] <= r[j][i] && forall c :: |table[j][i]| <= c < |r[j][i]| ==> r[j][i][c] == ' ') &&
      (forall j, k, i :: 0 <= j < |r| && 0 <= k < |r| && 0 <= i < |table[0]| ==> |r[j][i]| == |r[k][i]|) &&
      (forall i :: 0 <= i < |table[0]| ==> Unpadded(table, r, i)) &&
      (forall j, i :: 0 <= j < |r| && |table[0]| <= i < |r[j]| ==> r[j][i] == table[j][i])
  {
    if PadTable(table).Ok? {
      var r := PadTable(table).value;
      forall j, i | 0 <= j < |r| && 0 <= i < |r[j]|
        ensures table[j][i] <= r[j][i] && forall c :: |table[j][i]| <= c < |r[j][i]| ==> r[j][i][c] == ' '
        ensures |table[0]| <= i ==> r[j][i] == table[j][i]
      {
        PadCell(table, j, i);
      }
      forall j, k, i | 0 <= j < |r| && 0 <= k < |r| && 0 <= i < |table[0]|
        ensures |r[j][i]| == |r[k][i]|
      {
        PadCell(table, j, i);
        PadCell(table, k, i);
      }
      forall i | 0 <= i < |table[0]| ensures Unpadded(table, r, i) {
        var j :| 0 <= j < |table| && |table[j][i]| == ColumnWidth(table, i);
        PadCell(table, j, i);
        assert r[j][i] == table[j][i];
      }
    }
  }
}

/** The execution engine: a machine with a current state, a list of tapes
    and a transition function it consults on every step. The tape itself
    is described only by what the machine uses of it: `read`, `write`,
    `headLeft` and `headRight`. */
module Engine {
  import opened Wrappers
  import opened Text
  import opened Parser

  // ---------------------------------------------------------------------
  // Tapes

  /** What a tape holds: the cells written so far, the head position, and
      the blank every other cell shows. */
  datatype TapeState = TapeState(cells: map<int, char>, head: int, blank: char)

  /** `tape.read()`: the symbol under the head. */
  function ReadCell(t: TapeState): char {
    if t.head in t.cells then t.cells[t.head] else t.blank
  }

  /** The symbol at any position. */
  function CellAt(t: TapeState, p: int): char {
    if p in t.cells then t.cells[p] else t.blank
  }

  /** `tape.write(symbol)`: the cell under the head takes the symbol; an
      absent symbol (`undefined`) leaves the tape as it is. */
  function WriteCell(t: TapeState, w: Option<char>): (r: TapeState)
    ensures r.head == t.head && r.blank == t.blank
    ensures w.Some? ==> ReadCell(r) == w.value
    ensures w.None? ==> r == t
    ensures forall p :: p != t.head ==> CellAt(r, p) == CellAt(t, p)
  {
    if w.Some? then t.(cells := t.cells[t.head := w.value]) else t
  }

  /** `move(tape, direction)`: `R` moves the head right, `L` left, `H`
      leaves it; `None` is the `TypeError` thrown for anything else,
      including a missing direction. */
  function Move(t: TapeState, d: Option<char>): (r: Option<TapeState>)
    ensures r.Some? ==> r.value.cells == t.cells && r.value.blank == t.blank
    ensures r.Some? <==> d == Some('R') || d == Some('L') || d == Some('H')
  {
    match d
    case Some('R') => Some(t.(head := t.head + 1))
    case Some('L') => Some(t.(head := t.head - 1))
    case Some('H') => Some(t)
    case _ => None
  }

  /** Moving right then left, or left then right, returns to the same
      tape, and `H` changes nothing. */
  lemma MoveInverse(t: TapeState)
    ensures Move(Move(t, Some('R')).value, Some('L')) == Some(t)
    ensures Move(Move(t, Some('L')).value, Some('R')) == Some(t)
    ensures Move(t, Some('H')) == Some(t)
  {
  }

  /** Writing then reading gives the symbol written; the other cells keep
      their contents, and writing the symbol already there changes
      nothing that can be read. */
  lemma WriteRead(t: TapeState, c: char)
    ensures ReadCell(WriteCell(t, Some(c))) == c
    ensures forall p :: CellAt(WriteCell(t, Some(ReadCell(t))), p) == CellAt(t, p)
  {
  }

  /** A tape: written cells, a head, a blank. */
  class Tape {
    var cells: map<int, char>
    var head: int
    const blank: char

    constructor (blank: char, cells: map<int, char>, head: int)
      ensures Value() == TapeState(cells, head, blank)
    {
      this.blank := blank;
      this.cells := cells;
      this.head := head;
    }

    function Value(): TapeState
      reads this
    {
      TapeState(cells, head, blank)
    }

    function Read(): char
      reads this
    {
      ReadCell(Value())
    }

    method Write(w: Option<char>)
      modifies this
      ensures Value() == WriteCell(old(Value()), w)
    {
      if w.Some? {
        cells := cells[head := w.value];
      }
    }

    method HeadLeft()
      modifies this
      ensures Value() == old(Value()).(head := old(head) - 1)
    {
      head := head - 1;
    }

    method HeadRight()
      modifies this
      ensures Value() == old(Value()).(head := old(head) + 1)
    {
      head := head + 1;
    }
  }

  /** `move(tape, direction)` on a tape object: `false` is the `TypeError`,
      thrown before the tape is touched. */
  method MoveTape(tape: Tape, d: Option<char>) returns (ok: bool)
    modifies tape
    ensures ok == Move(old(tape.Value()), d).Some?
    ensures ok ==> tape.Value() == Move(old(tape.Value()), d).value
    ensures !ok ==> tape.Value() == old(tape.Value())
  {
    match d
    case Some('R') => tape.HeadRight(); ok := true;
    case Some('L') => tape.HeadLeft(); ok := true;
    case Some('H') => ok := true;
    case _ => ok := false;
  }

  /** One iteration of the loop of `step`: the tape is written, then moved;
      `false` is the `TypeError` of an invalid direction, after the write. */
  method StepTape(tape: Tape, instr: Instruction, i: nat) returns (ok: bool)
    requires instr.symbol.Some?
    modifies tape
    ensures ok == TapeAfter(old(tape.Value()), instr, i).Some?
    ensures ok ==> tape.Value() == TapeAfter(old(tape.Value()), instr, i).value
    ensures !ok ==> tape.Value() == WriteCell(old(tape.Value()), SymbolFor(instr, i))
  {
    tape.Write(SymbolFor(instr, i));
    ok := MoveTape(tape, DirectionFor(instr, i));
  }

  // ---------------------------------------------------------------------
  // The machine, as a function of its configuration

  /** The transition function: from the current state (absent once a
      transition without a next state has been taken) and the symbols read
      on all tapes to an instruction, or none when the machine halts. */
  type Transition = (Option<string>, string) -> Option<Instruction>

  /** The symbols under the heads, in tape order, concatenated. */
  function ReadAll(ts: seq<TapeState>): (r: string)
    ensures |r| == |ts| && forall i :: 0 <= i < |ts| ==> r[i] == ReadCell(ts[i])
  {
    if |ts| == 0 then "" else ReadAll(ts[..|ts| - 1]) + [ReadCell(ts[|ts| - 1])]
  }

  /** The symbol and the direction the instruction gives tape `i`; missing
      entries are `undefined`. */
  function SymbolFor(instr: Instruction, i: nat): Option<char>
    requires instr.symbol.Some?
  {
    if i < |instr.symbol.value| then instr.symbol.value[i] else None
  }

  function DirectionFor(instr: Instruction, i: nat): Option<char> {
    if i < |instr.move| then Some(instr.move[i]) else None
  }

  /** What tape `i` becomes under the instruction: written, then moved. */
  function TapeAfter(t: TapeState, instr: Instruction, i: nat): Option<TapeState>
    requires instr.symbol.Some?
  {
    Move(WriteCell(t, SymbolFor(instr, i)), DirectionFor(instr, i))
  }

  /** The loop of `step` from tape `i` on: each tape written and moved in
      turn. `false` means a `TypeError` stopped it: the instruction has no
      symbol list (reading `symbol[i]` of `undefined`), or a direction is
      invalid, in which case that tape has been written but not moved. */
  function ApplyFrom(ts: seq<TapeState>, instr: Instruction, i: nat): (bool, seq<TapeState>)
    requires i <= |ts|
    decreases |ts| - i
  {
    if i == |ts| then (true, ts)
    else if instr.symbol.None? then (false, ts)
    else
      var written := WriteCell(ts[i], SymbolFor(instr, i));
      match Move(written, DirectionFor(instr, i))
      case None => (false, ts[i := written])
      case Some(moved) => ApplyFrom(ts[i := moved], instr, i + 1)
  }

  /** How a step ends: an instruction was carried out (`true`), the machine
      had halted (`false`), or a JavaScript exception escaped. */
  datatype Outcome = Stepped | Halted | Threw(name: string)

  /** One step from a configuration: the outcome, the new state and the new
      tapes. The next state is assigned as the instruction gives it, absent
      or not. */
  function StepSpec(delta: Transition, state: Option<string>, ts: seq<TapeState>): (Outcome, Option<string>, seq<TapeState>) {
    var instr := delta(state, ReadAll(ts));
    if instr.None? then (Halted, state, ts)
    else
      var (ok, ts') := ApplyFrom(ts, instr.value, 0);
      if ok then (Stepped, instr.value.state, ts') else (Threw("TypeError"), state, ts')
  }

  /** The instruction's direction for tape `k` is `R`, `L` or `H`. */
  predicate DirOk(instr: Instruction, k: nat) {
    k < |instr.move| && IsDirection(instr.move[k])
  }

  /** The instruction has a symbol list and valid directions for every
      tape from `i` up to `n`. */
  predicate Carried(instr: Instruction, n: nat, i: nat) {
    instr.symbol.Some? && forall k :: i <= k < n ==> DirOk(instr, k)
  }

  lemma CarriedSplit(instr: Instruction, n: nat, i: nat)
    requires i < n && instr.symbol.Some?
    ensures Carried(instr, n, i) <==> DirOk(instr, i) && Carried(instr, n, i + 1)
  {
  }

  /** One tape of the loop. */
  lemma ApplyFromStep(ts: seq<TapeState>, instr: Instruction, i: nat)
    requires i < |ts| && instr.symbol.Some?
    ensures TapeAfter(ts[i], instr, i).Some? <==> DirOk(instr, i)
    ensures ApplyFrom(ts, instr, i) == match TapeAfter(ts[i], instr, i)
      case None => (false, ts[i := WriteCell(ts[i], SymbolFor(instr, i))])
      case Some(moved) => ApplyFrom(ts[i := moved], instr, i + 1)
  {
  }

  /** The tape loop succeeds exactly when there is a symbol list (or no tape
      is left) and every remaining direction is valid; then every tape from
      `i` is written and moved and the earlier ones keep their contents. */
  lemma {:induction false} ApplyFromMeaning(ts: seq<TapeState>, instr: Instruction, i: nat)
    requires i <= |ts|
    ensures var (ok, ts') := ApplyFrom(ts, instr, i);
      && |ts'| == |ts|
      && (ok <==> i == |ts| || Carried(instr, |ts|, i))
      && (forall k :: 0 <= k < i ==> ts'[k] == ts[k])
      && (ok && i < |ts| ==> forall k :: i <= k < |ts| ==> TapeAfter(ts[k], instr, k) == Some(ts'[k]))
    decreases |ts| - i
  {
    if i < |ts| && instr.symbol.Some? {
      ApplyFromStep(ts, instr, i);
      CarriedSplit(instr, |ts|, i);
      if TapeAfter(ts[i], instr, i).Some? {
        var moved := TapeAfter(ts[i], instr, i).value;
        ApplyFromMeaning(ts[i := moved], instr, i + 1);
      }
    }
  }

  /** `step` returns `false` exactly when the machine has halted, and then
      nothing changes; otherwise every tape is written and moved and the
      state becomes the instruction's next state, unless an invalid
      direction throws. */
  lemma StepMeaning(delta: Transition, state: Option<string>, ts: seq<TapeState>)
    ensures var (out, state', ts') := StepSpec(delta, state, ts); var instr := delta(state, ReadAll(ts));
      && (out == Halted <==> instr.None?)
      && (out == Halted ==> state' == state && ts' == ts)
      && |ts'| == |ts|
      && (out == Stepped <==> instr.Some? && (ts == [] || Carried(instr.value, |ts|, 0)))
      && (out == Stepped ==> (state' == instr.value.state
                              && forall k :: 0 <= k < |ts| ==> TapeAfter(ts[k], instr.value, k) == Some(ts'[k])))
      && (out.Threw? ==> state' == state)
  {
    var instr := delta(state, ReadAll(ts));
    if instr.Some? {
      ApplyFromMeaning(ts, instr.value, 0);
    }
  }

  // ---------------------------------------------------------------------
  // The machine object

  class TuringMachine {
    const transition: Transition
    var state: Option<string>
    const tapes: seq<Tape>

    /** Each tape appears once. */
    ghost predicate Valid()
      reads this
    {
      forall i, j :: 0 <= i < j < |tapes| ==> tapes[i] != tapes[j]
    }

    constructor (transition: Transition, startState: string, tapes: seq<Tape>)
      requires forall i, j :: 0 <= i < j < |tapes| ==> tapes[i] != tapes[j]
      ensures Valid()
      ensures this.transition == transition && state == Some(startState) && this.tapes == tapes
    {
      this.transition := transition;
      this.state := Some(startState);
      this.tapes := tapes;
    }

    /** The contents of all tapes, in order. */
    function Values(): (r: seq<TapeState>)
      reads tapes
      ensures |r| == |tapes| && forall i :: 0 <= i < |tapes| ==> r[i] == tapes[i].Value()
    {
      seq(|tapes|, i reads tapes requires 0 <= i < |tapes| => tapes[i].Value())
    }

    /** The `nextInstruction` getter, evaluated afresh on every access. */
    function NextInstruction(): Option<Instruction>
      reads this, tapes
    {
      transition(state, ReadAll(Values()))
    }

    /** The `isHalted` getter. */
    predicate IsHalted()
      reads this, tapes
    {
      NextInstruction().None?
    }

    /** `step()`: the outcome, state and tapes are those of `StepSpec`. */
    method Step() returns (r: Outcome)
      requires Valid()
      modifies this, tapes
      ensures (r, state, Values()) == StepSpec(transition, old(state), old(Values()))
      ensures r == Halted <==> old(IsHalted())
    {
      var instr := NextInstruction();
      if instr.None? {
        return Halted;
      }
      ghost var goal := ApplyFrom(Values(), instr.value, 0);
      var i := 0;
      while i < |tapes|
        invariant 0 <= i <= |tapes|
        invariant state == old(state)
        invariant ApplyFrom(Values(), instr.value, i) == goal
      {
        if instr.value.symbol.None? {
          return Threw("TypeError");
        }
        ghost var before := Values();
        ApplyFromStep(before, instr.value, i);
        var ok := StepTape(tapes[i], instr.value, i);
        UpdateOne(before, i);
        if !ok {
          return Threw("TypeError");
        }
        i := i + 1;
      }
      state := instr.value.state;
      return Stepped;
    }

    /** After tape `i` alone changed, the tape contents are the earlier
        ones with entry `i` replaced. */
    lemma UpdateOne(before: seq<TapeState>, i: nat)
      requires Valid() && i < |tapes| && |before| == |tapes|
      requires forall k :: 0 <= k < |tapes| && k != i ==> tapes[k].Value() == before[k]
      ensures Values() == before[i := tapes[i].Value()]
    {
    }

    /** `toString()`: the state (`undefined` when absent), then one line
      per tape as `show` renders it. */
    function ToString(show: TapeState -> string): string
      reads this, tapes
    {
      StateText(state) + "\n" + Join(Lines(Values(), show), "\n")
    }
  }

  function StateText(state: Option<string>): string {
    if state.Some? then state.value else "undefined"
  }

  function Lines(ts: seq<TapeState>, show: TapeState -> string): (r: seq<string>)
    ensures |r| == |ts| && forall i :: 0 <= i < |ts| ==> r[i] == show(ts[i])
  {
    seq(|ts|, i requires 0 <= i < |ts| => show(ts[i]))
  }

  /** Split at line breaks, the text of a machine is its state followed by
      one line per tape, when none of them holds a line break. */
  lemma ToStringLines(m: TuringMachine, show: TapeState -> string)
    requires '\n' !in StateText(m.state)
    requires |m.tapes| >= 1
    requires forall i :: 0 <= i < |m.tapes| ==> '\n' !in show(m.tapes[i].Value())
    ensures Split(m.ToString(show), '\n') == [StateText(m.state)] + Lines(m.Values(), show)
  {
    var parts := [StateText(m.state)] + Lines(m.Values(), show);
    assert parts[1..] == Lines(m.Values(), show);
    assert Join(parts, "\n") == m.ToString(show);
    assert forall i :: 0 <= i < |parts| ==> '\n' !in parts[i] by {
      forall i | 0 <= i < |parts| ensures '\n' !in parts[i] {
        if i > 0 { assert parts[i] == show(m.tapes[i - 1].Value()); }
      }
    }
    SplitJoin(parts, '\n');
  }
}

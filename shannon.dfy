/** The transformation after Shannon's second theorem: a single-tape
    machine over any alphabet becomes one over the two symbols `0` and `1`.
    Every symbol gets a binary code of a fixed width; every transition
    becomes a chain of transitions that read the code bit by bit, write the
    new code back and move the head a whole code to the left or right. */
module Shannon {
  import opened Wrappers
  import opened Text
  import opened Values
  import opened Errors
  import opened Parser
  import opened Transformations
  import Universal

  const TooFewReason := "It seems like you have too few symbols to apply Shennon's second theorem"

  /** The symbol that goes right after the blank, when there is one. */
  const Partial := "\U{2202}"

  // ---------------------------------------------------------------------
  // The order of the symbols

  /** `s.splice(s.indexOf(x), 1); s.unshift(x)` when `s` includes `x`. */
  function MoveFront(s: seq<string>, x: string): seq<string> {
    if x in s then [x] + Remove(s, x) else s
  }

  /** The symbols sorted, then `∂` moved to the front, then the blank. */
  function ShannonOrder(symbols: seq<string>, blank: char): seq<string> {
    MoveFront(MoveFront(Sort(symbols), Partial), [blank])
  }

  lemma MoveFrontFacts(s: seq<string>, x: string)
    ensures multiset(MoveFront(s, x)) == multiset(s)
    ensures x in s ==> MoveFront(s, x)[0] == x && MoveFront(s, x)[1..] == Remove(s, x)
  {
    if x in s {
      RemoveSplit(s, x);
    }
  }

  lemma SortedDropOne(a: seq<string>, x: string, b: seq<string>)
    requires Sorted(a + [x] + b)
    ensures Sorted(a + b)
  {
    var s, r := a + [x] + b, a + b;
    forall m, n | 0 <= m < n < |r| ensures LexLeq(r[m], r[n]) {
      var m' := if m < |a| then m else m + 1;
      var n' := if n < |a| then n else n + 1;
      assert r[m] == s[m'] && r[n] == s[n'];
    }
  }

  /** Removing an element keeps a list sorted. */
  lemma RemoveSorted(s: seq<string>, x: string)
    requires Sorted(s)
    ensures Sorted(Remove(s, x))
  {
    if x in s {
      RemoveSplit(s, x);
      var i := Position(s, x);
      SortedDropOne(s[..i], x, s[i + 1..]);
    }
  }

  /** The symbols that go in front: the blank, then `∂`, each when listed. */
  function Front(symbols: seq<string>, blank: char): seq<string> {
    (if [blank] in symbols then [[blank]] else [])
      + (if Partial in symbols && [blank] != Partial then [Partial] else [])
  }

  /** The order is a rearrangement of the symbols with the blank first and
      `∂` next, each when listed, and the others sorted. */
  lemma ShannonOrderFacts(symbols: seq<string>, blank: char)
    ensures var r := ShannonOrder(symbols, blank); var f := Front(symbols, blank);
      && multiset(r) == multiset(symbols)
      && |f| <= |r| && r[..|f|] == f
      && Sorted(r[|f|..])
  {
    var sorted := Sort(symbols);
    assert forall x :: x in symbols <==> x in multiset(symbols);
    assert forall x :: x in sorted <==> x in multiset(sorted);
    assert Front(symbols, blank) == Front(sorted, blank);
    MoveFrontFacts(sorted, Partial);
    MoveFrontFacts(MoveFront(sorted, Partial), [blank]);
    FrontShape(sorted, blank);
    RemoveSorted(sorted, Partial);
    RemoveSorted(Remove(sorted, Partial), [blank]);
    RemoveSorted(sorted, [blank]);
  }

  /** What the two moves to the front leave behind the front: the list
      with none, one or both moved symbols removed. */
  predicate Behind(t: seq<string>, s: seq<string>, blank: char) {
    t == s || t == Remove(s, Partial) || t == Remove(Remove(s, Partial), [blank]) || t == Remove(s, [blank])
  }

  lemma FrontShape(s: seq<string>, blank: char)
    ensures var r := MoveFront(MoveFront(s, Partial), [blank]); var f := Front(s, blank);
      |f| <= |r| && r[..|f|] == f && Behind(r[|f|..], s, blank)
  {
    var rest := Remove(s, Partial);
    if Partial in s {
      var d := [Partial] + rest;
      assert d[1..] == rest;
      assert [blank] in s <==> [blank] in d by {
        MoveFrontFacts(s, Partial);
        assert forall x :: x in s <==> x in multiset(s);
        assert forall x :: x in d <==> x in multiset(d);
      }
      var r := MoveFront(d, [blank]);
      if [blank] != Partial && [blank] in s {
        assert r == [[blank]] + ([Partial] + Remove(rest, [blank]));
        assert r[2..] == Remove(rest, [blank]);
      }
    }
  }

  // ---------------------------------------------------------------------
  // The codes

  /** `n.toString(2).padStart(size, '0')`. */
  function Code(n: nat, size: nat): string {
    PadStart(ToBinary(n), size, '0')
  }

  /** The codes the loop assigns: the symbol at index `n` gets `n` in
      binary, padded with zeros to `size` digits. */
  function BinaryCodes(order: seq<string>, size: nat): map<string, string> {
    if |order| == 0 then map[]
    else BinaryCodes(order[..|order| - 1], size)[order[|order| - 1] := Code(|order| - 1, size)]
  }

  method AssignCodes(order: seq<string>, size: nat) returns (codes: map<string, string>)
    ensures codes == BinaryCodes(order, size)
  {
    codes := map[];
    var n := 0;
    while n < |order|
      invariant 0 <= n <= |order|
      invariant codes == BinaryCodes(order[..n], size)
    {
      assert order[..n + 1][..n] == order[..n];
      codes := codes[order[n] := Code(n, size)];
      n := n + 1;
    }
    assert order[..n] == order;
  }

  /** Below `2^size`, the padded binary form is the `size`-digit code. */
  lemma CodeIsBinaryCode(n: nat, size: nat)
    requires size >= 1 && n < Pow2(size)
    ensures Code(n, size) == BinaryCode(n, size)
  {
    ToBinaryLength(n, size);
  }

  /** The symbols listed are the ones with a code. */
  lemma {:induction false} BinaryCodesKeys(order: seq<string>, size: nat)
    ensures BinaryCodes(order, size).Keys == set x | x in order
  {
    if |order| > 0 {
      var p := order[..|order| - 1];
      BinaryCodesKeys(p, size);
      assert order == p + [order[|order| - 1]];
    }
  }

  /** With no symbol listed twice, the symbol at index `n` has the padded
      binary form of `n`. */
  lemma {:induction false} BinaryCodesAt(order: seq<string>, size: nat)
    requires NoDup(order)
    ensures forall n :: 0 <= n < |order| ==> order[n] in BinaryCodes(order, size) && BinaryCodes(order, size)[order[n]] == Code(n, size)
  {
    if |order| > 0 {
      var p := order[..|order| - 1];
      BinaryCodesAt(p, size);
      forall n | 0 <= n < |p| ensures order[n] in BinaryCodes(order, size) && BinaryCodes(order, size)[order[n]] == Code(n, size) {
        assert order[n] == p[n] && order[n] != order[|order| - 1];
      }
    }
  }

  /** With no symbol listed twice and at most `2^size` of them, the symbol
      at index `n` has the `size`-digit code of `n`, and nothing else has a
      code. */
  lemma BinaryCodesFacts(order: seq<string>, size: nat)
    requires NoDup(order) && size >= 1 && |order| <= Pow2(size)
    ensures BinaryCodes(order, size).Keys == set x | x in order
    ensures forall n :: 0 <= n < |order| ==> BinaryCodes(order, size)[order[n]] == BinaryCode(n, size)
  {
    BinaryCodesKeys(order, size);
    BinaryCodesAt(order, size);
    forall n | 0 <= n < |order| ensures BinaryCodes(order, size)[order[n]] == BinaryCode(n, size) {
      CodeIsBinaryCode(n, size);
    }
  }

  /** Every code has `size` digits, and there are at least two. */
  predicate CodesShaped(codes: map<string, string>, size: nat) {
    size >= 2 && forall k :: k in codes ==> |codes[k]| == size
  }

  lemma {:induction false} BinaryCodesShaped(order: seq<string>, size: nat)
    requires 2 <= size && |order| <= Pow2(size)
    ensures CodesShaped(BinaryCodes(order, size), size)
  {
    if |order| > 0 {
      BinaryCodesShaped(order[..|order| - 1], size);
      CodeIsBinaryCode(|order| - 1, size);
    }
  }

  // ---------------------------------------------------------------------
  // The table under construction

  /** An instruction of the new table: the code written, the move, the
      next state. */
  datatype Entry = Entry(symbol: string, move: string, state: string)

  /** The arguments of one call of `add`. */
  datatype Call = Call(from: string, symbol: string, to: string, write: string, move: string)

  function EntryOf(c: Call): Entry {
    Entry(c.write, c.move, c.to)
  }

  /** The new table: each state's row, or `None` for the `null` of a
      halting state. */
  type Rows = map<string, Option<map<string, Entry>>>

  /** The table and the listing of the instructions added, where `None` is
      the `null` that ends the chain of a transition. */
  datatype Book = Book(res: Rows, log: seq<Option<Call>>)

  /** `add`: a state's row is created on first use; the first instruction
      for a state and a symbol is kept and listed, a later one is ignored;
      a halting state's `null` row cannot be read, a `TypeError`. */
  function AddSpec(b: Book, c: Call): Res<Book> {
    if c.from in b.res && b.res[c.from].None? then Err(Thrown("TypeError"))
    else
      var row := if c.from in b.res then b.res[c.from].value else map[];
      if c.symbol in row then Ok(b)
      else Ok(Book(b.res[c.from := Some(row[c.symbol := EntryOf(c)])], b.log + [Some(c)]))
  }

  /** Several calls of `add` in order, up to the first that throws. */
  function ApplyCalls(b: Book, cs: seq<Call>): (r: Res<Book>)
    ensures r.Err? ==> r == Err(Thrown("TypeError"))
  {
    if |cs| == 0 then Ok(b)
    else
      var b' :- ApplyCalls(b, cs[..|cs| - 1]);
      AddSpec(b', cs[|cs| - 1])
  }

  /** The `null` pushed after a transition unless the listing already
      ends with one; an empty listing's last element is `undefined`, which
      is not `null`. */
  function Separate(b: Book): Book {
    if |b.log| == 0 || b.log[|b.log| - 1].Some? then b.(log := b.log + [None]) else b
  }

  /** The states whose table entry is `null` marked as halting in `res`. */
  function Halting(res: Rows, table: Table): Rows {
    if |table| == 0 then res
    else
      var r := Halting(res, table[..|table| - 1]);
      var e := table[|table| - 1];
      if e.1.None? then r[e.0 := None] else r
  }

  lemma {:induction false} ApplyCallsAbort(b: Book, cs: seq<Call>, k: nat)
    requires k <= |cs| && ApplyCalls(b, cs[..k]).Err?
    ensures ApplyCalls(b, cs).Err?
    decreases |cs| - k
  {
    if k == |cs| {
      assert cs[..k] == cs;
    } else {
      assert cs[..k + 1][..k] == cs[..k];
      ApplyCallsAbort(b, cs, k + 1);
    }
  }

  /** The table `res` and the listing `instructions` that
      `shennon2_transform` builds, with `add` and the separators. */
  class Builder {
    var res: Rows
    var log: seq<Option<Call>>

    function State(): Book
      reads this
    {
      Book(res, log)
    }

    constructor ()
      ensures res == map[] && log == []
    {
      res, log := map[], [];
    }

    /** `add(from_state, symbol, to_state, write, move)`; `false` when it
        throws. */
    method Add(c: Call) returns (ok: bool)
      modifies this
      ensures ok == AddSpec(old(State()), c).Ok?
      ensures ok ==> State() == AddSpec(old(State()), c).value
      ensures !ok ==> State() == old(State())
    {
      if c.from in res && res[c.from].None? {
        return false;
      }
      var row := if c.from in res then res[c.from].value else map[];
      if c.symbol !in row {
        res := res[c.from := Some(row[c.symbol := EntryOf(c)])];
        log := log + [Some(c)];
      }
      return true;
    }

    /** The calls of `add` one after another, up to the first that throws. */
    method AddEach(cs: seq<Call>) returns (ok: bool)
      modifies this
      ensures ok == ApplyCalls(old(State()), cs).Ok?
      ensures ok ==> State() == ApplyCalls(old(State()), cs).value
    {
      ghost var b0 := State();
      var j := 0;
      while j < |cs|
        invariant 0 <= j <= |cs|
        invariant ApplyCalls(b0, cs[..j]) == Ok(State())
      {
        assert cs[..j + 1][..j] == cs[..j];
        ok := Add(cs[j]);
        if !ok {
          ApplyCallsAbort(b0, cs, j + 1);
          return;
        }
        j := j + 1;
      }
      assert cs[..j] == cs;
      ok := true;
    }

    /** `if (instructions[instructions.length - 1] !== null) instructions.push(null)`. */
    method Separator()
      modifies this
      ensures State() == Separate(old(State()))
    {
      if |log| == 0 || log[|log| - 1].Some? {
        log := log + [None];
      }
    }

    /** The loop that sets `res[from_state] = null` for every halting state. */
    method MarkHalting(table: Table)
      modifies this
      ensures res == Halting(old(res), table) && log == old(log)
    {
      ghost var r0 := res;
      var i := 0;
      while i < |table|
        invariant 0 <= i <= |table|
        invariant res == Halting(r0, table[..i]) && log == old(log)
      {
        assert table[..i + 1][..i] == table[..i];
        if table[i].1.None? {
          res := res[table[i].0 := None];
        }
        i := i + 1;
      }
      assert table[..i] == table;
    }
  }

  // ---------------------------------------------------------------------
  // The chain of one transition

  /** `${state}_${part}`. */
  function Sub(state: string, part: string): string {
    state + "_" + part
  }

  /** `${to_state}_${move}_move_${i}`. */
  function MoveState(to: string, m: string, i: nat): string {
    to + "_" + m + "_move_" + NatToString(i)
  }

  /** Read the code `sym` bit by bit moving right, remembering the bits
      read in the state name, and stay on the last bit. */
  function ReadCalls(from: string, sym: string): seq<Call>
    requires |sym| >= 2
  {
    var s := |sym|;
    [Call(from, [sym[0]], Sub(from, [sym[0]]), [sym[0]], "R")]
      + seq(s - 2, j requires 0 <= j < s - 2 => Call(Sub(from, sym[..j + 1]), [sym[j + 1]], Sub(from, sym[..j + 2]), [sym[j + 1]], "R"))
      + [Call(Sub(from, sym[..s - 1]), [sym[s - 1]], Sub(from, sym), [sym[s - 1]], "H")]
  }

  /** With the whole code read, go to the state that knows the new state,
      the move and the code to write. */
  function DecideCall(from: string, sym: string, to: string, m: string, w: string): Call
    requires |sym| >= 1
  {
    Call(Sub(from, sym), [sym[|sym| - 1]], to + "_" + m + "_" + w, [sym[|sym| - 1]], "H")
  }

  /** Write the new code `w` from its last bit back to its first, moving
      left, forgetting a bit of the state name at each step. */
  function WriteCalls(sym: string, to: string, m: string, w: string): seq<Call>
    requires |sym| >= 2 && |w| == |sym|
  {
    var s := |sym|;
    var p := to + "_" + m + "_";
    seq(s - 1, j requires 0 <= j < s - 1 => var i := s - 1 - j; Call(p + w[..i + 1], [sym[i]], p + w[..i], [w[i]], "L"))
      + [Call(p + [w[0]], [sym[0]], to + "_" + m, [w[0]], "H")]
  }

  /** Move the head a whole code to the right: stay once, then step right
      over the code just written, counting down, into `to`. */
  function RightCalls(to: string, w: string): seq<Call>
    requires |w| >= 2
  {
    var s := |w|;
    [Call(to + "_R", [w[0]], MoveState(to, "R", s), [w[0]], "H")]
      + RightLoop(to, w)
      + [Call(MoveState(to, "R", 1), [w[s - 1]], to, [w[s - 1]], "R")]
  }

  /** The step right over bit `k - 1` of the code, for `1 <= k <= |w|`. */
  function RightStep(to: string, w: string, k: nat): Call
    requires 1 <= k <= |w|
  {
    var s := |w|;
    Call(MoveState(to, "R", s - k + 1), [w[k - 1]], if k == s then to else MoveState(to, "R", s - k), [w[k - 1]], "R")
  }

  /** The loop of the rightward move: a step right over every bit but the
      last, counting down from `|w|` to 2. */
  function RightLoop(to: string, w: string): (r: seq<Call>)
    requires |w| >= 2
    ensures |r| == |w| - 1 && forall j :: 0 <= j < |r| ==> r[j] == RightStep(to, w, j + 1)
  {
    var s := |w|;
    seq(s - 1, j requires 0 <= j < s - 1 => var i := s - j; Call(MoveState(to, "R", i), [w[s - i]], MoveState(to, "R", i - 1), [w[s - i]], "R"))
  }

  /** The loop of the leftward move: for each bit position from `s - 1`
      down to 2, a step left over a `0` and one over a `1`. */
  function LeftLoop(to: string, s: nat): (r: seq<Call>)
    requires s >= 2
    ensures |r| == 2 * (s - 2) && forall k :: 0 <= k < |r| ==> r[k] == LeftStep(to, s, k + 2)
  {
    var r := seq(2 * (s - 2), k requires 0 <= k < 2 * (s - 2) =>
      var i := s - 1 - k / 2;
      var bit := if k % 2 == 0 then "0" else "1";
      Call(MoveState(to, "L", i), bit, MoveState(to, "L", i - 1), bit, "L"));
    assert forall k :: 0 <= k < |r| ==> (k + 2) / 2 == k / 2 + 1 && (k + 2) % 2 == k % 2;
    r
  }

  /** Move the head a whole code to the left: stay once, step left once,
      then step left over either bit, counting down, into `to`. */
  function LeftCalls(to: string, w: string): seq<Call>
    requires |w| >= 2
  {
    var s := |w|;
    [Call(to + "_L", [w[0]], MoveState(to, "L", s), [w[0]], "H"), Call(MoveState(to, "L", s), [w[0]], MoveState(to, "L", s - 1), [w[0]], "L")]
      + LeftLoop(to, s)
      + [Call(MoveState(to, "L", 1), "0", to, "0", "L"), Call(MoveState(to, "L", 1), "1", to, "1", "L")]
  }

  /** Move the head a whole code to the right or to the left, or not at
      all, and enter the new state; another move adds nothing. */
  function MoveCalls(to: string, m: string, w: string): seq<Call>
    requires |w| >= 2
  {
    if m == "R" then RightCalls(to, w)
    else if m == "H" then [Call(to + "_" + m, [w[0]], to, [w[0]], "H")]
    else if m == "L" then LeftCalls(to, w)
    else []
  }

  /** Every call of `add` for the transition from `from` reading the code
      `sym`, to `to` with the move `m` writing the code `w`. */
  function TransitionCalls(from: string, sym: string, to: string, m: string, w: string): seq<Call>
    requires |sym| >= 2 && |w| == |sym|
  {
    ReadCalls(from, sym) + [DecideCall(from, sym, to, m, w)] + WriteCalls(sym, to, m, w) + MoveCalls(to, m, w)
  }

  // ---------------------------------------------------------------------
  // The shape of a chain

  /** Each call starts where the one before ends, or is an alternative of
      it: the same states, another symbol read. */
  predicate Linked(cs: seq<Call>) {
    forall k :: 0 <= k < |cs| - 1 ==>
      cs[k + 1].from == cs[k].to || (cs[k + 1].from == cs[k].from && cs[k + 1].to == cs[k].to)
  }

  /** Every call writes back the symbol it reads. */
  predicate LeavesTape(cs: seq<Call>) {
    forall k :: 0 <= k < |cs| ==> cs[k].write == cs[k].symbol
  }

  lemma LinkedAppend(a: seq<Call>, b: seq<Call>)
    requires Linked(a) && Linked(b)
    requires |a| > 0 && |b| > 0 && b[0].from == a[|a| - 1].to
    ensures Linked(a + b)
  {
    var c := a + b;
    forall k | 0 <= k < |c| - 1
      ensures c[k + 1].from == c[k].to || (c[k + 1].from == c[k].from && c[k + 1].to == c[k].to)
    {
      if k + 1 < |a| {
        assert c[k] == a[k] && c[k + 1] == a[k + 1];
      } else if k + 1 == |a| {
        assert c[k] == a[|a| - 1] && c[k + 1] == b[0];
      } else {
        assert c[k] == b[k - |a|] && c[k + 1] == b[k - |a| + 1];
      }
    }
  }

  /** The reading calls: the `k`-th reads bit `k` of `sym`, leaves it,
      and goes to the state that remembers the first `k + 1` bits, moving
      right except on the last bit. */
  lemma ReadCallsAt(from: string, sym: string)
    requires |sym| >= 2
    ensures var r := ReadCalls(from, sym);
      && |r| == |sym|
      && forall k :: 0 <= k < |sym| ==>
        r[k] == Call(if k == 0 then from else Sub(from, sym[..k]), [sym[k]], Sub(from, sym[..k + 1]), [sym[k]],
                     if k < |sym| - 1 then "R" else "H")
  {
    assert sym[..|sym|] == sym;
  }

  /** The writing calls: the `j`-th writes bit `|w| - 1 - j` of `w` over
      the same bit of `sym`, moving left except on the first bit, and
      forgets a bit of the state name. */
  lemma WriteCallsAt(sym: string, to: string, m: string, w: string)
    requires |sym| >= 2 && |w| == |sym|
    ensures var r := WriteCalls(sym, to, m, w); var s := |sym|; var p := to + "_" + m + "_";
      && |r| == s
      && forall j :: 0 <= j < s ==>
        var i := s - 1 - j;
        r[j] == Call(p + w[..i + 1], [sym[i]], if i == 0 then to + "_" + m else p + w[..i], [w[i]], if i > 0 then "L" else "H")
  {
    assert w[..1] == [w[0]];
  }

  /** Moving right: stay once, then `|w|` steps right over the code just
      written, counting down, into `to`. */
  lemma MoveRightAt(to: string, w: string)
    requires |w| >= 2
    ensures var r := RightCalls(to, w); var s := |w|;
      && |r| == s + 1
      && r[0] == Call(to + "_R", [w[0]], MoveState(to, "R", s), [w[0]], "H")
      && forall k :: 1 <= k <= s ==> r[k] == RightStep(to, w, k)
  {
    var s := |w|;
    var r := RightCalls(to, w);
    var loop := RightLoop(to, w);
    var last := [Call(MoveState(to, "R", 1), [w[s - 1]], to, [w[s - 1]], "R")];
    assert r == [r[0]] + loop + last;
    forall k | 1 <= k <= s
      ensures r[k] == RightStep(to, w, k)
    {
      if k < s {
        assert r[k] == loop[k - 1];
      } else {
        assert r[k] == last[0];
      }
    }
  }

  /** The calls read `sym` bit by bit and leave it. */
  predicate ReadsBits(r: seq<Call>, sym: string) {
    |r| == |sym| && forall k :: 0 <= k < |r| ==> r[k].symbol == [sym[k]] && r[k].write == [sym[k]]
  }

  /** The calls write `w` over `sym` from the last bit to the first. */
  predicate WritesBack(r: seq<Call>, sym: string, w: string) {
    |r| == |sym| == |w| && forall j :: 0 <= j < |r| ==> r[j].symbol == [sym[|r| - 1 - j]] && r[j].write == [w[|r| - 1 - j]]
  }

  lemma ReadPhase(from: string, sym: string)
    requires |sym| >= 2
    ensures var r := ReadCalls(from, sym);
      && Linked(r) && ReadsBits(r, sym)
      && r[0].from == from && r[|r| - 1].to == Sub(from, sym)
  {
    ReadCallsAt(from, sym);
  }

  lemma WritePhase(sym: string, to: string, m: string, w: string)
    requires |sym| >= 2 && |w| == |sym|
    ensures var r := WriteCalls(sym, to, m, w);
      && Linked(r) && WritesBack(r, sym, w)
      && r[0].from == to + "_" + m + "_" + w && r[|r| - 1].to == to + "_" + m
  {
    WriteCallsAt(sym, to, m, w);
    assert w[..|w|] == w;
  }

  /** The moving calls start from `to_m`, are linked, leave the tape and
      end in `to`. */
  predicate MovesOn(r: seq<Call>, to: string, m: string) {
    |r| > 0 && Linked(r) && LeavesTape(r) && r[0].from == to + "_" + m && r[|r| - 1].to == to
  }

  lemma MoveRightPhase(to: string, w: string)
    requires |w| >= 2
    ensures MovesOn(MoveCalls(to, "R", w), to, "R")
  {
    MoveRightAt(to, w);
    var r := RightCalls(to, w);
    forall k | 0 <= k < |r| - 1
      ensures r[k + 1].from == r[k].to
    {
      assert r[k + 1] == RightStep(to, w, k + 1);
      if k > 0 {
        assert r[k] == RightStep(to, w, k);
      }
    }
    forall k | 0 <= k < |r|
      ensures r[k].write == r[k].symbol
    {
      if k > 0 {
        assert r[k] == RightStep(to, w, k);
      }
    }
    assert r[|r| - 1] == RightStep(to, w, |w|);
    assert to + "_" + "R" == to + "_R";
  }

  /** The `k`-th call moving left, from `k = 2` on: two calls per bit
      position, one for each bit, counting down into `to`. */
  function LeftStep(to: string, s: nat, k: nat): Call
    requires 2 <= k < 2 * s
  {
    var i := s - k / 2;
    var bit := if k % 2 == 0 then "0" else "1";
    Call(MoveState(to, "L", i), bit, if i == 1 then to else MoveState(to, "L", i - 1), bit, "L")
  }

  /** The calls that move the head left by a whole code: stay once,
      then `|w|` steps left, over either bit after the first, counting
      down, into `to`. */
  predicate LeftSteps(r: seq<Call>, to: string, w: string)
    requires |w| >= 2
  {
    var s := |w|;
    && |r| == 2 * s
    && r[0] == Call(to + "_L", [w[0]], MoveState(to, "L", s), [w[0]], "H")
    && r[1] == Call(MoveState(to, "L", s), [w[0]], MoveState(to, "L", s - 1), [w[0]], "L")
    && forall k :: 2 <= k < 2 * s ==> r[k] == LeftStep(to, s, k)
  }

  /** Moving left: stay once, then `|w|` steps left, over either bit after
      the first, counting down, into `to`. */
  lemma MoveLeftAt(to: string, w: string)
    requires |w| >= 2
    ensures var r := LeftCalls(to, w); var s := |w|;
      && |r| == 2 * s
      && r[0] == Call(to + "_L", [w[0]], MoveState(to, "L", s), [w[0]], "H")
      && r[1] == Call(MoveState(to, "L", s), [w[0]], MoveState(to, "L", s - 1), [w[0]], "L")
      && forall k :: 2 <= k < 2 * s ==> r[k] == LeftStep(to, s, k)
  {
    var s := |w|;
    var r := LeftCalls(to, w);
    var head := [r[0], r[1]];
    var loop := LeftLoop(to, s);
    var tail := [Call(MoveState(to, "L", 1), "0", to, "0", "L"), Call(MoveState(to, "L", 1), "1", to, "1", "L")];
    assert r == head + loop + tail;
    forall k | 2 <= k < 2 * s
      ensures r[k] == LeftStep(to, s, k)
    {
      if k < 2 * s - 2 {
        assert r[k] == loop[k - 2];
      } else {
        assert r[k] == tail[k - (2 * s - 2)];
        assert k / 2 == s - 1;
      }
    }
  }

  /** Consecutive steps left are linked. */
  lemma LeftStepLinked(to: string, s: nat, k: nat)
    requires 2 <= k && k + 1 < 2 * s
    ensures var a, b := LeftStep(to, s, k), LeftStep(to, s, k + 1);
      b.from == a.to || (b.from == a.from && b.to == a.to)
  {
    if k % 2 == 0 {
      assert (k + 1) / 2 == k / 2;
    } else {
      assert (k + 1) / 2 == k / 2 + 1;
    }
  }

  lemma LeftStepsLinked(r: seq<Call>, to: string, w: string)
    requires |w| >= 2 && LeftSteps(r, to, w)
    ensures Linked(r) && LeavesTape(r) && r[0].from == to + "_L" && r[|r| - 1].to == to
  {
    var s := |w|;
    forall k | 0 <= k < |r| - 1
      ensures r[k + 1].from == r[k].to || (r[k + 1].from == r[k].from && r[k + 1].to == r[k].to)
    {
      if k >= 2 {
        LeftStepLinked(to, s, k);
      }
    }
    assert (2 * s - 1) / 2 == s - 1;
  }

  lemma MoveLeftPhase(to: string, w: string)
    requires |w| >= 2
    ensures MovesOn(MoveCalls(to, "L", w), to, "L")
  {
    MoveLeftAt(to, w);
    LeftStepsLinked(MoveCalls(to, "L", w), to, w);
  }

  /** The moving calls start from `to_m` and end in `to` for the three
      moves, never changing the tape; another move adds no call. */
  lemma MovePhase(to: string, m: string, w: string)
    requires |w| >= 2
    ensures m == "R" || m == "H" || m == "L" ==> MovesOn(MoveCalls(to, m, w), to, m)
    ensures m != "R" && m != "H" && m != "L" ==> MoveCalls(to, m, w) == []
  {
    if m == "R" {
      MoveRightPhase(to, w);
    } else if m == "H" {
      MoveHaltPhase(to, w);
    } else if m == "L" {
      MoveLeftPhase(to, w);
    }
  }

  lemma MoveHaltPhase(to: string, w: string)
    requires |w| >= 2
    ensures MovesOn(MoveCalls(to, "H", w), to, "H")
  {
  }

  /** The calls up to the new code written: read, decide, write back. */
  lemma ChainHead(from: string, sym: string, to: string, m: string, w: string)
    requires |sym| >= 2 && |w| == |sym|
    ensures var head := ReadCalls(from, sym) + [DecideCall(from, sym, to, m, w)] + WriteCalls(sym, to, m, w);
      var s := |sym|;
      && |head| == 2 * s + 1 && Linked(head) && head[0].from == from && head[2 * s].to == to + "_" + m
      && ReadsBits(head[..s], sym) && WritesBack(head[s + 1..], sym, w)
  {
    var rd, dc, wr := ReadCalls(from, sym), DecideCall(from, sym, to, m, w), WriteCalls(sym, to, m, w);
    ReadPhase(from, sym);
    WritePhase(sym, to, m, w);
    LinkedAppend(rd, [dc]);
    LinkedAppend(rd + [dc], wr);
    var head := rd + [dc] + wr;
    assert head[..|sym|] == rd;
    assert head[|sym| + 1..] == wr;
  }

  /** The whole chain of a transition starts in its source state, reads
      the source code bit by bit without changing it, writes the new code
      back from its last bit to its first, and ends in the new state
      without changing the tape again; with a move other than `R`, `H`
      and `L` it ends in `to_m`, which has no instruction of its own. */
  lemma TransitionChain(from: string, sym: string, to: string, m: string, w: string)
    requires |sym| >= 2 && |w| == |sym|
    ensures var cs := TransitionCalls(from, sym, to, m, w); var s := |sym|;
      && |cs| > 2 * s && Linked(cs) && cs[0].from == from
      && cs[|cs| - 1].to == (if m == "R" || m == "H" || m == "L" then to else to + "_" + m)
      && ReadsBits(cs[..s], sym) && WritesBack(cs[s + 1..2 * s + 1], sym, w)
      && LeavesTape(cs[2 * s + 1..])
  {
    var s := |sym|;
    var head := ReadCalls(from, sym) + [DecideCall(from, sym, to, m, w)] + WriteCalls(sym, to, m, w);
    var mv := MoveCalls(to, m, w);
    ChainHead(from, sym, to, m, w);
    MovePhase(to, m, w);
    var cs := TransitionCalls(from, sym, to, m, w);
    assert cs == head + mv;
    assert cs[..s] == head[..s];
    assert cs[s + 1..2 * s + 1] == head[s + 1..];
    assert cs[2 * s + 1..] == mv;
    if mv != [] {
      LinkedAppend(head, mv);
    }
  }

  // ---------------------------------------------------------------------
  // The whole transformation

  /** `String(array)`: the elements joined with commas, a hole as nothing. */
  function ArrayString(cells: seq<Option<char>>): string {
    Join(seq(|cells|, i requires 0 <= i < |cells| => if cells[i].Some? then [cells[i].value] else ""), ",")
  }

  /** `action.symbol || raw_symbol`, as the key its code is looked up by. */
  function WriteKey(t: Triple): string {
    if t.2.symbol.Some? then ArrayString(t.2.symbol.value) else t.1
  }

  /** One flattened transition: look up the codes read and written (a
      missing one is `undefined`, whose bits cannot be read), add its
      chain, then the separator. */
  function TransitionStep(b: Book, t: Triple, codes: map<string, string>, size: nat): (r: Res<Book>)
    requires CodesShaped(codes, size)
    ensures r.Err? ==> r == Err(Thrown("TypeError"))
  {
    if t.1 !in codes || WriteKey(t) !in codes then Err(Thrown("TypeError"))
    else
      var b' :- ApplyCalls(b, TransitionCalls(t.0, codes[t.1], Universal.NewState(t), t.2.move, codes[WriteKey(t)]));
      Ok(Separate(b'))
  }

  function Steps(b: Book, ts: seq<Triple>, codes: map<string, string>, size: nat): (r: Res<Book>)
    requires CodesShaped(codes, size)
    ensures r.Err? ==> r == Err(Thrown("TypeError"))
  {
    if |ts| == 0 then Ok(b)
    else
      var b' :- Steps(b, ts[..|ts| - 1], codes, size);
      TransitionStep(b', ts[|ts| - 1], codes, size)
  }

  lemma StepsNext(b: Book, ts: seq<Triple>, codes: map<string, string>, size: nat, i: nat, c: Book)
    requires CodesShaped(codes, size)
    requires i < |ts| && Steps(b, ts[..i], codes, size) == Ok(c)
    ensures Steps(b, ts[..i + 1], codes, size) == TransitionStep(c, ts[i], codes, size)
  {
    assert ts[..i + 1][..i] == ts[..i];
  }

  lemma {:induction false} StepsAbort(b: Book, ts: seq<Triple>, codes: map<string, string>, size: nat, k: nat)
    requires CodesShaped(codes, size)
    requires k <= |ts| && Steps(b, ts[..k], codes, size).Err?
    ensures Steps(b, ts, codes, size).Err?
    decreases |ts| - k
  {
    if k == |ts| {
      assert ts[..k] == ts;
    } else {
      assert ts[..k + 1][..k] == ts[..k];
      StepsAbort(b, ts, codes, size, k + 1);
    }
  }

  /** The machine document the transformation returns. */
  datatype Doc = Doc(input: string, tapes: nat, blank: char, startState: string, table: Rows)

  /** The document and the listing of its instructions. */
  datatype Transformed = Transformed(doc: Doc, listing: seq<Option<Call>>)

  /** The symbols in the order they get their codes. */
  function SymbolOrder(spec: Spec): seq<string> {
    ShannonOrder(UniqueSpec(spec.table).0, spec.blank)
  }

  /** `Math.ceil(Math.log2(symbols.length))`. */
  function CodeSize(spec: Spec): nat {
    CeilLog2(|SymbolOrder(spec)|)
  }

  function SymbolCodes(spec: Spec): map<string, string> {
    BinaryCodes(SymbolOrder(spec), CodeSize(spec))
  }

  lemma SymbolCodesShaped(spec: Spec)
    requires |UniqueSpec(spec.table).0| > 2
    ensures CodesShaped(SymbolCodes(spec), CodeSize(spec))
  {
    ShannonOrderFacts(UniqueSpec(spec.table).0, spec.blank);
    var order := SymbolOrder(spec);
    assert |order| == |multiset(order)| == |UniqueSpec(spec.table).0|;
    var size := CodeSize(spec);
    assert Pow2(1) == 2;
    BinaryCodesShaped(order, size);
  }

  /** `shennon2_transform(spec)`: its failures, or the new machine and its
      listing. */
  function ShannonSpec(spec: Spec): Res<Transformed> {
    if |UniqueSpec(spec.table).0| <= 2 then Err(Invalid(NewSpecError(TooFewReason, None)))
    else
      SymbolCodesShaped(spec);
      Encode(spec, SymbolCodes(spec), CodeSize(spec))
  }

  /** The part after the codes are assigned: encode the input, mark the
      halting states, add the chains. */
  function Encode(spec: Spec, codes: map<string, string>, size: nat): Res<Transformed>
    requires CodesShaped(codes, size)
  {
    var keys :- Universal.InputKeys(spec.input);
    var input := Join(Universal.InputCodes(keys, codes), "");
    var b :- Steps(Book(Halting(map[], spec.table), []), Flatten(spec.table), codes, size);
    Ok(Transformed(Doc(input, 0, ' ', spec.startState, b.res), b.log))
  }

  method Transform(spec: Spec) returns (r: Res<Transformed>)
    ensures r == ShannonSpec(spec)
  {
    var symbols, _ := UniqueSymbolsStates(spec.table);
    if |symbols| <= 2 {
      return Err(Invalid(NewSpecError(TooFewReason, None)));
    }
    var order := ShannonOrder(symbols, spec.blank);
    var size := CeilLog2(|order|);
    var codes := AssignCodes(order, size);
    assert codes == SymbolCodes(spec) && size == CodeSize(spec);
    SymbolCodesShaped(spec);
    r := RunEncode(spec, codes, size);
  }

  method RunEncode(spec: Spec, codes: map<string, string>, size: nat) returns (r: Res<Transformed>)
    requires CodesShaped(codes, size)
    ensures r == Encode(spec, codes, size)
  {
    var keys :- Universal.InputKeys(spec.input);
    var input := Join(Universal.InputCodes(keys, codes), "");
    var b := new Builder();
    b.MarkHalting(spec.table);
    var ok := RunTransitions(b, Flatten(spec.table), codes, size);
    if !ok {
      return Err(Thrown("TypeError"));
    }
    return Ok(Transformed(Doc(input, 0, ' ', spec.startState, b.res), b.log));
  }

  /** The loop over the flattened transitions; `false` when it throws. */
  method RunTransitions(b: Builder, ts: seq<Triple>, codes: map<string, string>, size: nat) returns (ok: bool)
    requires CodesShaped(codes, size)
    modifies b
    ensures ok == Steps(old(b.State()), ts, codes, size).Ok?
    ensures ok ==> b.State() == Steps(old(b.State()), ts, codes, size).value
  {
    ghost var b0 := b.State();
    var i := 0;
    while i < |ts|
      invariant 0 <= i <= |ts|
      invariant Steps(b0, ts[..i], codes, size) == Ok(b.State())
    {
      StepsNext(b0, ts, codes, size, i, b.State());
      ok := RunTransition(b, ts[i], codes, size);
      if !ok {
        StepsAbort(b0, ts, codes, size, i + 1);
        return;
      }
      i := i + 1;
    }
    assert ts[..i] == ts;
    ok := true;
  }

  /** The body of that loop for one flattened transition. */
  method RunTransition(b: Builder, t: Triple, codes: map<string, string>, size: nat) returns (ok: bool)
    requires CodesShaped(codes, size)
    modifies b
    ensures ok == TransitionStep(old(b.State()), t, codes, size).Ok?
    ensures ok ==> b.State() == TransitionStep(old(b.State()), t, codes, size).value
  {
    if t.1 !in codes || WriteKey(t) !in codes {
      return false;
    }
    ok := b.AddEach(TransitionCalls(t.0, codes[t.1], Universal.NewState(t), t.2.move, codes[WriteKey(t)]));
    if ok {
      b.Separator();
    }
  }

  /** `shennon2_0_transform`: the same machine with `0` as its blank. */
  function Shannon20Spec(spec: Spec): Res<Transformed> {
    var r :- ShannonSpec(spec);
    Ok(r.(doc := r.doc.(blank := '0')))
  }

  method Transform20(spec: Spec) returns (r: Res<Transformed>)
    ensures r == Shannon20Spec(spec)
  {
    var res :- Transform(spec);
    return Ok(res.(doc := res.doc.(blank := '0')));
  }

  // ---------------------------------------------------------------------
  // What the codes are

  /** What `codes` promises about `symbols` put in `order`: the symbols
      are exactly those with a code; the symbol at place `n` has the
      `size`-bit code of `n`, so no two share a code; the blank is all
      zeros and `∂` comes right after it. */
  ghost predicate ShannonCoded(symbols: seq<string>, blank: char, order: seq<string>, codes: map<string, string>, size: nat)
    requires 1 <= size
  {
    && codes.Keys == (set x | x in symbols)
    && |order| == |symbols| <= Pow2(size)
    && (forall n :: 0 <= n < |order| ==> order[n] in codes && codes[order[n]] == BinaryCode(n, size))
    && (forall a, b :: a in codes && b in codes && a != b ==> codes[a] != codes[b])
    && ([blank] in codes ==> codes[[blank]] == Repeat('0', size))
    && (Partial in codes && [blank] != Partial ==>
          codes[Partial] == BinaryCode(if [blank] in codes then 1 else 0, size))
  }

  /** Codes read back as their places, so no two symbols share one. */
  lemma BinaryCodesDistinct(order: seq<string>, size: nat)
    requires NoDup(order) && 1 <= size && |order| <= Pow2(size)
    ensures forall a, b :: a in BinaryCodes(order, size) && b in BinaryCodes(order, size) && a != b ==>
      BinaryCodes(order, size)[a] != BinaryCodes(order, size)[b]
  {
    BinaryCodesFacts(order, size);
    var codes := BinaryCodes(order, size);
    forall a, b | a in codes && b in codes && a != b ensures codes[a] != codes[b] {
      var i :| 0 <= i < |order| && order[i] == a;
      var j :| 0 <= j < |order| && order[j] == b;
      assert BitsValue(codes[a]) == i && BitsValue(codes[b]) == j;
    }
  }

  /** The symbols in front get the first codes. */
  lemma FrontCodes(symbols: seq<string>, blank: char, order: seq<string>, size: nat)
    requires NoDup(order) && 1 <= size && |order| <= Pow2(size)
    requires forall x :: x in symbols <==> x in order
    requires |Front(symbols, blank)| <= |order| && order[..|Front(symbols, blank)|] == Front(symbols, blank)
    ensures [blank] in symbols ==> [blank] in BinaryCodes(order, size) && BinaryCodes(order, size)[[blank]] == Repeat('0', size)
    ensures Partial in symbols && [blank] != Partial ==>
      Partial in BinaryCodes(order, size) && BinaryCodes(order, size)[Partial] == BinaryCode(if [blank] in symbols then 1 else 0, size)
  {
    BinaryCodesAt(order, size);
    var f := Front(symbols, blank);
    if [blank] in symbols {
      assert order[0] == f[0] == [blank];
      CodeIsBinaryCode(0, size);
      BinaryCodeZero(size);
    }
    if Partial in symbols && [blank] != Partial {
      var n := if [blank] in symbols then 1 else 0;
      assert order[n] == f[n] == Partial;
      CodeIsBinaryCode(n, size);
    }
  }

  /** Any rearrangement of the symbols with the front symbols first is
      coded as above. */
  lemma CodedOrder(symbols: seq<string>, blank: char, order: seq<string>, size: nat)
    requires NoDup(symbols) && 1 <= size && |symbols| <= Pow2(size)
    requires multiset(order) == multiset(symbols)
    requires |Front(symbols, blank)| <= |order| && order[..|Front(symbols, blank)|] == Front(symbols, blank)
    ensures ShannonCoded(symbols, blank, order, BinaryCodes(order, size), size)
  {
    NoDupPermutation(symbols, order);
    assert |order| == |multiset(order)| == |symbols|;
    assert forall x :: x in symbols <==> x in order by {
      assert forall x :: x in symbols <==> x in multiset(symbols);
      assert forall x :: x in order <==> x in multiset(order);
    }
    BinaryCodesFacts(order, size);
    BinaryCodesAt(order, size);
    BinaryCodesDistinct(order, size);
    FrontCodes(symbols, blank, order, size);
  }

  lemma OrderCodes(symbols: seq<string>, blank: char, size: nat)
    requires NoDup(symbols) && 2 <= size && |symbols| <= Pow2(size)
    ensures ShannonCoded(symbols, blank, ShannonOrder(symbols, blank), BinaryCodes(ShannonOrder(symbols, blank), size), size)
  {
    ShannonOrderFacts(symbols, blank);
    CodedOrder(symbols, blank, ShannonOrder(symbols, blank), size);
  }

  /** With more than two symbols the codes are `CodeSize` bits wide, the
      least width that fits every symbol, and coded as above. */
  lemma ShannonCodesFacts(spec: Spec)
    requires |UniqueSpec(spec.table).0| > 2
    ensures 2 <= CodeSize(spec) && Pow2(CodeSize(spec) - 1) < |UniqueSpec(spec.table).0| <= Pow2(CodeSize(spec))
    ensures ShannonCoded(UniqueSpec(spec.table).0, spec.blank, SymbolOrder(spec), SymbolCodes(spec), CodeSize(spec))
  {
    var symbols := UniqueSpec(spec.table).0;
    UniqueContents(spec.table);
    ShannonOrderFacts(symbols, spec.blank);
    assert |SymbolOrder(spec)| == |multiset(SymbolOrder(spec))| == |symbols|;
    assert Pow2(1) == 2;
    OrderCodes(symbols, spec.blank, CodeSize(spec));
  }

  // ---------------------------------------------------------------------
  // How the transformation ends

  lemma EncodeOutcome(spec: Spec, codes: map<string, string>, size: nat)
    requires CodesShaped(codes, size)
    ensures IsNullish(spec.input) ==> Encode(spec, codes, size) == Err(Thrown("TypeError"))
    ensures Encode(spec, codes, size).Err? ==> Encode(spec, codes, size) == Err(Thrown("TypeError"))
    ensures Encode(spec, codes, size).Ok? ==>
      var d := Encode(spec, codes, size).value.doc;
      d.tapes == 0 && d.blank == ' ' && d.startState == spec.startState
  {
  }

  /** Too few symbols is the specification error, a missing input a
      `TypeError` (and so is a step that throws); a result is a machine
      with no tape count, the space as blank and the same start state. */
  lemma ShannonOutcome(spec: Spec)
    ensures |UniqueSpec(spec.table).0| <= 2 ==> ShannonSpec(spec) == Err(Invalid(SpecError(TooFewReason, Details())))
    ensures |UniqueSpec(spec.table).0| > 2 && IsNullish(spec.input) ==> ShannonSpec(spec) == Err(Thrown("TypeError"))
    ensures |UniqueSpec(spec.table).0| > 2 && ShannonSpec(spec).Err? ==> ShannonSpec(spec) == Err(Thrown("TypeError"))
    ensures ShannonSpec(spec).Ok? ==>
      var d := ShannonSpec(spec).value.doc;
      d.tapes == 0 && d.blank == ' ' && d.startState == spec.startState
  {
    if |UniqueSpec(spec.table).0| > 2 {
      SymbolCodesShaped(spec);
      EncodeOutcome(spec, SymbolCodes(spec), CodeSize(spec));
    }
  }

  /** `shennon2_0_transform` differs only in the blank, which is `0`. */
  lemma Shannon20Facts(spec: Spec)
    ensures Shannon20Spec(spec).Ok? <==> ShannonSpec(spec).Ok?
    ensures Shannon20Spec(spec).Err? ==> Shannon20Spec(spec) == ShannonSpec(spec)
    ensures Shannon20Spec(spec).Ok? ==>
      var r, r0 := Shannon20Spec(spec).value, ShannonSpec(spec).value;
      r.doc.blank == '0' && r.listing == r0.listing && r.doc.table == r0.doc.table
      && r.doc.input == r0.doc.input && r.doc.startState == r0.doc.startState && r.doc.tapes == r0.doc.tapes
  {
  }

  /** The transition writes at most one symbol, on the first tape. */
  predicate SingleTapeWrite(instr: Instruction) {
    instr.symbol.None? || (|instr.symbol.value| == 1 && instr.symbol.value[0].Some?)
  }

  /** A single-tape write is looked up under the symbol the transition
      leaves on the tape. */
  lemma WriteKeySingle(t: Triple)
    requires SingleTapeWrite(t.2)
    ensures WriteKey(t) == Universal.NewSymbol(t)
  {
    if t.2.symbol.Some? {
      var cells := t.2.symbol.value;
      var parts := seq(|cells|, i requires 0 <= i < |cells| => if cells[i].Some? then [cells[i].value] else "");
      assert |parts| == 1;
      assert WriteKey(t) == parts[0];
    }
  }

  /** The symbols with a code are the symbols collected. */
  lemma SymbolCodesKeys(symbols: seq<string>, blank: char, size: nat)
    ensures BinaryCodes(ShannonOrder(symbols, blank), size).Keys == set x | x in symbols
  {
    var order := ShannonOrder(symbols, blank);
    ShannonOrderFacts(symbols, blank);
    BinaryCodesKeys(order, size);
    assert forall x :: x in symbols <==> x in order by {
      assert forall x :: x in symbols <==> x in multiset(symbols);
      assert forall x :: x in order <==> x in multiset(order);
    }
  }

  /** Every read symbol has a code, and so has every symbol a single-tape
      transition writes: for those the lookup of a code never throws. */
  lemma TransitionCodesExist(spec: Spec, t: Triple)
    requires t in Flatten(spec.table)
    ensures t.1 in SymbolCodes(spec)
    ensures SingleTapeWrite(t.2) ==> WriteKey(t) in SymbolCodes(spec)
  {
    var symbols := UniqueSpec(spec.table).0;
    UniqueContents(spec.table);
    SymbolCodesKeys(symbols, spec.blank, CodeSize(spec));
    assert t.1 in symbols;
    if SingleTapeWrite(t.2) {
      WriteKeySingle(t);
      assert Universal.NewSymbol(t) in symbols;
    }
  }

  /** A text cut into pieces of `w` characters. */
  function Chunks(s: string, w: nat): seq<string>
    requires w >= 1
    decreases |s|
  {
    if |s| == 0 then [] else if |s| <= w then [s] else [s[..w]] + Chunks(s[w..], w)
  }

  /** Codes of one width, run together, are cut back into the same codes. */
  lemma {:induction false} ChunksJoin(parts: seq<string>, w: nat)
    requires w >= 1 && forall i :: 0 <= i < |parts| ==> |parts[i]| == w
    ensures Chunks(Join(parts, ""), w) == parts
  {
    if |parts| > 1 {
      var s := Join(parts, "");
      ChunksJoin(parts[1..], w);
      assert s == parts[0] + Join(parts[1..], "");
      assert s[..w] == parts[0] && s[w..] == Join(parts[1..], "");
      assert |Join(parts[1..], "")| > 0 by {
        assert parts[1..][0] == parts[1];
        JoinFirst(parts[1..], w);
      }
    }
  }

  /** The joined text starts with the first part. */
  lemma JoinFirst(parts: seq<string>, w: nat)
    requires |parts| > 0 && |parts[0]| == w
    ensures |Join(parts, "")| >= w
  {
  }

  /** When every input symbol has a code, the input of the new machine is
      their codes one after the other, and cutting it into `CodeSize`
      pieces gives them back. */
  lemma InputDecodes(spec: Spec, keys: seq<string>)
    requires ShannonSpec(spec).Ok? && Universal.InputKeys(spec.input) == Ok(keys)
    requires forall i :: 0 <= i < |keys| ==> keys[i] in SymbolCodes(spec)
    ensures Chunks(ShannonSpec(spec).value.doc.input, CodeSize(spec))
      == seq(|keys|, i requires 0 <= i < |keys| => SymbolCodes(spec)[keys[i]])
  {
    SymbolCodesShaped(spec);
    ShannonInput(spec, keys);
    CodesDecode(keys, SymbolCodes(spec), CodeSize(spec));
  }

  /** Codes of the keys, run together and cut back into pieces. */
  lemma CodesDecode(keys: seq<string>, codes: map<string, string>, size: nat)
    requires CodesShaped(codes, size)
    requires forall i :: 0 <= i < |keys| ==> keys[i] in codes
    ensures Chunks(Join(Universal.InputCodes(keys, codes), ""), size)
      == seq(|keys|, i requires 0 <= i < |keys| => codes[keys[i]])
  {
    var parts := Universal.InputCodes(keys, codes);
    assert parts == seq(|keys|, i requires 0 <= i < |keys| => codes[keys[i]]);
    ChunksJoin(parts, size);
  }

  /** The input of the new machine is the input's codes run together. */
  lemma ShannonInput(spec: Spec, keys: seq<string>)
    requires ShannonSpec(spec).Ok? && Universal.InputKeys(spec.input) == Ok(keys)
    ensures ShannonSpec(spec).value.doc.input == Join(Universal.InputCodes(keys, SymbolCodes(spec)), "")
  {
    SymbolCodesShaped(spec);
    EncodeInput(spec, SymbolCodes(spec), CodeSize(spec), keys);
  }

  lemma EncodeInput(spec: Spec, codes: map<string, string>, size: nat, keys: seq<string>)
    requires CodesShaped(codes, size)
    requires Encode(spec, codes, size).Ok? && Universal.InputKeys(spec.input) == Ok(keys)
    ensures Encode(spec, codes, size).value.doc.input == Join(Universal.InputCodes(keys, codes), "")
  {
  }

  // ---------------------------------------------------------------------
  // The table and the listing

  /** `res[f]` is the `null` of a halting state. */
  predicate Halts(res: Rows, f: string) {
    f in res && res[f].None?
  }

  /** The table has an instruction for state `f` and symbol `sym`. */
  predicate HasEntry(res: Rows, f: string, sym: string) {
    f in res && res[f].Some? && sym in res[f].value
  }

  /** The instruction `c` is the table's entry for its state and symbol. */
  predicate Stored(res: Rows, c: Call) {
    HasEntry(res, c.from, c.symbol) && res[c.from].value[c.symbol] == EntryOf(c)
  }

  /** The listing's row for an entry of the table. */
  function ListedAs(res: Rows, f: string, sym: string): Option<Call>
    requires HasEntry(res, f, sym)
  {
    var e := res[f].value[sym];
    Some(Call(f, sym, e.state, e.symbol, e.move))
  }

  predicate NoAdjacentNulls(log: seq<Option<Call>>) {
    forall i :: 0 <= i < |log| - 1 ==> log[i].Some? || log[i + 1].Some?
  }

  /** No state and symbol is listed twice. */
  predicate ListedOnce(log: seq<Option<Call>>) {
    forall i, j :: 0 <= i < j < |log| && log[i].Some? && log[j].Some? ==>
      (log[i].value.from, log[i].value.symbol) != (log[j].value.from, log[j].value.symbol)
  }

  /** The listing and the table agree: each listed instruction is the
      table's entry, each entry is listed, once, and two `null`s never
      follow each other. */
  ghost predicate Consistent(b: Book) {
    && (forall i :: 0 <= i < |b.log| && b.log[i].Some? ==> Stored(b.res, b.log[i].value))
    && (forall f, sym :: HasEntry(b.res, f, sym) ==> ListedAs(b.res, f, sym) in b.log)
    && ListedOnce(b.log)
    && NoAdjacentNulls(b.log)
  }

  /** Row `f` of `r1` survives in `r2`: a halting state still halts, an
      entry is still there and unchanged. */
  ghost predicate RowKept(r1: Rows, r2: Rows, f: string) {
    f in r1 ==>
      && f in r2
      && (Halts(r1, f) <==> Halts(r2, f))
      && forall sym :: HasEntry(r1, f, sym) ==> HasEntry(r2, f, sym) && r2[f].value[sym] == r1[f].value[sym]
  }

  /** The first instruction written for a state and symbol wins: nothing
      of `r1` changes in `r2`, and no new halting state appears. */
  ghost predicate Keeps(r1: Rows, r2: Rows) {
    (forall f :: RowKept(r1, r2, f)) && (forall f :: Halts(r2, f) ==> Halts(r1, f))
  }

  lemma KeepsTransitive(r1: Rows, r2: Rows, r3: Rows)
    requires Keeps(r1, r2) && Keeps(r2, r3)
    ensures Keeps(r1, r3)
  {
    forall f ensures RowKept(r1, r3, f) {
      assert RowKept(r1, r2, f) && RowKept(r2, r3, f);
    }
  }

  /** `add` throws exactly on a halting state; an entry already there is
      left alone, and otherwise the new one is stored and listed. */
  lemma AddFacts(b: Book, c: Call)
    ensures AddSpec(b, c).Err? <==> Halts(b.res, c.from)
    ensures AddSpec(b, c).Ok? && HasEntry(b.res, c.from, c.symbol) ==> AddSpec(b, c).value == b
    ensures AddSpec(b, c).Ok? && !HasEntry(b.res, c.from, c.symbol) ==>
      AddSpec(b, c).value.log == b.log + [Some(c)] && Stored(AddSpec(b, c).value.res, c)
    ensures AddSpec(b, c).Ok? ==> Keeps(b.res, AddSpec(b, c).value.res)
  {
    if AddSpec(b, c).Ok? && !HasEntry(b.res, c.from, c.symbol) {
      var r := AddSpec(b, c).value.res;
      forall f ensures RowKept(b.res, r, f) {
        if f == c.from && f in b.res {
          assert forall sym :: HasEntry(b.res, f, sym) ==> sym != c.symbol;
        }
      }
    }
  }

  /** `add` keeps the table and the listing in agreement. */
  lemma AddConsistent(b: Book, c: Call)
    requires Consistent(b) && AddSpec(b, c).Ok?
    ensures Consistent(AddSpec(b, c).value)
  {
    AddFacts(b, c);
    if !HasEntry(b.res, c.from, c.symbol) {
      var b' := AddSpec(b, c).value;
      forall i | 0 <= i < |b'.log| && b'.log[i].Some? ensures Stored(b'.res, b'.log[i].value) {
        if i < |b.log| {
          assert b'.log[i] == b.log[i];
          var d := b.log[i].value;
          assert RowKept(b.res, b'.res, d.from);
        }
      }
      forall f, sym | HasEntry(b'.res, f, sym) ensures ListedAs(b'.res, f, sym) in b'.log {
        if f == c.from && sym == c.symbol {
          assert b'.log[|b.log|] == ListedAs(b'.res, f, sym);
        } else {
          assert HasEntry(b.res, f, sym) && b'.res[f].value[sym] == b.res[f].value[sym];
          assert ListedAs(b.res, f, sym) in b.log;
        }
      }
      forall i, j | 0 <= i < j < |b'.log| && b'.log[i].Some? && b'.log[j].Some?
        ensures (b'.log[i].value.from, b'.log[i].value.symbol) != (b'.log[j].value.from, b'.log[j].value.symbol)
      {
        if j == |b.log| {
          assert Stored(b.res, b.log[i].value);
        }
      }
    }
  }

  /** A run of `add` calls throws exactly when one of them starts from a
      halting state; otherwise it keeps what was there, extends the
      listing, and keeps the two in agreement. */
  lemma {:induction false} ApplyCallsFacts(b: Book, cs: seq<Call>)
    ensures ApplyCalls(b, cs).Err? <==> exists j :: 0 <= j < |cs| && Halts(b.res, cs[j].from)
    ensures ApplyCalls(b, cs).Ok? ==> Keeps(b.res, ApplyCalls(b, cs).value.res) && b.log <= ApplyCalls(b, cs).value.log
    ensures ApplyCalls(b, cs).Ok? && Consistent(b) ==> Consistent(ApplyCalls(b, cs).value)
  {
    if |cs| == 0 {
      assert Keeps(b.res, b.res) by { forall f ensures RowKept(b.res, b.res, f) { } }
    } else {
      var init := cs[..|cs| - 1];
      ApplyCallsFacts(b, init);
      assert forall j :: 0 <= j < |init| ==> init[j] == cs[j];
      var p := ApplyCalls(b, init);
      if p.Ok? {
        var c := cs[|cs| - 1];
        AddFacts(p.value, c);
        assert Halts(p.value.res, c.from) <==> Halts(b.res, c.from) by {
          assert RowKept(b.res, p.value.res, c.from);
        }
        if AddSpec(p.value, c).Ok? {
          KeepsTransitive(b.res, p.value.res, AddSpec(p.value, c).value.res);
          if Consistent(b) {
            AddConsistent(p.value, c);
          }
        }
      }
    }
  }

  /** The separator leaves the table alone and makes the listing end with
      one `null`. */
  lemma SeparateFacts(b: Book)
    ensures Separate(b).res == b.res && b.log <= Separate(b).log
    ensures |Separate(b).log| > 0 && Separate(b).log[|Separate(b).log| - 1].None?
    ensures Consistent(b) ==> Consistent(Separate(b))
  {
    var b' := Separate(b);
    if Consistent(b) && b' != b {
      forall f, sym | HasEntry(b'.res, f, sym) ensures ListedAs(b'.res, f, sym) in b'.log {
        assert ListedAs(b.res, f, sym) in b.log;
      }
    }
  }

  /** `b'` extends `b`: the first instruction written wins, the listing
      only grows, and agreement between the two is kept. */
  ghost predicate Grows(b: Book, b': Book) {
    Keeps(b.res, b'.res) && b.log <= b'.log && (Consistent(b) ==> Consistent(b'))
  }

  predicate EndsSeparated(log: seq<Option<Call>>) {
    |log| > 0 && log[|log| - 1].None?
  }

  lemma GrowsTransitive(b1: Book, b2: Book, b3: Book)
    requires Grows(b1, b2) && Grows(b2, b3)
    ensures Grows(b1, b3)
  {
    KeepsTransitive(b1.res, b2.res, b3.res);
  }

  /** One transition's chain and separator. */
  lemma TransitionStepFacts(b: Book, t: Triple, codes: map<string, string>, size: nat)
    requires CodesShaped(codes, size)
    ensures TransitionStep(b, t, codes, size).Ok? ==>
      Grows(b, TransitionStep(b, t, codes, size).value) && EndsSeparated(TransitionStep(b, t, codes, size).value.log)
  {
    if t.1 in codes && WriteKey(t) in codes {
      var cs := TransitionCalls(t.0, codes[t.1], Universal.NewState(t), t.2.move, codes[WriteKey(t)]);
      ApplyCallsFacts(b, cs);
      if ApplyCalls(b, cs).Ok? {
        SeparateFacts(ApplyCalls(b, cs).value);
      }
    }
  }

  /** The transitions in turn extend the book and end the listing with a
      separator. */
  lemma {:induction false} StepsFacts(b: Book, ts: seq<Triple>, codes: map<string, string>, size: nat)
    requires CodesShaped(codes, size)
    ensures Steps(b, ts, codes, size).Ok? ==>
      && Grows(b, Steps(b, ts, codes, size).value)
      && (|ts| > 0 ==> EndsSeparated(Steps(b, ts, codes, size).value.log))
  {
    if |ts| == 0 {
      assert Keeps(b.res, b.res) by { forall f ensures RowKept(b.res, b.res, f) { } }
    } else {
      StepsFacts(b, ts[..|ts| - 1], codes, size);
      var p := Steps(b, ts[..|ts| - 1], codes, size);
      if p.Ok? {
        var t := ts[|ts| - 1];
        TransitionStepFacts(p.value, t, codes, size);
        if TransitionStep(p.value, t, codes, size).Ok? {
          GrowsTransitive(b, p.value, TransitionStep(p.value, t, codes, size).value);
        }
      }
    }
  }

  /** The table states `f` halts: its entry is `null`. */
  predicate HaltStated(table: Table, f: string) {
    exists j :: 0 <= j < |table| && table[j].0 == f && table[j].1.None?
  }

  /** Marking the halting states gives a `null` row exactly for the states
      whose entry is `null`, and nothing else. */
  lemma {:induction false} HaltingFacts(table: Table)
    ensures forall f :: f in Halting(map[], table) ==> Halts(Halting(map[], table), f)
    ensures forall f :: Halts(Halting(map[], table), f) <==> HaltStated(table, f)
  {
    if |table| > 0 {
      var init := table[..|table| - 1];
      HaltingFacts(init);
      assert forall j :: 0 <= j < |init| ==> init[j] == table[j];
      forall f ensures Halts(Halting(map[], table), f) <==> HaltStated(table, f) {
        if HaltStated(table, f) && !HaltStated(init, f) {
          assert table[|table| - 1].0 == f && table[|table| - 1].1.None?;
        }
      }
    }
  }

  /** The table of the new machine: the halting states are exactly those
      of the original, every listed instruction is the table's, every
      instruction of the table is listed once, and the listing ends with a
      separator when there is any transition. */
  lemma ShannonTable(spec: Spec)
    requires ShannonSpec(spec).Ok?
    ensures var d := ShannonSpec(spec).value;
      && Consistent(Book(d.doc.table, d.listing))
      && (forall f :: Halts(d.doc.table, f) <==> HaltStated(spec.table, f))
      && (|Flatten(spec.table)| > 0 ==> EndsSeparated(d.listing))
  {
    SymbolCodesShaped(spec);
    var codes, size := SymbolCodes(spec), CodeSize(spec);
    var b0 := Book(Halting(map[], spec.table), []);
    HaltingFacts(spec.table);
    StepsFacts(b0, Flatten(spec.table), codes, size);
    var b := Steps(b0, Flatten(spec.table), codes, size).value;
    forall f ensures Halts(b.res, f) <==> HaltStated(spec.table, f) {
      assert RowKept(b0.res, b.res, f);
    }
  }
}

/** What the parser guarantees: the meaning of the multi-tape clause syntax
    and its round trip, the shape of every parsed instruction, the
    well-formedness of an accepted specification, and the error rules. */
module ParserProperties {
  import opened Wrappers
  import opened Text
  import opened Values
  import opened Errors
  import opened Parser

  // ---------------------------------------------------------------------
  // Multi-tape instruction strings: what the clause loop computes

  /** The clauses of an instruction string, read one after another with the
      white space between them skipped; `None` when some part is not a
      clause. */
  function Tokenize(rest: string): Option<seq<Clause>>
    decreases |rest|
  {
    if rest == "" then Some([])
    else match ClauseAt(rest)
      case None => None
      case Some(c) =>
        match Tokenize(TrimStart(rest[c.len..]))
        case None => None
        case Some(cs) => Some([c] + cs)
  }

  /** Every clause names a tape from 1 to `t` that is not among `seen`, and
      no two clauses name the same tape. */
  predicate ValidTapes(cs: seq<Clause>, t: nat, seen: set<nat>) {
    && (forall i :: 0 <= i < |cs| ==> 1 <= cs[i].tape <= t && cs[i].tape - 1 !in seen)
    && (forall i, j :: 0 <= i < j < |cs| ==> cs[i].tape != cs[j].tape)
  }

  /** The clause for the 0-based tape `k`, if there is one. */
  function ClauseFor(cs: seq<Clause>, k: nat): (r: Option<Clause>)
    ensures r.None? <==> forall i :: 0 <= i < |cs| ==> cs[i].tape != k + 1
    ensures r.Some? ==> r.value in cs && r.value.tape == k + 1
  {
    if |cs| == 0 then None
    else if cs[0].tape == k + 1 then Some(cs[0])
    else
      var r := ClauseFor(cs[1..], k);
      assert forall i :: 1 <= i < |cs| ==> cs[i] == cs[1..][i - 1];
      r
  }

  /** The direction tape `k` ends up with: its clause's, or `default`. */
  function FinalMove(cs: seq<Clause>, k: nat, default: char): char {
    var c := ClauseFor(cs, k);
    if c.Some? && c.value.dir.Some? then c.value.dir.value else default
  }

  /** The symbol tape `k` ends up writing: its clause's, or `default`. */
  function FinalWrite(cs: seq<Clause>, k: nat, default: Option<char>): Option<char> {
    var c := ClauseFor(cs, k);
    if c.Some? && c.value.write.Some? then Some(WriteSymbol(c.value.write.value)) else default
  }

  lemma ValidTapesCons(c: Clause, cs: seq<Clause>, t: nat, seen: set<nat>)
    requires 1 <= c.tape <= t && c.tape - 1 !in seen
    ensures ValidTapes([c] + cs, t, seen) <==> ValidTapes(cs, t, seen + {c.tape - 1})
  {
    var all := [c] + cs;
    assert forall i :: 1 <= i < |all| ==> all[i] == cs[i - 1];
    if ValidTapes(cs, t, seen + {c.tape - 1}) {
      forall i, j | 0 <= i < j < |all| ensures all[i].tape != all[j].tape {
        if i == 0 {
          assert cs[j - 1].tape - 1 !in seen + {c.tape - 1};
        }
      }
    }
    if ValidTapes(all, t, seen) {
      forall i | 0 <= i < |cs| ensures 1 <= cs[i].tape <= t && cs[i].tape - 1 !in seen + {c.tape - 1} {
        assert all[i + 1] == cs[i];
        assert all[0].tape != all[i + 1].tape;
      }
      forall i, j | 0 <= i < j < |cs| ensures cs[i].tape != cs[j].tape {
        assert all[i + 1] == cs[i] && all[j + 1] == cs[j];
      }
    }
  }

  /** The state after a clause whose tape number passed the checks. */
  function Advance(st: ClauseState, c: Clause, t: nat): ClauseState
    requires |st.move| == t && |st.write| == t && 1 <= c.tape <= t && c.len <= |st.rest|
  {
    var k := c.tape - 1;
    ClauseState(
      TrimStart(st.rest[c.len..]),
      if c.dir.Some? then st.move[k := c.dir.value] else st.move,
      if c.write.Some? then st.write[k := Some(WriteSymbol(c.write.value))] else st.write,
      st.seen + {k})
  }

  /** One iteration of the clause loop: it fails when no clause matches or
      the clause's tape is out of range or already set, and otherwise
      advances. */
  lemma StepCases(st: ClauseState, t: nat)
    requires |st.move| == t && |st.write| == t && st.rest != ""
    ensures var c := ClauseAt(st.rest);
      && (ClauseStep(st, t).Ok? <==> c.Some? && 1 <= c.value.tape <= t && c.value.tape - 1 !in st.seen)
      && (ClauseStep(st, t).Ok? ==> ClauseStep(st, t).value == Advance(st, c.value, t))
  {
  }

  lemma TokenizeCons(rest: string)
    requires rest != ""
    ensures var c := ClauseAt(rest);
      && (Tokenize(rest).Some? <==> c.Some? && Tokenize(TrimStart(rest[c.value.len..])).Some?)
      && (Tokenize(rest).Some? ==> Tokenize(rest).value == [c.value] + Tokenize(TrimStart(rest[c.value.len..])).value)
  {
  }

  lemma FinalAfterClause(c: Clause, cs: seq<Clause>, st: ClauseState, t: nat, j: nat)
    requires |st.move| == t && |st.write| == t && 1 <= c.tape <= t && c.len <= |st.rest|
    requires j < t && forall i :: 0 <= i < |cs| ==> cs[i].tape != c.tape
    ensures var st' := Advance(st, c, t);
      && FinalMove(cs, j, st'.move[j]) == FinalMove([c] + cs, j, st.move[j])
      && FinalWrite(cs, j, st'.write[j]) == FinalWrite([c] + cs, j, st.write[j])
  {
    assert ([c] + cs)[1..] == cs;
    if j == c.tape - 1 {
      assert ClauseFor(cs, j).None?;
    }
  }

  /** A clause that passes the checks hands the rest of the text on. */
  lemma ClausesAdvance(st: ClauseState, t: nat)
    requires |st.move| == t && |st.write| == t && st.rest != ""
    requires var c := ClauseAt(st.rest); c.Some? && 1 <= c.value.tape <= t && c.value.tape - 1 !in st.seen
    ensures Clauses(st, t) == Clauses(Advance(st, ClauseAt(st.rest).value, t), t)
  {
    StepCases(st, t);
  }

  /** A clause that does not match or fails the checks ends the loop with
      an error. */
  lemma ClausesStop(st: ClauseState, t: nat)
    requires |st.move| == t && |st.write| == t && st.rest != ""
    requires var c := ClauseAt(st.rest); !(c.Some? && 1 <= c.value.tape <= t && c.value.tape - 1 !in st.seen)
    ensures Clauses(st, t).Err?
  {
    StepCases(st, t);
  }

  /** The clause loop fails on a text that is not a sequence of clauses
      naming distinct tapes from 1 to `t` not set before. */
  lemma {:induction false} ClausesFail(st: ClauseState, t: nat)
    requires |st.move| == t && |st.write| == t
    requires !(Tokenize(st.rest).Some? && ValidTapes(Tokenize(st.rest).value, t, st.seen))
    ensures Clauses(st, t).Err?
    decreases |st.rest|
  {
    if st.rest == "" {
      assert false;
    }
    var c0 := ClauseAt(st.rest);
    if c0.Some? && 1 <= c0.value.tape <= t && c0.value.tape - 1 !in st.seen {
      var st' := Advance(st, c0.value, t);
      ClausesAdvance(st, t);
      TokenizeCons(st.rest);
      assert st'.rest == TrimStart(st.rest[c0.value.len..]);
      InvalidCarries(Tokenize(st.rest), Tokenize(st'.rest), c0.value, t, st.seen);
      ClausesFail(st', t);
    } else {
      ClausesStop(st, t);
    }
  }

  /** A clause sequence that is not valid stays invalid once a first
      clause that passed the checks is taken off. */
  lemma InvalidCarries(all: Option<seq<Clause>>, tail: Option<seq<Clause>>, c: Clause, t: nat, seen: set<nat>)
    requires 1 <= c.tape <= t && c.tape - 1 !in seen
    requires all.Some? <==> tail.Some?
    requires all.Some? ==> all.value == [c] + tail.value
    requires !(all.Some? && ValidTapes(all.value, t, seen))
    ensures !(tail.Some? && ValidTapes(tail.value, t, seen + {c.tape - 1}))
  {
    if tail.Some? {
      ValidTapesCons(c, tail.value, t, seen);
    }
  }

  /** On a sequence of clauses naming distinct tapes from 1 to `t` not set
      before, the clause loop succeeds with each clause applied to its
      tape. */
  lemma {:induction false} ClausesResult(st: ClauseState, t: nat)
    requires |st.move| == t && |st.write| == t
    requires Tokenize(st.rest).Some? && ValidTapes(Tokenize(st.rest).value, t, st.seen)
    ensures Clauses(st, t).Ok?
    ensures forall k :: 0 <= k < t ==>
      && Clauses(st, t).value.0[k] == FinalMove(Tokenize(st.rest).value, k, st.move[k])
      && Clauses(st, t).value.1[k] == FinalWrite(Tokenize(st.rest).value, k, st.write[k])
    decreases |st.rest|
  {
    if st.rest != "" {
      TokenizeCons(st.rest);
      var c := ClauseAt(st.rest).value;
      var cs' := Tokenize(TrimStart(st.rest[c.len..])).value;
      assert Tokenize(st.rest).value == [c] + cs';
      assert ([c] + cs')[0] == c;
      ValidTapesCons(c, cs', t, st.seen);
      var st' := Advance(st, c, t);
      ClausesAdvance(st, t);
      ClausesResult(st', t);
      forall i | 0 <= i < |cs'| ensures cs'[i].tape != c.tape {
        assert cs'[i].tape - 1 !in st'.seen;
      }
      forall j | 0 <= j < t
        ensures FinalMove(cs', j, st'.move[j]) == FinalMove([c] + cs', j, st.move[j])
        ensures FinalWrite(cs', j, st'.write[j]) == FinalWrite([c] + cs', j, st.write[j])
      {
        FinalAfterClause(c, cs', st, t, j);
      }
    }
  }

  /** The clause loop succeeds exactly when the text is a sequence of
      clauses naming distinct tapes from 1 to `t` not set before; then each
      tape gets the direction and the write of its own clause and keeps what
      it had otherwise. */
  lemma ClausesMeaning(st: ClauseState, t: nat)
    requires |st.move| == t && |st.write| == t
    ensures var r := Clauses(st, t);
      var cs := Tokenize(st.rest);
      && (r.Ok? <==> cs.Some? && ValidTapes(cs.value, t, st.seen))
      && (r.Ok? ==> forall k :: 0 <= k < t ==>
            r.value.0[k] == FinalMove(cs.value, k, st.move[k]) && r.value.1[k] == FinalWrite(cs.value, k, st.write[k]))
  {
    if Tokenize(st.rest).Some? && ValidTapes(Tokenize(st.rest).value, t, st.seen) {
      ClausesResult(st, t);
    } else {
      ClausesFail(st, t);
    }
  }

  /** `parseInstructionString` on a multi-tape machine without synonyms:
      the optional state token first, then the clauses of the rest; every
      tape not named by a clause stays put (`H`) and writes nothing. */
  lemma MultiTapeStringMeaning(val: string, t: nat)
    requires t >= 1 && !MatchState(val).EmptyGroup?
    ensures var m := MatchState(val);
      var rest := if m.Group? then Trim(val[|m.token|..]) else val;
      var r := MultiTapeString(None, val, t);
      var cs := Tokenize(rest);
      && (r.Ok? <==> cs.Some? && ValidTapes(cs.value, t, {}))
      && (r.Ok? ==>
            && r.value.state == (if m.Group? then Some(m.token) else None)
            && |r.value.move| == t && r.value.symbol.Some? && |r.value.symbol.value| == t
            && forall k :: 0 <= k < t ==>
                 r.value.move[k] == FinalMove(cs.value, k, 'H') && r.value.symbol.value[k] == FinalWrite(cs.value, k, None))
  {
    var m := MatchState(val);
    var rest := if m.Group? then Trim(val[|m.token|..]) else val;
    ClausesMeaning(ClauseState(rest, Repeat('H', t), NoWrites(t), {}), t);
  }

  // ---------------------------------------------------------------------
  // The round trip: an instruction written out in the clause syntax

  /** A state name the state-token pattern reads as a whole: a non-digit
      followed by at least one word character. */
  predicate StateToken(s: string) {
    |s| >= 2 && !IsDigit(s[0]) && forall i :: 1 <= i < |s| ==> IsWordChar(s[i])
  }

  /** The multi-tape instructions the clause syntax can express: at most 9
      tapes, one direction and one optional write per tape, writes that are
      not white space (a blank is written `_`) and not `_` itself, no `R`
      or `L` written on a tape that does not move, and a state name that
      reads as a state token. */
  predicate Expressible(i: Instruction, t: nat) {
    && 1 <= t <= 9
    && |i.move| == t && i.symbol.Some? && |i.symbol.value| == t
    && (forall k :: 0 <= k < t ==> IsDirection(i.move[k]))
    && (forall k :: 0 <= k < t && i.symbol.value[k].Some? ==>
          var c := i.symbol.value[k].value; c == ' ' || (!IsSpace(c) && c != '_'))
    && (forall k :: 0 <= k < t && i.move[k] == 'H' && i.symbol.value[k].Some? ==> i.symbol.value[k].value != 'R' && i.symbol.value[k].value != 'L')
    && (i.state.Some? ==> StateToken(i.state.value))
  }

  function WriteText(c: char): char {
    if c == ' ' then '_' else c
  }

  /** The clause for the 0-based tape `k`: its number, its direction unless
      it stays put, its write if any. */
  function ClauseText(i: Instruction, t: nat, k: nat): string
    requires Expressible(i, t) && k < t
  {
    [DigitChar(k + 1)]
    + (if i.move[k] == 'H' then "" else [i.move[k]])
    + (if i.symbol.value[k].Some? then [WriteText(i.symbol.value[k].value)] else "")
  }

  /** The clauses for tapes `k` to `t - 1`, separated by single spaces. */
  function ClausesText(i: Instruction, t: nat, k: nat): string
    requires Expressible(i, t) && k <= t
    decreases t - k
  {
    if k == t then ""
    else if k == t - 1 then ClauseText(i, t, k)
    else ClauseText(i, t, k) + " " + ClausesText(i, t, k + 1)
  }

  /** A multi-tape instruction in the clause syntax, every tape spelt out. */
  function Render(i: Instruction, t: nat): string
    requires Expressible(i, t)
  {
    (if i.state.Some? then i.state.value + " " else "") + ClausesText(i, t, 0)
  }

  lemma ClauseAtText(i: Instruction, t: nat, k: nat, tail: string)
    requires Expressible(i, t) && k < t
    requires tail == "" || tail[0] == ' '
    ensures ClauseAt(ClauseText(i, t, k) + tail)
      == Some(Clause(k + 1,
                     if i.move[k] == 'H' then None else Some(i.move[k]),
                     if i.symbol.value[k].Some? then Some(WriteText(i.symbol.value[k].value)) else None,
                     |ClauseText(i, t, k)| + (if tail == "" then 0 else 1)))
  {
    var s := ClauseText(i, t, k) + tail;
    assert s[0] == DigitChar(k + 1);
    if i.symbol.value[k].Some? {
      assert WriteText(i.symbol.value[k].value) != ' ';
    }
  }

  lemma ClausesTextEnds(i: Instruction, t: nat, k: nat)
    requires Expressible(i, t) && k < t
    ensures var s := ClausesText(i, t, k); |s| >= 1 && IsDigit(s[0]) && !IsSpace(s[|s| - 1])
    decreases t - k
  {
    var c := ClauseText(i, t, k);
    assert c[0] == DigitChar(k + 1);
    if i.symbol.value[k].Some? {
      assert !IsSpace(WriteText(i.symbol.value[k].value));
    }
    if k < t - 1 {
      ClausesTextEnds(i, t, k + 1);
    }
  }

  lemma TrimStartNoop(s: string)
    requires s == "" || !IsSpace(s[0])
    ensures TrimStart(s) == s
  {
  }

  /** The clause loop reads back what `ClausesText` wrote, from any point
      at which the earlier tapes are already filled in. */
  lemma {:induction false} ClausesTextRead(i: Instruction, t: nat, k: nat, st: ClauseState)
    requires Expressible(i, t) && k < t
    requires st.rest == ClausesText(i, t, k) && |st.move| == t && |st.write| == t
    requires forall j :: 0 <= j < k ==> st.move[j] == i.move[j] && st.write[j] == i.symbol.value[j]
    requires forall j :: k <= j < t ==> st.move[j] == 'H' && st.write[j].None?
    requires forall j :: j in st.seen ==> j < k
    ensures Clauses(st, t) == Ok((i.move, i.symbol.value))
    decreases t - k
  {
    var st' := ReadOneClause(i, t, k, st);
    if k == t - 1 {
      assert st'.move == i.move;
      assert st'.write == i.symbol.value;
    } else {
      ClausesTextRead(i, t, k + 1, st');
    }
  }

  /** The clause `ClauseText` writes for tape `k`, as `ClauseAt` reads it. */
  function TextClause(i: Instruction, t: nat, k: nat): Clause
    requires Expressible(i, t) && k < t
  {
    Clause(k + 1,
           if i.move[k] == 'H' then None else Some(i.move[k]),
           if i.symbol.value[k].Some? then Some(WriteText(i.symbol.value[k].value)) else None,
           |ClauseText(i, t, k)| + (if k == t - 1 then 0 else 1))
  }

  lemma ClauseOfText(i: Instruction, t: nat, k: nat)
    requires Expressible(i, t) && k < t
    ensures var s := ClausesText(i, t, k);
      && ClauseAt(s) == Some(TextClause(i, t, k))
      && TrimStart(s[TextClause(i, t, k).len..]) == if k == t - 1 then "" else ClausesText(i, t, k + 1)
  {
    var text := ClauseText(i, t, k);
    var rest := if k == t - 1 then "" else ClausesText(i, t, k + 1);
    var tail := if k == t - 1 then "" else " " + rest;
    assert ClausesText(i, t, k) == text + tail;
    ClauseAtText(i, t, k, tail);
    CutClause(text, tail, rest, TextClause(i, t, k).len);
    if k < t - 1 {
      ClausesTextEnds(i, t, k + 1);
      TrimStartNoop(rest);
    }
  }

  /** Past a clause and the space after it comes the rest of the text. */
  lemma CutClause(text: string, tail: string, rest: string, n: nat)
    requires tail == "" || tail == " " + rest
    requires tail == "" ==> rest == ""
    requires n == |text| + (if tail == "" then 0 else 1)
    ensures (text + tail)[n..] == rest
  {
    if tail != "" {
      assert (text + tail)[n..] == tail[1..];
    }
  }

  lemma AdvanceText(i: Instruction, t: nat, k: nat, st: ClauseState)
    requires Expressible(i, t) && k < t
    requires |st.move| == t && |st.write| == t && TextClause(i, t, k).len <= |st.rest|
    requires forall j :: 0 <= j < k ==> st.move[j] == i.move[j] && st.write[j] == i.symbol.value[j]
    requires forall j :: k <= j < t ==> st.move[j] == 'H' && st.write[j].None?
    ensures var st' := Advance(st, TextClause(i, t, k), t);
      && (forall j :: 0 <= j <= k ==> st'.move[j] == i.move[j] && st'.write[j] == i.symbol.value[j])
      && (forall j :: k < j < t ==> st'.move[j] == 'H' && st'.write[j].None?)
      && st'.seen == st.seen + {k}
  {
    if i.symbol.value[k].Some? {
      assert WriteSymbol(WriteText(i.symbol.value[k].value)) == i.symbol.value[k].value;
    }
  }

  /** One step of `ClausesTextRead`: the clause for tape `k` is read and
      the loop goes on with the clauses after it. */
  lemma ReadOneClause(i: Instruction, t: nat, k: nat, st: ClauseState) returns (st': ClauseState)
    requires Expressible(i, t) && k < t
    requires st.rest == ClausesText(i, t, k) && |st.move| == t && |st.write| == t
    requires forall j :: 0 <= j < k ==> st.move[j] == i.move[j] && st.write[j] == i.symbol.value[j]
    requires forall j :: k <= j < t ==> st.move[j] == 'H' && st.write[j].None?
    requires forall j :: j in st.seen ==> j < k
    ensures |st'.move| == t && |st'.write| == t
    ensures Clauses(st, t) == Clauses(st', t)
    ensures st'.rest == if k == t - 1 then "" else ClausesText(i, t, k + 1)
    ensures forall j :: 0 <= j <= k ==> st'.move[j] == i.move[j] && st'.write[j] == i.symbol.value[j]
    ensures forall j :: k < j < t ==> st'.move[j] == 'H' && st'.write[j].None?
    ensures forall j :: j in st'.seen ==> j < k + 1
  {
    ClauseOfText(i, t, k);
    assert k !in st.seen;
    ClausesAdvance(st, t);
    AdvanceText(i, t, k, st);
    st' := Advance(st, TextClause(i, t, k), t);
  }

  lemma WordRunStops(w: string, tail: string)
    requires forall i :: 0 <= i < |w| ==> IsWordChar(w[i])
    requires tail != "" && !IsWordChar(tail[0])
    ensures WordRun(w + tail) == |w|
  {
    if w != "" {
      assert (w + tail)[1..] == w[1..] + tail;
      WordRunStops(w[1..], tail);
    }
  }

  /** A state token followed by a space and a trimmed body is matched as a
      group, and the trimmed rest is the body. */
  lemma TokenMatch(s: string, body: string)
    requires StateToken(s)
    requires |body| >= 1 && !IsSpace(body[0]) && !IsSpace(body[|body| - 1])
    ensures MatchState(s + " " + body) == Group(s)
    ensures Trim((s + " " + body)[|s|..]) == body
  {
    var val := s + " " + body;
    assert val[1..] == s[1..] + (" " + body);
    WordRunStops(s[1..], " " + body);
    assert val[..|s|] == s;
    assert val[|s|..] == " " + body;
    assert (" " + body)[1..] == body;
    TrimStartNoop(body);
    assert TrimStart(" " + body) == body;
  }

  /** Text that starts with a digit has no state token. */
  lemma DigitNoMatch(body: string)
    requires |body| >= 1 && IsDigit(body[0])
    ensures MatchState(body) == NoMatch
  {
  }

  /** The state-token pattern finds the rendered state name, and what is
      left after it is the clause text. */
  lemma RenderedStateMatch(i: Instruction, t: nat)
    requires Expressible(i, t)
    ensures var val := Render(i, t); var m := MatchState(val);
      && !m.EmptyGroup?
      && (m.Group? <==> i.state.Some?)
      && (m.Group? ==> m.token == i.state.value)
      && (if m.Group? then Trim(val[|m.token|..]) else val) == ClausesText(i, t, 0)
  {
    var body := ClausesText(i, t, 0);
    ClausesTextEnds(i, t, 0);
    if i.state.Some? {
      TokenMatch(i.state.value, body);
    } else {
      DigitNoMatch(body);
    }
  }

  /** Parsing the rendered text of an expressible multi-tape instruction
      gives the instruction back. */
  lemma MultiTapeRoundTrip(i: Instruction, t: nat)
    requires Expressible(i, t)
    ensures MultiTapeString(None, Render(i, t), t) == Ok(i)
  {
    RenderedStateMatch(i, t);
    ClausesTextRead(i, t, 0, ClauseState(ClausesText(i, t, 0), Repeat('H', t), NoWrites(t), {}));
  }

  /** The instruction `next 1R0 2L` on a two-tape machine: tape 1 moves right
      writing `0`, tape 2 moves left writing nothing, the next state is
      `next`. */
  lemma TwoTapeExample()
    ensures StringInstruction(None, "next 1R0 2L", Some(2)) == Ok(Instruction(Some([Some('0'), None]), "RL", Some("next")))
  {
    var i := Instruction(Some([Some('0'), None]), "RL", Some("next"));
    assert Expressible(i, 2);
    assert ClauseText(i, 2, 0) == "1R0";
    assert ClauseText(i, 2, 1) == "2L";
    assert Render(i, 2) == "next 1R0 2L";
    MultiTapeRoundTrip(i, 2);
  }
}

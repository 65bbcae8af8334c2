/** What `parseVis` accepts and what it stores, stated without its loops:
    a visualisation is accepted exactly when every state it names is
    declared and every entry passes its checks, and the stored table is
    the document's entries written in order, the last write to a state
    winning. */
module ParserVisualisation {
  import opened Wrappers
  import opened Text
  import opened Values
  import opened Parser
  import opened ParserWellFormed

  // ---------------------------------------------------------------------
  // Acceptance

  /** A tape number as written in a rule's key: an integer from 1 up to the
      tape count. Without a count there are no per-tape maps, so no tape
      number is accepted. */
  predicate PieceOk(piece: string, count: Option<int>) {
    && ParseInt(piece).Some?
    && 1 <= ParseInt(piece).value
    && count.Some? && ParseInt(piece).value - 1 < count.value
  }

  /** A highlighting rule passes the checks: it is not null, a truthy
      `skip` is an integer, and mode, direction and colour are listed. */
  predicate RuleAccepted(rule: Value) {
    && !rule.Null?
    && (TruthyOpt(Prop(rule, "skip")) ==> Prop(rule, "skip").value.Int?)
    && IsOneOf(Prop(rule, "mode"), ModeValues)
    && IsOneOf(Prop(rule, "dir"), DirValues)
    && IsOneOf(Prop(rule, "color"), ColorValues)
  }

  /** Every key but `title`, `info` and `color` lists tape numbers. */
  predicate IsTapeKey(key: string) {
    key != "title" && key != "info" && key != "color"
  }

  /** One entry of a state's visualisation: `title`, `info` and `color`
      take any value; under any other key every comma-separated piece is
      an accepted tape number and the value is an accepted rule. */
  predicate EntryOk(key: string, rule: Value, count: Option<int>) {
    IsTapeKey(key) ==> PiecesOk(Split(key, ','), count) && RuleAccepted(rule)
  }

  predicate PiecesOk(pieces: seq<string>, count: Option<int>) {
    forall p :: p in pieces ==> PieceOk(p, count)
  }

  /** `Object.entries(rules)` of a state's entry (never applied to `null`). */
  function RulesOf(rules: Value): seq<(string, Value)> {
    OwnEntries(rules).GetOr([])
  }

  /** A state's part of the visualisation: the state is declared, its
      entries are not `null`, and every entry is accepted. */
  predicate StateOk(state: string, rules: Value, table: Table, count: Option<int>) {
    && state in Keys(table)
    && !rules.Null?
    && forall j :: 0 <= j < |RulesOf(rules)| ==> EntryOk(RulesOf(rules)[j].0, RulesOf(rules)[j].1, count)
  }

  /** The states of a visualisation; a falsy one has none. */
  function VisEntries(vis: Option<Value>): seq<(string, Value)> {
    if TruthyOpt(vis) then OwnEntries(vis.value).GetOr([]) else []
  }

  predicate VisAccepted(vis: Option<Value>, table: Table, tapes: Option<int>) {
    forall i :: 0 <= i < |VisEntries(vis)| ==> StateOk(VisEntries(vis)[i].0, VisEntries(vis)[i].1, table, VisCount(tapes))
  }

  // ---------------------------------------------------------------------
  // The entries in document order, and their effect

  /** One entry: the state, the key and the value. */
  type Assignment = (string, string, Value)

  function StateAssignments(state: string, rules: seq<(string, Value)>): seq<Assignment>
    decreases |rules|
  {
    if |rules| == 0 then [] else [(state, rules[0].0, rules[0].1)] + StateAssignments(state, rules[1..])
  }

  /** Every entry of the visualisation, state by state, in document order. */
  function Assignments(entries: seq<(string, Value)>): seq<Assignment>
    decreases |entries|
  {
    if |entries| == 0 then [] else StateAssignments(entries[0].0, RulesOf(entries[0].1)) + Assignments(entries[1..])
  }

  /** Storing `rule` for `state` on tape `n - 1`, if there is one. */
  function PutTape(acc: Vis, state: string, rule: Value, n: Option<int>): (r: Vis)
    ensures |r.tapes| == |acc.tapes| && r.titles == acc.titles && r.info == acc.info && r.colors == acc.colors
  {
    if n.Some? && 1 <= n.value <= |acc.tapes| then acc.(tapes := acc.tapes[n.value - 1 := acc.tapes[n.value - 1][state := rule]])
    else acc
  }

  function PutTapes(acc: Vis, state: string, rule: Value, pieces: seq<string>): (r: Vis)
    ensures |r.tapes| == |acc.tapes| && r.titles == acc.titles && r.info == acc.info && r.colors == acc.colors
    decreases |pieces|
  {
    if |pieces| == 0 then acc else PutTapes(PutTape(acc, state, rule, ParseInt(pieces[0])), state, rule, pieces[1..])
  }

  /** The effect of one accepted entry. */
  function Apply(acc: Vis, a: Assignment): (r: Vis)
    ensures |r.tapes| == |acc.tapes|
  {
    var (state, key, rule) := a;
    if key == "title" then acc.(titles := acc.titles[state := rule])
    else if key == "info" then acc.(info := acc.info[state := rule])
    else if key == "color" then acc.(colors := acc.colors[state := JsString(rule)])
    else PutTapes(acc, state, WithCharsString(rule), Split(key, ','))
  }

  function ApplyAll(acc: Vis, xs: seq<Assignment>): (r: Vis)
    ensures |r.tapes| == |acc.tapes|
    decreases |xs|
  {
    if |xs| == 0 then acc else ApplyAll(Apply(acc, xs[0]), xs[1..])
  }

  // ---------------------------------------------------------------------
  // The last write wins

  function Put<V>(m: map<string, V>, o: Option<(string, V)>): map<string, V> {
    if o.Some? then m[o.value.0 := o.value.1] else m
  }

  /** `m` with the pairs `pick` selects from `xs` written in order. */
  function Overlay<V>(m: map<string, V>, xs: seq<Assignment>, pick: Assignment -> Option<(string, V)>): map<string, V>
    decreases |xs|
  {
    if |xs| == 0 then m else Overlay(Put(m, pick(xs[0])), xs[1..], pick)
  }

  predicate Hits<V>(o: Option<(string, V)>, s: string) {
    o.Some? && o.value.0 == s
  }

  /** `r` holds a key exactly when `m` does or some selected pair writes
      it; a written key holds its last write, any other its value in `m`. */
  ghost predicate LastWins<V>(r: map<string, V>, m: map<string, V>, xs: seq<Assignment>, pick: Assignment -> Option<(string, V)>) {
    && (forall s :: s in r <==> s in m || exists k :: 0 <= k < |xs| && Hits(pick(xs[k]), s))
    && (forall s, k :: 0 <= k < |xs| && Hits(pick(xs[k]), s) && (forall k' :: k < k' < |xs| ==> !Hits(pick(xs[k']), s)) ==>
          s in r && r[s] == pick(xs[k]).value.1)
    && (forall s :: s in m && (forall k :: 0 <= k < |xs| ==> !Hits(pick(xs[k]), s)) ==> s in r && r[s] == m[s])
  }

  lemma {:induction false} OverlayKeys<V>(m: map<string, V>, xs: seq<Assignment>, pick: Assignment -> Option<(string, V)>, s: string)
    ensures s in Overlay(m, xs, pick) <==> s in m || exists k :: 0 <= k < |xs| && Hits(pick(xs[k]), s)
    decreases |xs|
  {
    if |xs| > 0 {
      var tail := xs[1..];
      OverlayKeys(Put(m, pick(xs[0])), tail, pick, s);
      if exists k :: 0 <= k < |xs| && Hits(pick(xs[k]), s) {
        var k :| 0 <= k < |xs| && Hits(pick(xs[k]), s);
        if k > 0 {
          assert tail[k - 1] == xs[k];
        }
      }
      if exists k :: 0 <= k < |tail| && Hits(pick(tail[k]), s) {
        var k :| 0 <= k < |tail| && Hits(pick(tail[k]), s);
        assert xs[k + 1] == tail[k];
      }
    }
  }

  lemma {:induction false} OverlayUntouched<V>(m: map<string, V>, xs: seq<Assignment>, pick: Assignment -> Option<(string, V)>, s: string)
    requires s in m && forall k :: 0 <= k < |xs| ==> !Hits(pick(xs[k]), s)
    ensures s in Overlay(m, xs, pick) && Overlay(m, xs, pick)[s] == m[s]
    decreases |xs|
  {
    if |xs| > 0 {
      var tail := xs[1..];
      forall k | 0 <= k < |tail| ensures !Hits(pick(tail[k]), s) {
        assert tail[k] == xs[k + 1];
      }
      OverlayUntouched(Put(m, pick(xs[0])), tail, pick, s);
    }
  }

  lemma {:induction false} OverlayLast<V>(m: map<string, V>, xs: seq<Assignment>, pick: Assignment -> Option<(string, V)>, s: string, k: int)
    requires 0 <= k < |xs| && Hits(pick(xs[k]), s) && forall k' :: k < k' < |xs| ==> !Hits(pick(xs[k']), s)
    ensures s in Overlay(m, xs, pick) && Overlay(m, xs, pick)[s] == pick(xs[k]).value.1
    decreases |xs|
  {
    var tail := xs[1..];
    forall k' | k - 1 < k' < |tail| ensures !Hits(pick(tail[k']), s) {
      assert tail[k'] == xs[k' + 1];
    }
    if k == 0 {
      OverlayUntouched(Put(m, pick(xs[0])), tail, pick, s);
    } else {
      assert tail[k - 1] == xs[k];
      OverlayLast(Put(m, pick(xs[0])), tail, pick, s, k - 1);
    }
  }

  lemma OverlayLastWins<V>(m: map<string, V>, xs: seq<Assignment>, pick: Assignment -> Option<(string, V)>)
    ensures LastWins(Overlay(m, xs, pick), m, xs, pick)
  {
    var r := Overlay(m, xs, pick);
    forall s ensures s in r <==> s in m || exists k :: 0 <= k < |xs| && Hits(pick(xs[k]), s) {
      OverlayKeys(m, xs, pick, s);
    }
    forall s, k | 0 <= k < |xs| && Hits(pick(xs[k]), s) && (forall k' :: k < k' < |xs| ==> !Hits(pick(xs[k']), s))
      ensures s in r && r[s] == pick(xs[k]).value.1
    {
      OverlayLast(m, xs, pick, s, k);
    }
    forall s | s in m && (forall k :: 0 <= k < |xs| ==> !Hits(pick(xs[k]), s)) ensures s in r && r[s] == m[s] {
      OverlayUntouched(m, xs, pick, s);
    }
  }

  function TitlePick(a: Assignment): Option<(string, Value)> {
    if a.1 == "title" then Some((a.0, a.2)) else None
  }

  function InfoPick(a: Assignment): Option<(string, Value)> {
    if a.1 == "info" then Some((a.0, a.2)) else None
  }

  /** A colour is stored as its `String()` form. */
  function ColorPick(a: Assignment): Option<(string, string)> {
    if a.1 == "color" then Some((a.0, JsString(a.2))) else None
  }

  /** Some piece is the 1-based number of tape `t`. */
  ghost predicate NamesTape(pieces: seq<string>, t: int) {
    exists p :: p in pieces && ParseInt(p) == Some(t + 1)
  }

  /** A rule on tape `t` is stored with its `chars` turned into a string. */
  ghost function TapePick(t: int): Assignment -> Option<(string, Value)> {
    (a: Assignment) => if IsTapeKey(a.1) && NamesTape(Split(a.1, ','), t) then Some((a.0, WithCharsString(a.2))) else None
  }

  lemma PutTapeAt(acc: Vis, state: string, rule: Value, n: Option<int>, t: int)
    requires 0 <= t < |acc.tapes|
    ensures PutTape(acc, state, rule, n).tapes[t] == if n == Some(t + 1) then acc.tapes[t][state := rule] else acc.tapes[t]
  {
  }

  lemma NamesTapeCons(pieces: seq<string>, t: int)
    requires |pieces| > 0
    ensures NamesTape(pieces, t) <==> ParseInt(pieces[0]) == Some(t + 1) || NamesTape(pieces[1..], t)
  {
    if NamesTape(pieces, t) {
      var p :| p in pieces && ParseInt(p) == Some(t + 1);
      if p != pieces[0] {
        assert p in pieces[1..];
      }
    }
    if NamesTape(pieces[1..], t) {
      var p :| p in pieces[1..] && ParseInt(p) == Some(t + 1);
      assert p in pieces;
    }
    assert pieces[0] in pieces;
  }

  lemma {:induction false} PutTapesAt(acc: Vis, state: string, rule: Value, pieces: seq<string>, t: int)
    requires 0 <= t < |acc.tapes|
    ensures PutTapes(acc, state, rule, pieces).tapes[t] == if NamesTape(pieces, t) then acc.tapes[t][state := rule] else acc.tapes[t]
    decreases |pieces|
  {
    if |pieces| > 0 {
      var acc' := PutTape(acc, state, rule, ParseInt(pieces[0]));
      PutTapeAt(acc, state, rule, ParseInt(pieces[0]), t);
      PutTapesAt(acc', state, rule, pieces[1..], t);
      NamesTapeCons(pieces, t);
    }
  }

  lemma ApplyTape(acc: Vis, a: Assignment, t: int)
    requires 0 <= t < |acc.tapes|
    ensures Apply(acc, a).tapes[t] == Put(acc.tapes[t], TapePick(t)(a))
  {
    var (state, key, rule) := a;
    if IsTapeKey(key) {
      var pieces := Split(key, ',');
      assert Apply(acc, a) == PutTapes(acc, state, WithCharsString(rule), pieces);
      PutTapesAt(acc, state, WithCharsString(rule), pieces, t);
      assert TapePick(t)(a) == if NamesTape(pieces, t) then Some((state, WithCharsString(rule))) else None;
    } else {
      assert Apply(acc, a).tapes == acc.tapes;
      assert TapePick(t)(a) == None;
    }
  }

  lemma ApplyFields(acc: Vis, a: Assignment)
    ensures Apply(acc, a).titles == Put(acc.titles, TitlePick(a))
    ensures Apply(acc, a).info == Put(acc.info, InfoPick(a))
    ensures Apply(acc, a).colors == Put(acc.colors, ColorPick(a))
  {
  }

  /** Field by field, applying entries in order is the last write winning. */
  lemma {:induction false} ApplyAllFields(acc: Vis, xs: seq<Assignment>)
    ensures var r := ApplyAll(acc, xs);
      && r.titles == Overlay(acc.titles, xs, TitlePick)
      && r.info == Overlay(acc.info, xs, InfoPick)
      && r.colors == Overlay(acc.colors, xs, ColorPick)
    decreases |xs|
  {
    if |xs| > 0 {
      ApplyFields(acc, xs[0]);
      ApplyAllFields(Apply(acc, xs[0]), xs[1..]);
    }
  }

  lemma {:induction false} ApplyAllTapes(acc: Vis, xs: seq<Assignment>, t: int)
    requires 0 <= t < |acc.tapes|
    ensures ApplyAll(acc, xs).tapes[t] == Overlay(acc.tapes[t], xs, TapePick(t))
    decreases |xs|
  {
    if |xs| > 0 {
      ApplyTape(acc, xs[0], t);
      ApplyAllTapes(Apply(acc, xs[0]), xs[1..], t);
    }
  }

  // ---------------------------------------------------------------------
  // The folds of BuildVis

  lemma CheckRuleAccepted(state: string, key: string, rule: Value)
    ensures CheckRule(state, key, rule).Ok? <==> RuleAccepted(rule)
  {
  }

  lemma {:induction false} SetEntryTwice(entries: seq<(string, Value)>, k: string, x: Value)
    ensures SetEntry(SetEntry(entries, k, x), k, x) == SetEntry(entries, k, x)
    decreases |entries|
  {
    if |entries| > 0 {
      if entries[0].0 == k {
        assert ([(k, x)] + entries[1..])[1..] == entries[1..];
      } else {
        var rest := SetEntry(entries[1..], k, x);
        SetEntryTwice(entries[1..], k, x);
        assert ([entries[0]] + rest)[1..] == rest;
      }
    }
  }

  /** Turning `chars` into a string touches nothing the checks read, and a
      second time changes nothing. */
  lemma WithCharsKeeps(rule: Value)
    ensures RuleAccepted(WithCharsString(rule)) == RuleAccepted(rule)
    ensures WithCharsString(WithCharsString(rule)) == WithCharsString(rule)
  {
    if rule.Map? {
      var c := Str(JsStringOf(Prop(rule, "chars")));
      var r := WithCharsString(rule);
      assert Prop(r, "skip") == Prop(rule, "skip");
      assert Prop(r, "mode") == Prop(rule, "mode");
      assert Prop(r, "dir") == Prop(rule, "dir");
      assert Prop(r, "color") == Prop(rule, "color");
      assert Prop(r, "chars") == Some(c);
      SetEntryTwice(rule.entries, "chars", c);
    }
  }

  lemma VisTapeFacts(state: string, key: string, rule: Value, piece: string, count: Option<int>, acc: Vis)
    requires |acc.tapes| == |EmptyVis(count).tapes|
    ensures var r := VisTape(state, key, rule, piece, count, acc);
      && (r.Ok? <==> PieceOk(piece, count) && RuleAccepted(rule))
      && (r.Ok? ==> r.value == (WithCharsString(rule), PutTape(acc, state, WithCharsString(rule), ParseInt(piece))))
  {
    CheckRuleAccepted(state, key, rule);
  }

  lemma PiecesOkCons(pieces: seq<string>, count: Option<int>)
    requires |pieces| > 0
    ensures PiecesOk(pieces, count) <==> PieceOk(pieces[0], count) && PiecesOk(pieces[1..], count)
  {
    assert pieces == [pieces[0]] + pieces[1..];
  }

  lemma {:induction false} VisTapesFacts(state: string, key: string, rule: Value, pieces: seq<string>, count: Option<int>, acc: Vis)
    requires |acc.tapes| == |EmptyVis(count).tapes|
    ensures var r := VisTapes(state, key, rule, pieces, count, acc);
      && (r.Ok? <==> PiecesOk(pieces, count) && (|pieces| > 0 ==> RuleAccepted(rule)))
      && (r.Ok? ==> r.value == PutTapes(acc, state, WithCharsString(rule), pieces))
    decreases |pieces|
  {
    if |pieces| > 0 {
      VisTapeFacts(state, key, rule, pieces[0], count, acc);
      PiecesOkCons(pieces, count);
      var step := VisTape(state, key, rule, pieces[0], count, acc);
      if step.Ok? {
        WithCharsKeeps(rule);
        VisTapesFacts(state, key, WithCharsString(rule), pieces[1..], count, step.value.1);
      }
    }
  }

  lemma VisRuleFacts(state: string, key: string, rule: Value, count: Option<int>, acc: Vis)
    requires |acc.tapes| == |EmptyVis(count).tapes|
    ensures var r := VisRule(state, key, rule, count, acc);
      && (r.Ok? <==> EntryOk(key, rule, count))
      && (r.Ok? ==> r.value == Apply(acc, (state, key, rule)))
  {
    if IsTapeKey(key) {
      VisTapesFacts(state, key, rule, Split(key, ','), count, acc);
    }
  }

  lemma ApplyAllCons(acc: Vis, a: Assignment, xs: seq<Assignment>)
    ensures ApplyAll(acc, [a] + xs) == ApplyAll(Apply(acc, a), xs)
  {
    assert ([a] + xs)[1..] == xs;
  }

  lemma {:induction false} ApplyAllAppend(acc: Vis, xs: seq<Assignment>, ys: seq<Assignment>)
    ensures ApplyAll(acc, xs + ys) == ApplyAll(ApplyAll(acc, xs), ys)
    decreases |xs|
  {
    if |xs| == 0 {
      assert xs + ys == ys;
    } else {
      assert (xs + ys)[0] == xs[0];
      assert (xs + ys)[1..] == xs[1..] + ys;
      ApplyAllAppend(Apply(acc, xs[0]), xs[1..], ys);
    }
  }

  lemma {:induction false} VisRulesFacts(state: string, rules: seq<(string, Value)>, count: Option<int>, acc: Vis)
    requires |acc.tapes| == |EmptyVis(count).tapes|
    ensures var r := VisRules(state, rules, count, acc);
      && (r.Ok? <==> forall j :: 0 <= j < |rules| ==> EntryOk(rules[j].0, rules[j].1, count))
      && (r.Ok? ==> r.value == ApplyAll(acc, StateAssignments(state, rules)))
    decreases |rules|
  {
    if |rules| > 0 {
      VisRuleFacts(state, rules[0].0, rules[0].1, count, acc);
      var step := VisRule(state, rules[0].0, rules[0].1, count, acc);
      if step.Ok? {
        VisRulesFacts(state, rules[1..], count, step.value);
        ApplyAllCons(acc, (state, rules[0].0, rules[0].1), StateAssignments(state, rules[1..]));
        forall j | 1 <= j < |rules| ensures rules[1..][j - 1] == rules[j] {
        }
      }
    }
  }

  lemma {:induction false} VisStatesFacts(entries: seq<(string, Value)>, table: Table, count: Option<int>, acc: Vis)
    requires |acc.tapes| == |EmptyVis(count).tapes|
    ensures var r := VisStates(entries, table, count, acc);
      && (r.Ok? <==> forall i :: 0 <= i < |entries| ==> StateOk(entries[i].0, entries[i].1, table, count))
      && (r.Ok? ==> r.value == ApplyAll(acc, Assignments(entries)))
    decreases |entries|
  {
    if |entries| > 0 {
      var (state, rules) := entries[0];
      if state in Keys(table) && !rules.Null? {
        VisRulesFacts(state, RulesOf(rules), count, acc);
        var step := VisState(state, rules, table, count, acc);
        if step.Ok? {
          VisStatesFacts(entries[1..], table, count, step.value);
          ApplyAllAppend(acc, StateAssignments(state, RulesOf(rules)), Assignments(entries[1..]));
          forall i | 1 <= i < |entries| ensures entries[1..][i - 1] == entries[i] {
          }
        }
      }
    }
  }

  /** Both directions: `parseVis` accepts exactly the visualisations
      `VisAccepted` describes, and what it returns is the document's
      entries applied in order to the empty tables. */
  lemma BuildVisAccepted(vis: Option<Value>, table: Table, tapes: Option<int>)
    ensures var r := BuildVis(vis, table, tapes);
      && (r.Ok? <==> VisAccepted(vis, table, tapes))
      && (r.Ok? ==> r.value == ApplyAll(EmptyVis(VisCount(tapes)), Assignments(VisEntries(vis))))
  {
    if TruthyOpt(vis) {
      assert VisEntries(vis) == OwnEntries(vis.value).GetOr([]);
      VisStatesFacts(OwnEntries(vis.value).GetOr([]), table, VisCount(tapes), EmptyVis(VisCount(tapes)));
    }
  }

  // ---------------------------------------------------------------------
  // What an accepted visualisation holds

  /** The titles, info texts and colours hold, for each state, its last
      such entry (a colour as its `String()` form), and tape `t` holds, for
      each state, the last rule whose key names tape `t + 1`, with its
      `chars` turned into a string. */
  ghost predicate VisStores(r: Vis, xs: seq<Assignment>, n: nat) {
    && |r.tapes| == n
    && LastWins(r.titles, map[], xs, TitlePick)
    && LastWins(r.info, map[], xs, InfoPick)
    && LastWins(r.colors, map[], xs, ColorPick)
    && forall t :: 0 <= t < n ==> LastWins(r.tapes[t], map[], xs, TapePick(t))
  }

  lemma BuildVisMeaning(vis: Option<Value>, table: Table, tapes: Option<int>)
    ensures var r := BuildVis(vis, table, tapes);
      && (r.Ok? <==> VisAccepted(vis, table, tapes))
      && (r.Ok? ==> VisStores(r.value, Assignments(VisEntries(vis)), VisTapeCount(tapes)))
  {
    BuildVisAccepted(vis, table, tapes);
    var r := BuildVis(vis, table, tapes);
    if r.Ok? {
      var e := EmptyVis(VisCount(tapes));
      var xs := Assignments(VisEntries(vis));
      ApplyAllFields(e, xs);
      OverlayLastWins(e.titles, xs, TitlePick);
      OverlayLastWins(e.info, xs, InfoPick);
      OverlayLastWins(e.colors, xs, ColorPick);
      forall t | 0 <= t < |e.tapes| ensures LastWins(r.value.tapes[t], map[], xs, TapePick(t)) {
        assert e.tapes[t] == map[];
        ApplyAllTapes(e, xs, t);
        OverlayLastWins(e.tapes[t], xs, TapePick(t));
      }
    }
  }
}

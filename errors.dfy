/** `TMSpecError`: what went wrong with a machine specification (a short
    reason plus optional details), and the HTML message composed from it. */
module Errors {
  import opened Wrappers
  import opened Text
  import opened Values

  /** The optional details of an error. Every field may be absent. */
  datatype Details = Details(
    problemValue: Option<Value> := None,
    state: Option<string> := None,
    symbol: Option<string> := None,
    synonym: Option<string> := None,
    info: Option<string> := None,
    suggestion: Option<string> := None)

  /** A specification error: a reason code without runtime values, and the
      details that locate and explain it. */
  datatype SpecError = SpecError(reason: string, details: Details)

  /** Everything a parse or a transformation can end with instead of a
      result: a specification error, or a JavaScript exception that escapes
      the code (`TypeError`, `RangeError`) on inputs it does not foresee. */
  datatype Failure = Invalid(error: SpecError) | Thrown(name: string)

  /** `new TMSpecError(reason, details)`: the reason is kept as given and
      omitted or null details become the empty record. */
  function NewSpecError(reason: string, details: Option<Details>): (e: SpecError)
    ensures e.reason == reason
    ensures details.Some? ==> e.details == details.value
    ensures details.None? ==> e.details == Details()
  {
    SpecError(reason, if details.Some? then details.value else Details())
  }

  /** A failure with the given reason and details. */
  function Fail(reason: string, details: Details := Details()): Failure {
    Invalid(SpecError(reason, details))
  }

  function Code(s: string): string {
    "<code>" + s + "</code>"
  }

  /** The location phrase: a transition, a state, a synonym, or nothing. */
  function ShowLoc(state: Option<string>, symbol: Option<string>, synonym: Option<string>): string {
    if state.Some? then
      if symbol.Some? then
        " in the transition from state " + Code(state.value) + " and symbol " + Code(symbol.value)
      else
        " for state " + Code(state.value)
    else if synonym.Some? then
      " in the definition of synonym " + Code(synonym.value)
    else
      ""
  }

  /** Holds for a text detail that `filter(_.identity)` keeps. */
  predicate Present(s: Option<string>) {
    s.Some? && s.value != ""
  }

  function Location(e: SpecError): string {
    ShowLoc(e.details.state, e.details.symbol, e.details.synonym)
  }

  function ProblemValuePart(pv: Option<Value>): string {
    if TruthyOpt(pv) then " " + Code(JsString(pv.value)) else ""
  }

  function Header(e: SpecError): string {
    "<strong>" + e.reason + ProblemValuePart(e.details.problemValue) + "</strong>" + Location(e)
  }

  /** The sentences of the message, each ending with a full stop, with a
      line break after the first when there is a location. */
  function Sentences(e: SpecError): seq<string> {
    Layout(Header(e) + ".", Location(e) != "", Sentence(e.details.info), Sentence(e.details.suggestion))
  }

  /** A text detail as a sentence, or nothing when it is not present. */
  function Sentence(s: Option<string>): seq<string> {
    if Present(s) then [s.value + "."] else []
  }

  /** The header, the line break when `located`, then the other sentences. */
  function Layout(header: string, located: bool, info: seq<string>, suggestion: seq<string>): seq<string> {
    var kept := [header] + info + suggestion;
    if located then [kept[0], "<br>"] + kept[1..] else kept
  }

  /** The `message` property of a `TMSpecError`. */
  function Message(e: SpecError): string {
    Join(Sentences(e), " ")
  }

  // ---------------------------------------------------------------------
  // Properties of the message

  /** Which location phrase is used: the state wins over the synonym, the
      phrase is empty exactly when neither state nor synonym is given. */
  lemma LocationChoice(state: Option<string>, symbol: Option<string>, synonym: Option<string>, other: Option<string>)
    ensures (ShowLoc(state, symbol, synonym) == "") <==> (state.None? && synonym.None?)
    ensures state.Some? ==> ShowLoc(state, symbol, synonym) == ShowLoc(state, symbol, other)
    ensures state.Some? && symbol.Some? ==>
      ShowLoc(state, symbol, synonym) == " in the transition from state " + Code(state.value) + " and symbol " + Code(symbol.value)
    ensures state.Some? && symbol.None? ==> ShowLoc(state, symbol, synonym) == " for state " + Code(state.value)
    ensures state.None? && synonym.Some? ==> ShowLoc(state, symbol, synonym) == " in the definition of synonym " + Code(synonym.value)
  {
    if state.Some? {
      if symbol.Some? {
        assert ShowLoc(state, symbol, synonym)[0] == ' ';
      } else {
        assert ShowLoc(state, symbol, synonym)[0] == ' ';
      }
    } else if synonym.Some? {
      assert ShowLoc(state, symbol, synonym)[0] == ' ';
    }
  }

  lemma JoinStartsWith(parts: seq<string>, sep: string)
    requires |parts| >= 1
    ensures parts[0] <= Join(parts, sep)
  {
  }

  function Count(b: bool): nat {
    if b then 1 else 0
  }

  /** The shape of the message: the header sentence first, then (exactly when
      there is a location) a line break, then the info and the suggestion
      when present; every sentence but the break ends with a full stop. */
  lemma {:induction false} MessageShape(e: SpecError)
    ensures var s := Sentences(e);
      && |s| == 1 + Count(Location(e) != "") + Count(Present(e.details.info)) + Count(Present(e.details.suggestion))
      && s[0] == Header(e) + "."
      && (Location(e) != "" <==> "<br>" in s)
      && (Location(e) != "" ==> s[1] == "<br>")
      && (forall i :: 0 <= i < |s| && s[i] != "<br>" ==> s[i][|s[i]| - 1] == '.')
    ensures ("<strong>" + e.reason) <= Message(e)
  {
    var h := Header(e) + ".";
    assert h[|h| - 1] == '.';
    SentenceShape(e.details.info);
    SentenceShape(e.details.suggestion);
    LayoutShape(h, Location(e) != "", Sentence(e.details.info), Sentence(e.details.suggestion));
    JoinStartsWith(Sentences(e), " ");
    assert ("<strong>" + e.reason) <= h;
  }

  /** Every sentence of a detail ends with a full stop. */
  predicate Stopped(s: seq<string>) {
    forall i :: 0 <= i < |s| ==> |s[i]| > 0 && s[i][|s[i]| - 1] == '.'
  }

  lemma SentenceShape(s: Option<string>)
    ensures |Sentence(s)| == Count(Present(s)) && Stopped(Sentence(s))
  {
    if Present(s) {
      var t := s.value + ".";
      assert t[|t| - 1] == '.';
    }
  }

  lemma LayoutShape(header: string, located: bool, info: seq<string>, suggestion: seq<string>)
    requires Stopped([header]) && Stopped(info) && Stopped(suggestion)
    ensures var s := Layout(header, located, info, suggestion);
      && |s| == 1 + Count(located) + |info| + |suggestion|
      && s[0] == header
      && (located <==> "<br>" in s)
      && (located ==> s[1] == "<br>")
      && (forall i :: 0 <= i < |s| && s[i] != "<br>" ==> s[i][|s[i]| - 1] == '.')
  {
    var kept := [header] + info + suggestion;
    assert Stopped(kept) by {
      forall i | 0 <= i < |kept|
        ensures |kept[i]| > 0 && kept[i][|kept[i]| - 1] == '.'
      {
        if i == 0 {
          assert kept[i] == [header][0];
        } else if i <= |info| {
          assert kept[i] == info[i - 1];
        } else {
          assert kept[i] == suggestion[i - 1 - |info|];
        }
      }
    }
    assert "<br>"[3] != '.';
    if located {
      var s := [kept[0], "<br>"] + kept[1..];
      forall i | 0 <= i < |s| && s[i] != "<br>"
        ensures s[i][|s[i]| - 1] == '.'
      {
        if i > 1 {
          assert s[i] == kept[i - 1];
        }
      }
    } else {
      assert "<br>" !in kept;
    }
  }

  /** A falsy `problemValue` (absent, `0`, `''`, `null`, `false`) leaves
      the message as if it were not given. */
  lemma FalsyProblemValueIgnored(e: SpecError)
    requires !TruthyOpt(e.details.problemValue)
    ensures Message(e) == Message(e.(details := e.details.(problemValue := None)))
  {
  }
}

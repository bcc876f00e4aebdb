/**
 * The arithmetic drill's state record and the three actions that transform it
 * (next question, answer, language), as pure functions of the old state. The
 * app framework merges the partial object an action returns into the state;
 * here that merge is a record update that leaves every other field as it was.
 * The one scheduled side effect, the delayed advance after a right answer, is
 * returned as an Effect value instead of being performed.
 */
module Drill {
  import opened Wrappers

  /** The two language values the app itself produces (Cyrillic "ру" and Latin "en"). */
  const Russian: string := "ру"
  const English: string := "en"
  /** The only operator the app ever shows. */
  const Plus: string := "+"
  /** Milliseconds between a right answer and the next question. */
  const AdvanceDelayMs: nat := 2000

  datatype State = State(
    a: int,
    b: int,
    op: string,
    correct: int,
    disabledAnswers: set<int>,
    language: string,
    rightAnswer: Option<int>)

  datatype Effect = NoEffect | AdvanceAfter(delayMs: nat)

  /** What an action yields: the merged state and the effect it asks the runtime for. */
  datatype Step = Step(next: State, effect: Effect)

  /** A value `Math.floor(Math.random() * 10)` can produce. */
  predicate IsOperand(x: int) {
    0 <= x <= 9
  }

  /**
   * What holds of every state the app reaches: operands in range, the fixed
   * operator, a non-negative score, the right answer never disabled, and a
   * displayed right answer that is the sum.
   */
  predicate Inv(s: State) {
    && IsOperand(s.a) && IsOperand(s.b)
    && s.op == Plus
    && s.correct >= 0
    && s.a + s.b !in s.disabledAnswers
    && (s.rightAnswer.Some? ==> s.rightAnswer.value == s.a + s.b)
  }

  /** The language the app starts with, given what storage returned for the key "language". */
  function InitialLanguage(stored: Option<string>): (r: string)
    ensures r != ""
    ensures stored.Some? && stored.value != "" ==> r == stored.value
    ensures stored.None? || stored.value == "" ==> r == Russian
  {
    if stored.Some? && stored.value != "" then stored.value else Russian
  }

  /** The state the app is mounted with; it shows 0+0 until the first advance. */
  function Initial(stored: Option<string>): (s: State)
    ensures Inv(s)
    ensures s.a == 0 && s.b == 0 && s.op == Plus
    ensures s.correct == 0 && s.disabledAnswers == {} && s.rightAnswer == None
    ensures s.language == InitialLanguage(stored)
  {
    State(0, 0, Plus, 0, {}, InitialLanguage(stored), None)
  }

  /** "ру" becomes "en"; every other string, "en" included, becomes "ру". */
  function SwitchLanguage(language: string): (r: string)
    ensures r == Russian || r == English
    ensures r != language
    ensures r == English <==> language == Russian
  {
    if language == Russian then English else Russian
  }

  /** Switching twice is the identity exactly on the two languages the app produces. */
  lemma SwitchLanguageInvolution(language: string)
    ensures SwitchLanguage(SwitchLanguage(language)) == language <==> language == Russian || language == English
  {
  }

  /** The nextQuestion action with its two random draws `x` and `y` given as inputs. */
  function NextQuestion(s: State, x: int, y: int): (r: State)
    requires IsOperand(x) && IsOperand(y)
    ensures r.a == x && r.b == y
    ensures r.disabledAnswers == {} && r.rightAnswer == None
    ensures r.op == s.op && r.correct == s.correct && r.language == s.language
    ensures s.op == Plus && s.correct >= 0 ==> Inv(r)
  {
    s.(a := x, b := y, disabledAnswers := {}, rightAnswer := None)
  }

  /**
   * The answer action. A right answer adds one to the score, shows the answer
   * and asks for the next question after the delay; nothing prevents a second
   * right click from scoring again. A wrong answer is disabled.
   */
  function Answer(s: State, answer: int): (r: Step)
    ensures r.next.a == s.a && r.next.b == s.b && r.next.op == s.op && r.next.language == s.language
    ensures r.next.correct == if answer == s.a + s.b then s.correct + 1 else s.correct
    ensures r.next.rightAnswer == if answer == s.a + s.b then Some(answer) else s.rightAnswer
    ensures r.next.disabledAnswers == if answer == s.a + s.b then s.disabledAnswers else s.disabledAnswers + {answer}
    ensures r.effect == if answer == s.a + s.b then AdvanceAfter(AdvanceDelayMs) else NoEffect
    ensures Inv(s) ==> Inv(r.next)
  {
    if s.a + s.b == answer then
      Step(s.(correct := s.correct + 1, rightAnswer := Some(answer)), AdvanceAfter(AdvanceDelayMs))
    else
      Step(s.(disabledAnswers := s.disabledAnswers + {answer}), NoEffect)
  }

  /** The language action's effect on the state (its storage write is modelled by DrillApp). */
  function ToggleLanguage(s: State): (r: State)
    ensures r.language == SwitchLanguage(s.language)
    ensures r.(language := s.language) == s
    ensures Inv(s) ==> Inv(r)
  {
    s.(language := SwitchLanguage(s.language))
  }

  /** Repeating the same wrong answer leaves the state as the first time did. */
  lemma WrongAnswerIdempotent(s: State, answer: int)
    requires answer != s.a + s.b
    ensures Answer(Answer(s, answer).next, answer) == Answer(s, answer)
  {
  }

  // ---------------------------------------------------------------------
  // Event traces: what the user and the timer can do to the state.

  /**
   * A click may carry any integer, disabled or outside the rendered buttons
   * included, so traces over-approximate what the page allows and every
   * lemma about them covers at least all real sessions.
   */
  datatype Event =
    | Click(value: int)               // an answer submitted by a button
    | TimerFired(x: int, y: int)      // a pending advance runs, with its two random draws
    | LanguageClicked                 // the language toggle

  predicate WellFormed(e: Event) {
    e.TimerFired? ==> IsOperand(e.x) && IsOperand(e.y)
  }

  predicate AllWellFormed(es: seq<Event>) {
    forall i :: 0 <= i < |es| ==> WellFormed(es[i])
  }

  function Apply(s: State, e: Event): State
    requires WellFormed(e)
  {
    match e
    case Click(v) => Answer(s, v).next
    case TimerFired(x, y) => NextQuestion(s, x, y)
    case LanguageClicked => ToggleLanguage(s)
  }

  function Run(s: State, es: seq<Event>): State
    requires AllWellFormed(es)
    decreases |es|
  {
    if es == [] then s else Run(Apply(s, es[0]), es[1..])
  }

  /** Every state reachable by any sequence of clicks, timer firings and toggles satisfies Inv. */
  lemma {:induction false} RunPreservesInv(s: State, es: seq<Event>)
    requires Inv(s) && AllWellFormed(es)
    ensures Inv(Run(s, es))
    decreases |es|
  {
    if es != [] {
      RunPreservesInv(Apply(s, es[0]), es[1..]);
    }
  }

  /** No event ever lowers the score, and no event ever changes the operator. */
  lemma {:induction false} RunNeverLowersScore(s: State, es: seq<Event>)
    requires AllWellFormed(es)
    ensures Run(s, es).correct >= s.correct
    ensures Run(s, es).op == s.op
    decreases |es|
  {
    if es != [] {
      RunNeverLowersScore(Apply(s, es[0]), es[1..]);
    }
  }

  /** From the initial state the score stays non-negative and every state satisfies Inv. */
  lemma ReachableStates(stored: Option<string>, es: seq<Event>)
    requires AllWellFormed(es)
    ensures Inv(Run(Initial(stored), es))
    ensures Run(Initial(stored), es).correct >= 0
  {
    RunPreservesInv(Initial(stored), es);
  }

  function Clicks(xs: seq<int>): (r: seq<Event>)
    ensures |r| == |xs| && AllWellFormed(r)
    ensures forall i :: 0 <= i < |xs| ==> r[i] == Click(xs[i])
  {
    if xs == [] then [] else [Click(xs[0])] + Clicks(xs[1..])
  }

  /**
   * A run of answer clicks on one problem: the score rises by the number of
   * clicks on the sum, every other clicked value is disabled, and the problem,
   * operator and language stay.
   */
  lemma {:induction false} ClicksOnOneProblem(s: State, xs: seq<int>)
    ensures Run(s, Clicks(xs)).correct == s.correct + multiset(xs)[s.a + s.b]
    ensures Run(s, Clicks(xs)).disabledAnswers == s.disabledAnswers + (set x | x in xs && x != s.a + s.b)
    ensures Run(s, Clicks(xs)).a == s.a && Run(s, Clicks(xs)).b == s.b
    ensures Run(s, Clicks(xs)).op == s.op && Run(s, Clicks(xs)).language == s.language
    decreases |xs|
  {
    if xs != [] {
      var t := s.a + s.b;
      var s' := Apply(s, Click(xs[0]));
      assert Clicks(xs)[1..] == Clicks(xs[1..]);
      ClicksOnOneProblem(s', xs[1..]);
      assert xs == [xs[0]] + xs[1..];
      assert multiset(xs) == multiset{xs[0]} + multiset(xs[1..]);
      assert (set x | x in xs && x != t) == (if xs[0] != t then {xs[0]} else {}) + (set x | x in xs[1..] && x != t);
    }
  }

  lemma {:induction false} RepeatsCount(v: int, n: nat)
    ensures multiset(seq(n, _ => v))[v] == n
  {
    if n > 0 {
      RepeatsCount(v, n - 1);
      assert seq(n, _ => v) == seq(n - 1, _ => v) + [v];
    }
  }

  /** Clicking the right answer n times before the advance fires scores n, not 1. */
  lemma RepeatedCredit(s: State, n: nat)
    ensures Run(s, Clicks(seq(n, _ => s.a + s.b))).correct == s.correct + n
  {
    var xs := seq(n, _ => s.a + s.b);
    ClicksOnOneProblem(s, xs);
    RepeatsCount(s.a + s.b, n);
  }
}

/**
 * The view: a pure function from the state to an abstract description of the
 * rendered page (hero text, problem spans and class, answer buttons, footer,
 * language toggle). Element constructors and event wiring are reduced to the
 * data they carry: a button's click handler is the answer it would submit.
 */
module DrillView {
  import opened Wrappers
  import opened Decimal
  import opened Drill

  /** The page always offers the answers 0 .. ButtonCount - 1. */
  const ButtonCount: nat := 20

  /** An answer button: its caption, and the answer its click submits, or None when it is disabled. */
  datatype Button = Button(caption: string, onClick: Option<int>)

  datatype Screen = Screen(
    hero: string,
    problemClass: string,
    problem: seq<string>,
    answers: seq<Button>,
    footer: string,
    languageLabel: string)

  /** The title: "счет" in Russian, "count" for any other language value. */
  function HeroMessage(language: string): (r: string)
    ensures r == "счет" <==> language == Russian
    ensures r == "count" <==> language != Russian
  {
    if language == Russian then "счет" else "count"
  }

  function ScoreLabel(language: string): string {
    if language == Russian then "правильно " else "correct "
  }

  /** The footer: the language's score label followed by the score as JavaScript prints it. */
  function CorrectAnswers(language: string, n: int): (r: string)
    ensures var p := ScoreLabel(language); |r| > |p| && r[..|p|] == p && Parse(r[|p|..]) == Some(n)
  {
    ParseShow(n);
    var r := ScoreLabel(language) + Show(n);
    assert r[|ScoreLabel(language)|..] == Show(n);
    r
  }

  function AnswerButton(disabledAnswers: set<int>, k: int): Button {
    Button(Show(k), if k in disabledAnswers then None else Some(k))
  }

  /** The problem spans: "a" op "b", then " = " and the right answer once it is shown. */
  function ProblemSpans(s: State): seq<string> {
    [Show(s.a) + s.op + Show(s.b)] + if s.rightAnswer.Some? then [" = " + Show(s.rightAnswer.value)] else []
  }

  /** The rendered page; its full contents are given by ViewButtons and ViewProblem. */
  function View(s: State): (v: Screen)
    ensures |v.answers| == ButtonCount
    ensures forall k :: 0 <= k < ButtonCount ==> (v.answers[k].onClick.None? <==> k in s.disabledAnswers)
    ensures v.problemClass == "problem right" <==> s.rightAnswer.Some?
    ensures |v.problem| == if s.rightAnswer.Some? then 2 else 1
  {
    Screen(
      HeroMessage(s.language),
      if s.rightAnswer.Some? then "problem right" else "problem",
      ProblemSpans(s),
      seq(ButtonCount, k => AnswerButton(s.disabledAnswers, k)),
      CorrectAnswers(s.language, s.correct),
      s.language)
  }

  /**
   * The answer buttons: exactly ButtonCount of them, button k captioned so
   * that it reads back as k, disabled exactly when k is a disabled answer and
   * otherwise submitting k.
   */
  lemma ViewButtons(s: State)
    ensures |View(s).answers| == ButtonCount
    ensures forall k :: 0 <= k < ButtonCount ==>
      Parse(View(s).answers[k].caption) == Some(k) &&
      (View(s).answers[k].onClick.None? <==> k in s.disabledAnswers) &&
      (View(s).answers[k].onClick.Some? ==> View(s).answers[k].onClick.value == k)
  {
    forall k | 0 <= k < ButtonCount ensures Parse(View(s).answers[k].caption) == Some(k) {
      ParseShow(k);
    }
  }

  /**
   * The problem: "a", op and "b" with no spaces; the "right" class and the
   * " = answer" span exactly when a right answer is shown. Title, footer and
   * toggle follow the state's language and score.
   */
  lemma ViewProblem(s: State)
    ensures View(s).problemClass == "problem right" <==> s.rightAnswer.Some?
    ensures View(s).problemClass == "problem" <==> s.rightAnswer.None?
    ensures |View(s).problem| == if s.rightAnswer.Some? then 2 else 1
    ensures View(s).problem[0] == Show(s.a) + s.op + Show(s.b)
    ensures s.rightAnswer.Some? ==>
      View(s).problem[1][..3] == " = " && Parse(View(s).problem[1][3..]) == s.rightAnswer
    ensures View(s).hero == HeroMessage(s.language) && View(s).languageLabel == s.language
    ensures View(s).footer == CorrectAnswers(s.language, s.correct)
  {
    if s.rightAnswer.Some? {
      ParseShow(s.rightAnswer.value);
      assert View(s).problem[1][3..] == Show(s.rightAnswer.value);
    }
  }

  /** The indices of the buttons rendered disabled. */
  function DisabledButtons(v: Screen): set<int> {
    set k | 0 <= k < |v.answers| && v.answers[k].onClick.None?
  }

  /** In every reachable state the right answer has an enabled button that submits it. */
  lemma RightAnswerClickable(s: State)
    requires Inv(s)
    ensures 0 <= s.a + s.b < ButtonCount
    ensures View(s).answers[s.a + s.b].onClick == Some(s.a + s.b)
  {
  }

  /** A first wrong guess on a button disables exactly that one button and leaves the footer. */
  lemma FirstWrongGuess(s: State, x: int)
    requires Inv(s) && s.disabledAnswers == {}
    requires 0 <= x < ButtonCount && x != s.a + s.b
    ensures DisabledButtons(View(Answer(s, x).next)) == {x}
    ensures View(Answer(s, x).next).footer == View(s).footer
  {
    var v := View(Answer(s, x).next);
    forall k | k in DisabledButtons(v) ensures k == x {
    }
    assert x in DisabledButtons(v);
  }

  /**
   * A freshly loaded app shows 0+0 with no answer and no disabled button,
   * whatever language was stored; with nothing stored the footer reads
   * "правильно 0".
   */
  lemma InitialScreen(stored: Option<string>)
    ensures View(Initial(stored)).problem == ["0+0"]
    ensures View(Initial(stored)).problemClass == "problem"
    ensures DisabledButtons(View(Initial(stored))) == {}
    ensures stored == None ==> View(Initial(stored)).footer == "правильно 0"
  {
    assert Show(0) == "0";
    assert Show(0) + Plus + Show(0) == "0+0";
  }
}

/**
 * The running app: one mutable state whose fields the actions update in
 * place, plus the part of browser storage the app writes. Each method is
 * proved against the matching pure action of module Drill, and keeps Inv.
 */
module DrillApp {
  import opened Wrappers
  import opened Drill

  /** The storage key of the language preference. */
  const LanguageKey: string := "language"

  class App {
    var a: int
    var b: int
    var op: string
    var correct: int
    var disabledAnswers: set<int>
    var language: string
    var rightAnswer: Option<int>
    /** Browser storage as the app sees it: the value found at start and its own writes. */
    ghost var storage: map<string, string>

    function Snapshot(): State
      reads this
    {
      State(a, b, op, correct, disabledAnswers, language, rightAnswer)
    }

    ghost predicate Valid()
      reads this
    {
      Inv(Snapshot())
    }

    /** Mounts the app; `stored` is what storage returned for the language key. */
    constructor (stored: Option<string>)
      ensures Valid()
      ensures Snapshot() == Initial(stored)
      ensures correct == 0 && language == InitialLanguage(stored)
      ensures storage == if stored.Some? then map[LanguageKey := stored.value] else map[]
    {
      a, b, op, correct := 0, 0, Plus, 0;
      disabledAnswers := {};
      language := InitialLanguage(stored);
      rightAnswer := None;
      storage := if stored.Some? then map[LanguageKey := stored.value] else map[];
    }

    /** The nextQuestion action, run when a scheduled advance fires; `x` and `y` are the random draws. */
    method NextQuestion(x: int, y: int)
      requires Valid() && IsOperand(x) && IsOperand(y)
      modifies this
      ensures Valid()
      ensures a == x && b == y && disabledAnswers == {} && rightAnswer == None
      ensures Snapshot() == Drill.NextQuestion(old(Snapshot()), x, y)
      ensures storage == old(storage)
    {
      a, b := x, y;
      disabledAnswers := {};
      rightAnswer := None;
    }

    /**
     * The answer action. The returned effect is the advance app.js
     * schedules with a timer; running it is the caller's NextQuestion.
     */
    method Answer(answer: int) returns (effect: Effect)
      requires Valid()
      modifies this
      ensures Valid()
      ensures correct >= old(correct)
      ensures Step(Snapshot(), effect) == Drill.Answer(old(Snapshot()), answer)
      ensures storage == old(storage)
    {
      if a + b == answer {
        correct := correct + 1;
        rightAnswer := Some(answer);
        effect := AdvanceAfter(AdvanceDelayMs);
      } else {
        // app.js adds the key to the very object the state holds
        disabledAnswers := disabledAnswers + {answer};
        effect := NoEffect;
      }
    }

    /** The language action: switch the language and write the same value to storage. */
    method ToggleLanguage()
      requires Valid()
      modifies this
      ensures Valid()
      ensures language == SwitchLanguage(old(language))
      ensures Snapshot() == Drill.ToggleLanguage(old(Snapshot()))
      ensures storage == old(storage)[LanguageKey := language]
      ensures LanguageKey in storage && storage[LanguageKey] == language
    {
      language := SwitchLanguage(language);
      storage := storage[LanguageKey := language];
    }
  }
}

/** The quiz session of the question screen: a list of multiple-choice questions,
    the current position, the score, the streak of correct answers, and the
    per-answer verdicts shown after a choice. */
module QuizMenu {
  import opened Wrappers

  /** How one answer button is shown. */
  datatype AnswerState = Default | Correct | Incorrect | Revealed

  /** One question: its text, the index of the right answer, and the candidate answers. */
  datatype QuizItem = QuizItem(question: string, correctAnswer: nat, answers: seq<string>)

  /** A usable question list: not empty, and every right-answer index names an answer. */
  predicate WellFormed(items: seq<QuizItem>) {
    |items| > 0 && forall k :: 0 <= k < |items| ==> items[k].correctAnswer < |items[k].answers|
  }

  /** The three questions the screen ships with. */
  const Example: seq<QuizItem> := [
    QuizItem("What is the capital of France?", 1, ["London", "Paris", "Berlin", "Madrid"]),
    QuizItem("Which planet is closest to the Sun?", 0, ["Mercury", "Venus", "Earth", "Mars"]),
    QuizItem("What is 2 + 2?", 2, ["3", "5", "4", "6"])
  ]

  /** The verdicts of a question nobody has answered yet. */
  function Defaults(count: nat): (r: seq<AnswerState>)
    ensures |r| == count
    ensures forall i :: 0 <= i < count ==> r[i] == Default
  {
    seq(count, _ => Default)
  }

  /** The verdicts after `chosen` was picked among `count` answers whose right one is `correct`. */
  function Verdicts(count: nat, correct: nat, chosen: nat): (r: seq<AnswerState>)
    ensures |r| == count
    ensures forall i :: 0 <= i < count ==> (r[i] == Correct <==> i == correct)
    ensures forall i :: 0 <= i < count ==> (r[i] == Incorrect <==> i == chosen && chosen != correct)
    ensures forall i :: 0 <= i < count ==> (r[i] == Revealed <==> i != correct && i != chosen)
    ensures forall i :: 0 <= i < count ==> r[i] != Default
  {
    seq(count, i =>
      if i == correct then Correct
      else if i == chosen && chosen != correct then Incorrect
      else Revealed)
  }

  /** The state fields of the screen. */
  datatype Session = Session(
    question: nat,
    score: nat,
    streak: nat,
    selectedAnswer: Option<nat>,
    answerStates: seq<AnswerState>,
    isAnswered: bool,
    quizComplete: bool)

  /** The state when the screen mounts, and after a restart. */
  function Initial(items: seq<QuizItem>): Session
    requires |items| > 0
  {
    Session(0, 0, 0, None, Defaults(|items[0].answers|), false, false)
  }

  /** The state after answer `index` is pressed. */
  function AfterAnswer(items: seq<QuizItem>, s: Session, index: nat): Session
    requires s.question < |items|
  {
    if s.isAnswered then s
    else
      var item := items[s.question];
      var isCorrect := index == item.correctAnswer;
      s.(selectedAnswer := Some(index),
         isAnswered := true,
         answerStates := Verdicts(|item.answers|, item.correctAnswer, index),
         score := if isCorrect then s.score + 1 else s.score,
         streak := if isCorrect then s.streak + 1 else 0)
  }

  /** The state after the next-question button, taken as one step together with
      the fade-out callback that performs the advance. */
  function AfterNext(items: seq<QuizItem>, s: Session): Session
    requires s.question < |items|
  {
    if s.question + 1 >= |items| then s.(quizComplete := true)
    else
      s.(question := s.question + 1,
         selectedAnswer := None,
         answerStates := Defaults(|items[s.question + 1].answers|),
         isAnswered := false)
  }

  /** What the screen keeps true between events. */
  ghost predicate Inv(items: seq<QuizItem>, s: Session) {
    && s.question < |items|
    && s.streak <= s.score <= s.question + (if s.isAnswered then 1 else 0)
    && (s.isAnswered <==> s.selectedAnswer.Some?)
    && s.answerStates == (
         var item := items[s.question];
         if s.isAnswered then Verdicts(|item.answers|, item.correctAnswer, s.selectedAnswer.value)
         else Defaults(|item.answers|))
    && (s.quizComplete ==> s.question == |items| - 1)
  }

  /** A user event on the screen. */
  datatype Event = Answer(index: nat) | NextQuestion | Restart

  function Step(items: seq<QuizItem>, s: Session, e: Event): (r: Session)
    requires |items| > 0 && s.question < |items|
    ensures r.question < |items|
  {
    match e
    case Answer(i) => AfterAnswer(items, s, i)
    case NextQuestion => AfterNext(items, s)
    case Restart => Initial(items)
  }

  /** The state after a sequence of events. */
  function Run(items: seq<QuizItem>, s: Session, events: seq<Event>): (r: Session)
    requires |items| > 0 && s.question < |items|
    ensures r.question < |items|
    decreases |events|
  {
    if events == [] then s else Run(items, Step(items, s, events[0]), events[1..])
  }

  /** Pressing an answer: a no-op once answered; otherwise it records the choice,
      shows the verdicts, and scores it. */
  lemma AnswerEffect(items: seq<QuizItem>, s: Session, index: nat)
    requires s.question < |items|
    ensures var r := AfterAnswer(items, s, index);
      && (s.isAnswered ==> r == s)
      && (!s.isAnswered ==>
           var item := items[s.question];
           && r.selectedAnswer == Some(index) && r.isAnswered
           && |r.answerStates| == |item.answers|
           && r.answerStates == Verdicts(|item.answers|, item.correctAnswer, index)
           && (index == item.correctAnswer ==> r.score == s.score + 1 && r.streak == s.streak + 1)
           && (index != item.correctAnswer ==> r.score == s.score && r.streak == 0)
           && r.question == s.question && r.quizComplete == s.quizComplete)
  {
  }

  /** The next-question button: on the last question it only marks the quiz
      complete; otherwise it moves on and clears the answer. */
  lemma NextEffect(items: seq<QuizItem>, s: Session)
    requires s.question < |items|
    ensures var r := AfterNext(items, s);
      && (s.question + 1 >= |items| ==> r == s.(quizComplete := true))
      && (s.question + 1 < |items| ==>
           && r.question == s.question + 1
           && r.selectedAnswer == None
           && r.answerStates == Defaults(|items[s.question + 1].answers|)
           && !r.isAnswered
           && r.score == s.score && r.streak == s.streak && r.quizComplete == s.quizComplete)
  {
  }

  /** The initial snapshot satisfies the invariant, and a restart returns to it
      whatever came before. */
  lemma RestartEffect(items: seq<QuizItem>, s: Session)
    requires WellFormed(items) && s.question < |items|
    ensures Step(items, s, Restart) == Initial(items)
    ensures var r := Initial(items);
      && r.question == 0 && r.score == 0 && r.streak == 0 && r.selectedAnswer == None
      && r.answerStates == Defaults(|items[0].answers|) && !r.isAnswered && !r.quizComplete
    ensures Inv(items, Initial(items))
  {
  }

  /** Every event keeps the invariant. */
  lemma StepKeepsInv(items: seq<QuizItem>, s: Session, e: Event)
    requires WellFormed(items) && Inv(items, s)
    ensures Inv(items, Step(items, s, e))
  {
  }

  /** Any sequence of events keeps the invariant. */
  lemma {:induction false} RunKeepsInv(items: seq<QuizItem>, s: Session, events: seq<Event>)
    requires WellFormed(items) && Inv(items, s)
    ensures Inv(items, Run(items, s, events))
    decreases |events|
  {
    if events != [] {
      StepKeepsInv(items, s, events[0]);
      RunKeepsInv(items, Step(items, s, events[0]), events[1..]);
    }
  }

  /** From the initial snapshot, after any events:
      streak <= score <= questions answered so far <= number of questions. */
  lemma {:induction false} ScoreBounds(items: seq<QuizItem>, events: seq<Event>)
    requires WellFormed(items)
    ensures var r := Run(items, Initial(items), events);
      r.streak <= r.score <= r.question + (if r.isAnswered then 1 else 0) <= |items|
  {
    RestartEffect(items, Initial(items));
    RunKeepsInv(items, Initial(items), events);
  }

  /** Answering the shipped questions correctly in order scores 3 with a streak
      of 3, and the third advance completes the quiz. */
  lemma ExampleAllCorrect()
    ensures WellFormed(Example)
    ensures var r := Run(Example, Initial(Example), [Answer(1), NextQuestion, Answer(0), NextQuestion, Answer(2)]);
      r.score == 3 && r.streak == 3 && !r.quizComplete
      && Step(Example, r, NextQuestion).quizComplete
  {
    var s0 := Initial(Example);
    var s1 := AfterAnswer(Example, s0, 1);
    var s2 := AfterNext(Example, s1);
    var s3 := AfterAnswer(Example, s2, 0);
    var s4 := AfterNext(Example, s3);
    var s5 := AfterAnswer(Example, s4, 2);
    assert s5.score == 3 && s5.streak == 3 && s5.question == 2;
    assert Run(Example, s5, []) == s5;
    assert Run(Example, s4, [Answer(2)]) == s5;
    assert Run(Example, s3, [NextQuestion, Answer(2)]) == s5;
    assert Run(Example, s2, [Answer(0), NextQuestion, Answer(2)]) == s5;
    assert Run(Example, s1, [NextQuestion, Answer(0), NextQuestion, Answer(2)]) == s5;
  }

  /** The screen itself: each handler overwrites the state fields in place. */
  class QuestionMenu {
    const items: seq<QuizItem>
    var question: nat
    var score: nat
    var streak: nat
    var selectedAnswer: Option<nat>
    var answerStates: seq<AnswerState>
    var isAnswered: bool
    var quizComplete: bool

    ghost function Snapshot(): Session
      reads this
    {
      Session(question, score, streak, selectedAnswer, answerStates, isAnswered, quizComplete)
    }

    ghost predicate Valid()
      reads this
    {
      WellFormed(items) && Inv(items, Snapshot())
    }

    constructor (items: seq<QuizItem>)
      requires WellFormed(items)
      ensures this.items == items
      ensures Valid() && Snapshot() == Initial(items)
    {
      this.items := items;
      question := 0;
      score := 0;
      selectedAnswer := None;
      answerStates := Defaults(|items[0].answers|);
      isAnswered := false;
      quizComplete := false;
      streak := 0;
    }

    method HandleAnswer(index: nat)
      requires Valid()
      modifies this
      ensures Valid() && Snapshot() == AfterAnswer(items, old(Snapshot()), index)
    {
      if isAnswered {
        return;
      }
      selectedAnswer := Some(index);
      isAnswered := true;
      var isCorrect := index == items[question].correctAnswer;
      answerStates := Verdicts(|items[question].answers|, items[question].correctAnswer, index);
      if isCorrect {
        score := score + 1;
        streak := streak + 1;
      } else {
        streak := 0;
      }
    }

    method NextQuestion()
      requires Valid()
      modifies this
      ensures Valid() && Snapshot() == AfterNext(items, old(Snapshot()))
    {
      if question + 1 >= |items| {
        quizComplete := true;
        return;
      }
      var next := question + 1;
      question := next;
      selectedAnswer := None;
      answerStates := Defaults(|items[next].answers|);
      isAnswered := false;
    }

    method RestartQuiz()
      requires Valid()
      modifies this
      ensures Valid() && Snapshot() == Initial(items)
    {
      question := 0;
      score := 0;
      streak := 0;
      selectedAnswer := None;
      answerStates := Defaults(|items[0].answers|);
      isAnswered := false;
      quizComplete := false;
    }
  }
}

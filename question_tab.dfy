/** The quiz tab's mode selector: a chooser menu leading to the flash cards or the quiz. */
module QuestionTab {

  /** What `getNode` renders. */
  datatype Node = Chooser | FlashCardView | QuizView

  /** A control of the rendered node whose handler changes `selection`. */
  datatype Control = FlashCardsButton | QuizButton | BackButton

  /** The selection the tab starts with. */
  const InitialSelection: int := 0

  /** `getNode`: 0 renders the chooser, 1 the flash cards, anything else the quiz. */
  function GetNode(selection: int): (n: Node)
    ensures n == Chooser <==> selection == 0
    ensures n == FlashCardView <==> selection == 1
    ensures n == QuizView <==> selection != 0 && selection != 1
  {
    if selection == 0 then Chooser
    else if selection == 1 then FlashCardView
    else QuizView
  }

  /** The controls each node wires to `setSelection`: the two chooser buttons,
      and `GoBack` passed as the flash cards' `onBack`. The quiz gets no callback. */
  function Controls(n: Node): (cs: set<Control>)
    ensures BackButton in cs <==> n == FlashCardView
    ensures n == QuizView ==> cs == {}
  {
    match n
    case Chooser => {FlashCardsButton, QuizButton}
    case FlashCardView => {BackButton}
    case QuizView => {}
  }

  /** The selection a control's handler sets. */
  function Target(c: Control): int
  {
    match c
    case FlashCardsButton => 1
    case QuizButton => 2
    case BackButton => 0
  }

  /** Starting from the chooser, every selection reachable through the rendered
      controls is 0, 1 or 2, and the quiz offers no way back. */
  lemma {:induction false} ReachableSelections(presses: seq<Control>)
    ensures var s := Follow(InitialSelection, presses); s == 0 || s == 1 || s == 2
    ensures Controls(GetNode(Target(QuizButton))) == {}
  {
    FollowStays(InitialSelection, presses);
  }

  /** The selection after pressing `presses` in order, ignoring any press whose
      control the current node does not render. */
  function Follow(selection: int, presses: seq<Control>): int
    decreases |presses|
  {
    if presses == [] then selection
    else
      var next := if presses[0] in Controls(GetNode(selection)) then Target(presses[0]) else selection;
      Follow(next, presses[1..])
  }

  lemma {:induction false} FollowStays(selection: int, presses: seq<Control>)
    requires selection == 0 || selection == 1 || selection == 2
    ensures var s := Follow(selection, presses); s == 0 || s == 1 || s == 2
    ensures selection == 2 ==> Follow(selection, presses) == 2
    decreases |presses|
  {
    if presses != [] {
      var next := if presses[0] in Controls(GetNode(selection)) then Target(presses[0]) else selection;
      FollowStays(next, presses[1..]);
    }
  }

  /** The tab: `selection` is its only state. */
  class QuestionTabScreen {
    var selection: int

    constructor ()
      ensures selection == InitialSelection && GetNode(selection) == Chooser
    {
      selection := 0;
    }

    /** The chooser's "Flash cards" button. */
    method ChooseFlashCards()
      modifies this
      ensures selection == Target(FlashCardsButton) && GetNode(selection) == FlashCardView
    {
      selection := 1;
    }

    /** The chooser's "Quiz" button. */
    method ChooseQuiz()
      modifies this
      ensures selection == Target(QuizButton) && GetNode(selection) == QuizView
    {
      selection := 2;
    }

    /** `GoBack`, the flash cards' `onBack`. */
    method GoBack()
      modifies this
      ensures selection == Target(BackButton) && GetNode(selection) == Chooser
    {
      selection := 0;
    }
  }
}

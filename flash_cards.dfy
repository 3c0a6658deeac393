/** The flash-card screen: a cyclic position over a fixed list of cards. */
module FlashCards {

  datatype Card = Card(front: string, back: string)

  /** The `prev` handler's new index: the first card goes to the last. */
  function PrevIndex(index: int, n: int): (r: int)
    ensures 0 <= index < n ==> 0 <= r < n && r == (index - 1 + n) % n
  {
    if index - 1 < 0 then n - 1 else index - 1
  }

  /** The `next` handler's new index: the last card goes to the first. */
  function NextIndex(index: int, n: int): (r: int)
    ensures 0 <= index < n ==> 0 <= r < n && r == (index + 1) % n
  {
    if index + 1 > n - 1 then 0 else index + 1
  }

  /** `next` then `prev`, and `prev` then `next`, return to the same card. */
  lemma NextPrevInverse(index: int, n: int)
    requires 0 <= index < n
    ensures PrevIndex(NextIndex(index, n), n) == index
    ensures NextIndex(PrevIndex(index, n), n) == index
  {
  }

  /** The index after `k` presses of `next`. */
  function NextTimes(index: int, n: int, k: nat): int
  {
    if k == 0 then index else NextIndex(NextTimes(index, n, k - 1), n)
  }

  /** `a` reduced into `[0, n)` by repeatedly subtracting `n`: `a mod n`. */
  function Wrap(a: nat, n: nat): (r: nat)
    requires n > 0
    ensures r < n
    decreases a
  {
    if a < n then a else Wrap(a - n, n)
  }

  /** One more press of `next` moves the wrapped position one on. */
  lemma {:induction false} WrapSuccessor(a: nat, n: nat)
    requires n > 0
    ensures NextIndex(Wrap(a, n), n) == Wrap(a + 1, n)
    decreases a
  {
    if a >= n {
      WrapSuccessor(a - n, n);
    }
  }

  /** `k` presses of `next` move `k` cards on, cyclically: `(index + k) mod n`. */
  lemma {:induction false} NextTimesWraps(index: int, n: int, k: nat)
    requires 0 <= index < n
    ensures NextTimes(index, n, k) == Wrap(index + k, n)
  {
    if k > 0 {
      NextTimesWraps(index, n, k - 1);
      WrapSuccessor(index + k - 1, n);
    }
  }

  /** `n` presses of `next` come back to the start. */
  lemma FullCycle(index: int, n: int)
    requires 0 <= index < n
    ensures NextTimes(index, n, n) == index
  {
    NextTimesWraps(index, n, n);
  }

  /** With a single card both buttons keep index 0. */
  lemma {:induction false} SingleCardStays(k: nat)
    ensures NextTimes(0, 1, k) == 0
    ensures PrevIndex(0, 1) == 0
  {
    if k > 0 {
      SingleCardStays(k - 1);
    }
  }

  /** The screen: `index` is the only state, and the Random button has no handler. */
  class FlashCardMenu {
    const cards: seq<Card>
    var index: int

    ghost predicate Valid()
      reads this
    {
      |cards| > 0 && 0 <= index < |cards|
    }

    constructor (cards: seq<Card>)
      requires |cards| > 0
      ensures this.cards == cards && index == 0 && Valid()
    {
      this.cards := cards;
      index := 0;
    }

    /** The "i/n" label under the card. */
    function Position(): (p: int)
      reads this
      requires Valid()
      ensures 1 <= p <= |cards|
    {
      index + 1
    }

    method Prev()
      requires Valid()
      modifies this
      ensures Valid() && index == PrevIndex(old(index), |cards|)
    {
      if index - 1 < 0 {
        index := |cards| - 1;
      } else {
        index := index - 1;
      }
    }

    method Next()
      requires Valid()
      modifies this
      ensures Valid() && index == NextIndex(old(index), |cards|)
    {
      if index + 1 > |cards| - 1 {
        index := 0;
      } else {
        index := index + 1;
      }
    }

    /** The Random button: no handler is attached, so pressing it changes nothing. */
    method PressRandom()
      requires Valid()
      ensures Valid() && index == old(index)
    {
    }
  }
}

/** The note card of the feeds: the relative "Updated …" label, the excerpt,
    and the local vote and bookmark state. */
module ArticleCard {
  import opened Wrappers
  import opened JsText

  /** A vote as the card keeps it. */
  type Vote = v: int | -1 <= v <= 1

  /** The upvote button's state updater. */
  function Upvote(current: Vote): (r: Vote)
    ensures r != -1
    ensures r == 0 <==> current == 1
  {
    if current == 1 then 0 else 1
  }

  /** The downvote button's state updater. */
  function Downvote(current: Vote): (r: Vote)
    ensures r != 1
    ensures r == 0 <==> current == -1
  {
    if current == -1 then 0 else -1
  }

  /** The bookmark button's state updater. */
  function ToggleBookmark(bookmarked: bool): bool
  {
    !bookmarked
  }

  /** The effect that copies the server's `user_vote` into the card. */
  function NormaliseVote(userVote: int): (r: Vote)
    ensures userVote == -1 || userVote == 1 ==> r == userVote
    ensures userVote != -1 && userVote != 1 ==> r == 0
  {
    if userVote == -1 then -1 else if userVote == 1 then 1 else 0
  }

  /** Upvote never yields a downvote and vice versa; pressing the active button
      again clears it; a second press of the same button undoes the first unless
      it started from the opposite vote; bookmarking twice is the identity. */
  lemma ToggleProperties(v: Vote, b: bool)
    ensures Upvote(v) != -1 && Downvote(v) != 1
    ensures v != -1 ==> Upvote(Upvote(v)) == v
    ensures v != 1 ==> Downvote(Downvote(v)) == v
    ensures ToggleBookmark(b) != b && ToggleBookmark(ToggleBookmark(b)) == b
  {
  }

  /** Normalising is the identity on a value already in {-1, 0, 1}. */
  lemma NormaliseIdempotent(v: Vote)
    ensures NormaliseVote(v) == v
    ensures NormaliseVote(NormaliseVote(v)) == NormaliseVote(v)
  {
  }

  /** The unit table, largest first: label and length in seconds. */
  const Intervals: seq<(string, nat)> := [
    ("year", 31_536_000),
    ("month", 2_592_000),
    ("week", 604_800),
    ("day", 86_400),
    ("hour", 3_600),
    ("minute", 60)
  ]

  /** What the label says. */
  datatype Elapsed = JustNow | Ago(count: nat, unit: string)

  /** Whole seconds from `timestamp` to `now` (both in milliseconds), never negative. */
  function ElapsedSeconds(now: int, timestamp: int): (s: nat)
    ensures now <= timestamp ==> s == 0
    ensures now - timestamp >= 0 ==> s * 1000 <= now - timestamp < (s + 1) * 1000
  {
    var d := (now - timestamp) / 1000;
    if d < 0 then 0 else d
  }

  /** Unit `k` is the largest in the table that fits into `seconds` at least once. */
  predicate LargestFit(seconds: nat, k: int) {
    && 0 <= k < |Intervals|
    && Intervals[k].1 <= seconds
    && forall j | 0 <= j < k :: seconds < Intervals[j].1
  }

  /** The loop of `timeAgo` over the unit table. */
  method Bucket(seconds: nat) returns (e: Elapsed)
    ensures e == JustNow <==> seconds < 60
    ensures e.Ago? ==> e.count >= 1
    ensures e.Ago? ==> exists k :: LargestFit(seconds, k) && e == Ago(seconds / Intervals[k].1, Intervals[k].0)
  {
    for i := 0 to |Intervals|
      invariant forall j | 0 <= j < i :: seconds < Intervals[j].1
    {
      var unit, value := Intervals[i].0, Intervals[i].1;
      var result := seconds / value;
      if result >= 1 {
        assert LargestFit(seconds, i);
        return Ago(result, unit);
      }
    }
    assert Intervals[5].1 == 60;
    return JustNow;
  }

  /** A count never reaches the next larger unit: at most 12 months, 4 weeks,
      6 days, 23 hours or 59 minutes. */
  lemma CountBounds(seconds: nat, k: int)
    requires LargestFit(seconds, k)
    ensures 1 <= seconds / Intervals[k].1
    ensures k == 1 ==> seconds / Intervals[k].1 <= 12
    ensures k == 2 ==> seconds / Intervals[k].1 <= 4
    ensures k == 3 ==> seconds / Intervals[k].1 <= 6
    ensures k == 4 ==> seconds / Intervals[k].1 <= 23
    ensures k == 5 ==> seconds / Intervals[k].1 <= 59
  {
    if k > 0 {
      var bound, unit := Intervals[k - 1].1, Intervals[k].1;
      assert seconds < bound;
      assert seconds / unit <= (bound - 1) / unit;
    }
  }

  predicate IsDigit(c: char) {
    '0' <= c <= '9'
  }

  /** The number a string of decimal digits denotes, most significant digit first. */
  function DigitsValue(s: string): (v: nat)
    requires forall k :: 0 <= k < |s| ==> IsDigit(s[k])
  {
    if s == [] then 0
    else
      assert IsDigit(s[|s| - 1]);
      DigitsValue(s[..|s| - 1]) * 10 + (s[|s| - 1] as int - '0' as int)
  }

  /** Decimal digits of `n`, as `${n}` prints it: digits only, denoting `n`,
      and without a leading zero unless `n` is zero itself. */
  function Decimal(n: nat): (s: string)
    ensures |s| >= 1
    ensures forall k :: 0 <= k < |s| ==> IsDigit(s[k])
    ensures DigitsValue(s) == n
    ensures n == 0 ==> s == "0"
    ensures n > 0 ==> s[0] != '0'
    decreases n
  {
    var digit := ['0' + (n % 10) as char];
    if n < 10 then
      assert digit[..0] == [];
      digit
    else
      var prefix := Decimal(n / 10);
      assert (prefix + digit)[..|prefix|] == prefix;
      prefix + digit
  }

  /** A string of digits without a leading zero denotes a positive number. */
  lemma {:induction false} DigitsValuePositive(s: string)
    requires |s| >= 1 && forall k :: 0 <= k < |s| ==> IsDigit(s[k])
    requires s[0] != '0'
    ensures DigitsValue(s) > 0
    decreases |s|
  {
    if |s| > 1 {
      DigitsValuePositive(s[..|s| - 1]);
    } else {
      assert s[..0] == [];
    }
  }

  /** The other direction of `Decimal`: a canonical digit string (no leading zero
      unless it is "0") is what `${n}` prints for the number it denotes. */
  lemma {:induction false} DecimalOfDigits(s: string)
    requires |s| >= 1 && forall k :: 0 <= k < |s| ==> IsDigit(s[k])
    requires s[0] != '0' || s == "0"
    ensures Decimal(DigitsValue(s)) == s
    decreases |s|
  {
    var p := s[..|s| - 1];
    if |s| == 1 {
      assert p == [];
    } else {
      assert s[0] != '0';
      DigitsValuePositive(p);
      DecimalOfDigits(p);
      assert s == p + [s[|s| - 1]];
    }
  }

  /** The unit's word: plural exactly when the count exceeds one. */
  function UnitWord(unit: string, count: nat): (w: string)
    ensures count > 1 ==> w == unit + "s"
    ensures count <= 1 ==> w == unit
  {
    unit + (if count > 1 then "s" else "")
  }

  function Render(e: Elapsed): string
  {
    match e
    case JustNow => "just now"
    case Ago(count, unit) => Decimal(count) + " " + UnitWord(unit, count) + " ago"
  }

  /** `timeAgo`, with the clock reading and the parsed date as inputs. A date
      string that does not parse (`None`) makes every comparison with NaN fail,
      so the label falls through to "just now". */
  method TimeAgo(now: int, timestamp: Option<int>) returns (text: string, e: Elapsed)
    ensures text == Render(e)
    ensures e == JustNow <==> timestamp.None? || now - timestamp.value < 60_000
    ensures e.Ago? ==> timestamp.Some? && e.count >= 1
    ensures e.Ago? ==> var seconds := ElapsedSeconds(now, timestamp.value);
      exists k :: LargestFit(seconds, k) && e == Ago(seconds / Intervals[k].1, Intervals[k].0)
  {
    if timestamp.None? {
      e := JustNow;
    } else {
      var seconds := ElapsedSeconds(now, timestamp.value);
      e := Bucket(seconds);
    }
    text := Render(e);
  }

  /** The card's excerpt: the first 180 characters, trimmed. */
  function Excerpt(content: string): (r: string)
    ensures |r| <= 180
    ensures r == [] <==> AllWhitespace(Head(content))
    ensures r != [] ==> !IsWhitespace(r[0]) && !IsWhitespace(r[|r| - 1])
    ensures exists i :: TrimmedAt(Head(content), r, i)
  {
    Trim(Head(content))
  }

  /** `content.slice(0, 180)`: the first 180 characters, or all of a shorter content. */
  function Head(content: string): (h: string)
    ensures |h| == if |content| < 180 then |content| else 180
    ensures h == content[..|h|]
  {
    content[..if |content| < 180 then |content| else 180]
  }

  /** The excerpt is determined by what it promises: any whitespace-bounded core of
      the first 180 characters that neither starts nor ends with whitespace. */
  lemma ExcerptUnique(content: string, r: string, i: int)
    requires TrimmedAt(Head(content), r, i)
    requires r != [] ==> !IsWhitespace(r[0]) && !IsWhitespace(r[|r| - 1])
    ensures Excerpt(content) == r
  {
    TrimUnique(Head(content), r, i);
  }

  /** The card's React state. `renderedUserVote` is the `user_vote` the vote
      effect last ran for (none before the first render). */
  class ArticleCardState {
    var vote: Vote
    var bookmarked: bool
    var renderedUserVote: Option<int>

    constructor (userBookmark: bool)
      ensures vote == 0 && bookmarked == userBookmark && renderedUserVote == None
    {
      vote := 0;
      bookmarked := userBookmark;
      renderedUserVote := None;
    }

    method PressUpvote()
      modifies this`vote
      ensures vote == Upvote(old(vote))
    {
      vote := Upvote(vote);
    }

    method PressDownvote()
      modifies this`vote
      ensures vote == Downvote(old(vote))
    {
      vote := Downvote(vote);
    }

    method PressBookmark()
      modifies this`bookmarked
      ensures bookmarked == !old(bookmarked)
    {
      bookmarked := ToggleBookmark(bookmarked);
    }

    /** A render with the note's `user_vote`. The vote effect (with `user_vote`
        as its dependency, see `VoteAfterPress`) runs on the first render and
        whenever `user_vote` changed, and then shows the normalised server vote. */
    method Render(userVote: int)
      modifies this`vote, this`renderedUserVote
      ensures renderedUserVote == Some(userVote)
      ensures old(renderedUserVote) == Some(userVote) ==> vote == old(vote)
      ensures old(renderedUserVote) != Some(userVote) ==> vote == NormaliseVote(userVote)
    {
      if renderedUserVote != Some(userVote) {
        vote := NormaliseVote(userVote);
        renderedUserVote := Some(userVote);
      }
    }
  }

  /** Mount, press upvote, render again: the press stays, and so does a second press. */
  method PressSticksScenario(userVote: int) returns (afterPress: Vote, afterUndo: Vote)
    ensures afterPress == Upvote(NormaliseVote(userVote))
    ensures afterUndo == Upvote(afterPress)
    ensures userVote == 0 ==> afterPress == 1 && afterUndo == 0
  {
    var card := new ArticleCardState(false);
    card.Render(userVote);
    card.PressUpvote();
    card.Render(userVote);
    afterPress := card.vote;
    card.PressUpvote();
    card.Render(userVote);
    afterUndo := card.vote;
  }

  /** A vote button. */
  datatype Press = UpPress | DownPress

  function ApplyPress(p: Press, current: Vote): Vote
  {
    match p
    case UpPress => Upvote(current)
    case DownPress => Downvote(current)
  }

  /** As written: the effect has no dependency list, so it runs after every
      render, including the one a press causes, and puts back the server's vote. */
  function VoteAfterPressAsWritten(userVote: int, current: Vote, p: Press): Vote
  {
    var pressed := ApplyPress(p, current);
    NormaliseVote(userVote)
  }

  /** On a card whose server vote is 0, pressing upvote shows no vote afterwards. */
  lemma PressIsUndoneAsWritten(current: Vote, p: Press)
    ensures VoteAfterPressAsWritten(0, current, p) == 0
    ensures ApplyPress(UpPress, 0) == 1 && VoteAfterPressAsWritten(0, 0, UpPress) != ApplyPress(UpPress, 0)
  {
  }

  /** Corrected: the effect depends on `user_vote` and runs only when it changed
      since the previous render. */
  function VoteAfterPress(previousUserVote: int, userVote: int, current: Vote, p: Press): Vote
  {
    var pressed := ApplyPress(p, current);
    if userVote == previousUserVote then pressed else NormaliseVote(userVote)
  }

  /** With the corrected effect a press sticks while the server's vote is
      unchanged, and a new server vote still wins. */
  lemma PressSticks(previousUserVote: int, userVote: int, current: Vote, p: Press)
    ensures userVote == previousUserVote ==> VoteAfterPress(previousUserVote, userVote, current, p) == ApplyPress(p, current)
    ensures userVote != previousUserVote ==> VoteAfterPress(previousUserVote, userVote, current, p) == NormaliseVote(userVote)
  {
  }
}

/** The feed-sync counter: a context value that sibling feed components watch
    and bump to signal that data may be stale. */
module FeedSync {
  import opened Wrappers

  /** `forceReducer`: a reducer that takes no action and adds one. */
  function ForceReducer(state: int): int
  {
    state + 1
  }

  /** The counter the provider starts with. */
  const InitialCounter: int := 0

  /** The counter after `k` dispatches from the initial value. */
  function AfterDispatches(k: nat): int
  {
    if k == 0 then InitialCounter else ForceReducer(AfterDispatches(k - 1))
  }

  /** After `k` calls to `forceUpdate` the counter is `k`, so it strictly increases. */
  lemma {:induction false} CounterCountsDispatches(k: nat)
    ensures AfterDispatches(k) == k
    ensures AfterDispatches(k) < AfterDispatches(k + 1)
  {
    if k > 0 {
      CounterCountsDispatches(k - 1);
    }
  }

  /** The value the provider puts in the context. */
  datatype FeedSyncContext = FeedSyncContext(counter: int)

  /** `useFeedSync`: the nearest provider's value, or the error it throws outside any provider. */
  function UseFeedSync(context: Option<FeedSyncContext>): (r: Result<FeedSyncContext, string>)
    ensures context.Some? ==> r == Ok(context.value)
    ensures context.None? ==> r == Err("useFeedSync must be used within FeedSyncProvider")
  {
    match context
    case Some(c) => Ok(c)
    case None => Err("useFeedSync must be used within FeedSyncProvider")
  }

  /** `FeedSyncProvider`: the state held by `useReducer`. */
  class FeedSyncProvider {
    var counter: int

    constructor ()
      ensures counter == InitialCounter
    {
      counter := 0;
    }

    /** The context value handed to children. */
    function Context(): (c: FeedSyncContext)
      reads this
      ensures UseFeedSync(Some(c)) == Ok(c) && c.counter == counter
    {
      FeedSyncContext(counter)
    }

    /** `forceUpdate`: dispatch once. */
    method ForceUpdate()
      modifies this
      ensures counter == ForceReducer(old(counter)) && counter > old(counter)
    {
      counter := ForceReducer(counter);
    }
  }
}

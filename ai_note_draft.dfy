/** The AI-note draft store: a module-level list of attachments with a set of
    subscribers that are called after every change. */
module AiNoteDraft {
  import opened Wrappers
  import Seqs

  datatype Attachment = Attachment(id: int, filename: string, uri: Option<string>, ocr: Option<string>)

  /** A subscribed callback, by identity. */
  type Listener = nat

  /** The list `removeAttachment(id)` leaves: every entry with another id, in order. */
  function WithoutId(xs: seq<Attachment>, id: int): (r: seq<Attachment>)
    ensures forall a | a in r :: a in xs && a.id != id
    ensures forall a | a in xs && a.id != id :: a in r
    ensures forall a | a in xs :: multiset(r)[a] == if a.id != id then multiset(xs)[a] else 0
    ensures Seqs.Subsequence(r, xs)
  {
    Seqs.FilterIsSubsequence(xs, (a: Attachment) => a.id != id);
    Seqs.Filter(xs, (a: Attachment) => a.id != id)
  }

  /** Adding one attachment whose id is new, then removing that id, restores the list. */
  lemma AddThenRemoveRestores(xs: seq<Attachment>, a: Attachment)
    requires forall k :: 0 <= k < |xs| ==> xs[k].id != a.id
    ensures WithoutId(xs + [a], a.id) == xs
  {
    var keep := (b: Attachment) => b.id != a.id;
    Seqs.FilterAppend(xs, [a], keep);
    Seqs.FilterAllKept(xs, keep);
  }

  class AiNoteDraftStore {
    var attachments: seq<Attachment>
    var subscribers: set<Listener>
    /** How many times each listener has been called. */
    var notified: map<Listener, nat>

    function Calls(l: Listener): nat
      reads this
    {
      if l in notified then notified[l] else 0
    }

    constructor ()
      ensures attachments == [] && subscribers == {} && notified == map[]
    {
      attachments := [];
      subscribers := {};
      notified := map[];
    }

    /** `getSnapshot`. */
    function GetSnapshot(): seq<Attachment>
      reads this
    {
      attachments
    }

    /** `emit`: call every subscriber once. */
    method Emit()
      modifies this`notified
      ensures forall l :: Calls(l) == old(Calls(l)) + (if l in subscribers then 1 else 0)
    {
      var pending := subscribers;
      while pending != {}
        invariant pending <= subscribers
        invariant forall l :: Calls(l) == old(Calls(l)) + (if l in subscribers - pending then 1 else 0)
        decreases pending
      {
        var l :| l in pending;
        notified := notified[l := Calls(l) + 1];
        pending := pending - {l};
      }
    }

    /** `subscribe(listener)`. */
    method Subscribe(listener: Listener)
      modifies this`subscribers
      ensures subscribers == old(subscribers) + {listener}
    {
      subscribers := subscribers + {listener};
    }

    /** The function `subscribe(listener)` returns: it removes exactly that listener. */
    method Unsubscribe(listener: Listener)
      modifies this`subscribers
      ensures subscribers == old(subscribers) - {listener}
    {
      subscribers := subscribers - {listener};
    }

    /** `addAttachments`: an empty batch changes nothing and notifies no one. */
    method AddAttachments(newAttachments: seq<Attachment>)
      modifies this`attachments, this`notified
      ensures attachments == old(attachments) + newAttachments
      ensures newAttachments == [] ==> notified == old(notified)
      ensures newAttachments != [] ==>
        forall l :: Calls(l) == old(Calls(l)) + (if l in subscribers then 1 else 0)
    {
      if |newAttachments| == 0 {
        return;
      }
      attachments := attachments + newAttachments;
      Emit();
    }

    /** `removeAttachment`: notifies even when no entry had that id. */
    method RemoveAttachment(id: int)
      modifies this`attachments, this`notified
      ensures attachments == WithoutId(old(attachments), id)
      ensures forall l :: Calls(l) == old(Calls(l)) + (if l in subscribers then 1 else 0)
    {
      attachments := WithoutId(attachments, id);
      Emit();
    }

    /** `clearAttachments`: a no-op without notification on an empty list. */
    method ClearAttachments()
      modifies this`attachments, this`notified
      ensures attachments == []
      ensures old(attachments) == [] ==> notified == old(notified)
      ensures old(attachments) != [] ==>
        forall l :: Calls(l) == old(Calls(l)) + (if l in subscribers then 1 else 0)
    {
      if |attachments| == 0 {
        return;
      }
      attachments := [];
      Emit();
    }
  }

  /** A listener that unsubscribed is not called by later changes, while one
      still subscribed is called once per change; the snapshot a component reads
      follows each change. */
  method UnsubscribedListenerScenario(stay: Listener, leave: Listener, a: Attachment)
    returns (stayCalls: nat, leaveCalls: nat, afterAdd: seq<Attachment>, afterRemove: seq<Attachment>)
    requires stay != leave
    ensures stayCalls == 2 && leaveCalls == 0
    ensures afterAdd == [a] && afterRemove == []
  {
    var store := new AiNoteDraftStore();
    store.Subscribe(stay);
    store.Subscribe(leave);
    store.Unsubscribe(leave);
    store.AddAttachments([a]);
    afterAdd := store.GetSnapshot();
    store.RemoveAttachment(a.id);
    afterRemove := store.GetSnapshot();
    store.ClearAttachments();
    stayCalls := store.Calls(stay);
    leaveCalls := store.Calls(leave);
  }
}

/** The AI-note status bridge: remembers the last status message and uploading
    flag, and forwards them to at most one registered pair of handlers. */
module AiNoteStatusBridge {
  import opened Wrappers

  /** A registered `{ setStatus, setUploading }` object, by identity. */
  type HandlersId = nat

  /** A call made into registered handlers. */
  datatype Delivery = StatusDelivered(to: HandlersId, message: string) | UploadingDelivered(to: HandlersId, uploading: bool)

  class StatusBridge {
    var handlers: Option<HandlersId>
    var lastStatus: string
    var lastUploading: bool
    /** Every handler call so far, in order. */
    var deliveries: seq<Delivery>

    constructor ()
      ensures handlers == None && lastStatus == "" && !lastUploading && deliveries == []
    {
      handlers := None;
      lastStatus := "";
      lastUploading := false;
      deliveries := [];
    }

    /** `registerAiNoteStatusHandlers`: replaces any earlier handlers and replays
        the remembered status and flag to the new ones. */
    method Register(nextHandlers: HandlersId)
      modifies this`handlers, this`deliveries
      ensures handlers == Some(nextHandlers)
      ensures deliveries == old(deliveries)
        + [StatusDelivered(nextHandlers, lastStatus), UploadingDelivered(nextHandlers, lastUploading)]
    {
      handlers := Some(nextHandlers);
      deliveries := deliveries + [StatusDelivered(nextHandlers, lastStatus)];
      deliveries := deliveries + [UploadingDelivered(nextHandlers, lastUploading)];
    }

    /** The function `Register(registered)` returns: it clears the handlers only
        if they are still the ones it registered. */
    method Unregister(registered: HandlersId)
      modifies this`handlers
      ensures handlers == if old(handlers) == Some(registered) then None else old(handlers)
    {
      if handlers == Some(registered) {
        handlers := None;
      }
    }

    /** `emitAiNoteStatus`: remember, then forward only if someone is registered. */
    method EmitStatus(message: string)
      modifies this`lastStatus, this`deliveries
      ensures lastStatus == message
      ensures deliveries == old(deliveries)
        + (if handlers.Some? then [StatusDelivered(handlers.value, message)] else [])
    {
      lastStatus := message;
      if handlers.Some? {
        deliveries := deliveries + [StatusDelivered(handlers.value, message)];
      }
    }

    /** `emitAiNoteUploading`: remember, then forward only if someone is registered. */
    method EmitUploading(uploading: bool)
      modifies this`lastUploading, this`deliveries
      ensures lastUploading == uploading
      ensures deliveries == old(deliveries)
        + (if handlers.Some? then [UploadingDelivered(handlers.value, uploading)] else [])
    {
      lastUploading := uploading;
      if handlers.Some? {
        deliveries := deliveries + [UploadingDelivered(handlers.value, uploading)];
      }
    }
  }

  /** A stale unregister (of handlers that were since replaced) keeps the newer registration. */
  method StaleUnregisterScenario(first: HandlersId, second: HandlersId) returns (current: Option<HandlersId>)
    requires first != second
    ensures current == Some(second)
  {
    var bridge := new StatusBridge();
    bridge.Register(first);
    bridge.Register(second);
    bridge.Unregister(first);
    current := bridge.handlers;
  }

  /** Values emitted while nothing is registered reach the next registrant, and
      nothing is delivered before it registers. */
  method ReplayScenario(message: string, uploading: bool, h: HandlersId) returns (delivered: seq<Delivery>)
    ensures delivered == [StatusDelivered(h, message), UploadingDelivered(h, uploading)]
  {
    var bridge := new StatusBridge();
    bridge.EmitStatus(message);
    bridge.EmitUploading(uploading);
    bridge.Register(h);
    delivered := bridge.deliveries;
  }
}

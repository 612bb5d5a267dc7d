/** Values shared by every part of the notification lifecycle: the error
    taxonomy, the row layout of a stored notification, its status enum, the
    trigger behaviours and the opaque data codec. */
module Types {

  datatype Option<+T> = None | Some(value: T)

  datatype Result<+T> = Success(value: T) | Failure(error: Error)

  /** Every exception the core raises, catches or lets through. */
  datatype Error =
    | DuplicateNotification          // a dedup policy rejected the trigger
    | ChannelSendException           // a channel could not deliver
    | UnknownTriggerException        // no message class registered under the name
    | LockTimeout(waited: int)       // RuntimeError('Lock could not be acquired after {waited}ms')
    | DoesNotExist                   // Notification.DoesNotExist from a lookup by id
    | MissingContent                 // AttributeError: a per-content behaviour given no content
    | DeleteWithoutKey               // the store refuses to delete an instance that has no id
    | AppError(name: string)         // any other exception raised by message-class code

  /** Notification.Status. */
  datatype Status = Created | Failed | Cancelled | Broken | SuccessfullySent

  /** TriggerBehavior: the dedup / lifecycle policy of a message class. */
  datatype Behavior =
    | DeleteAfterProcessing | Default | TriggerOnce | TriggerOncePerContent | SendOnce | SendOncePerContent
  {
    /** The declared integer value of the behaviour. */
    function Value(): int {
      match this
      case DeleteAfterProcessing => 0
      case Default => 10
      case TriggerOnce => 20
      case TriggerOncePerContent => 25
      case SendOnce => 30
      case SendOncePerContent => 35
    }

    /** The two behaviours whose dedup scope includes the content. */
    predicate PerContent() {
      this == SendOncePerContent || this == TriggerOncePerContent
    }

    /** The two behaviours that are evaluated without a lock and never reject. */
    predicate LockFree() {
      this == Default || this == DeleteAfterProcessing
    }
  }

  /** The behaviour declared with integer value v, if any. */
  function BehaviorOf(v: int): (b: Option<Behavior>)
    ensures b.Some? ==> b.value.Value() == v
    ensures b.None? ==> forall c: Behavior :: c.Value() != v
  {
    if v == 0 then Some(DeleteAfterProcessing)
    else if v == 10 then Some(Default)
    else if v == 20 then Some(TriggerOnce)
    else if v == 25 then Some(TriggerOncePerContent)
    else if v == 30 then Some(SendOnce)
    else if v == 35 then Some(SendOncePerContent)
    else None
  }

  /** The polymorphic content reference: the content's type name and its id. */
  datatype Content = Content(typeTag: string, id: int)

  /** The notification's payload: an arbitrary key/value mapping. */
  type Data = map<string, string>

  /** The pair of functions that turn data into the stored text blob and back. */
  datatype Codec = Codec(encode: Data -> string, decode: string -> Data)

  /** A codec that round-trips every mapping and never produces an empty blob. */
  ghost predicate RoundTrips(c: Codec) {
    forall d: Data {:trigger c.encode(d)} :: c.decode(c.encode(d)) == d && |c.encode(d)| > 0
  }

  /** What reading `data` from a blob gives: an empty blob is the empty mapping. */
  function ReadBlob(c: Codec, blob: string): (d: Data)
    ensures blob == [] ==> d == map[]
  {
    if |blob| <= 0 then map[] else c.decode(blob)
  }

  /** A stored notification row (identity excluded: it is the key of the store). */
  datatype Row = Row(
    triggerName: string,
    targetUser: int,
    triggerUser: Option<int>,
    content: Option<Content>,
    blob: string,
    scheduled: int,
    processed: Option<int>,
    status: Status)
}

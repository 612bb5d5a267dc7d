/** The channel facade a notification is sent through: it resolves the
    registered message class, builds the message from the notification,
    asks it whether it is still valid and sends it, turning any delivery
    error into ChannelSendException. */
module Channels {
  import opened Types
  import opened Registry

  /** What one call into message-class code does on this attempt. */
  datatype Call<+T> = Returns(value: T) | Raises(error: Error)

  /** How the message class behaves on one attempt: its constructor, its
      check_validity (None when the class defines none) and its send. */
  datatype HandlerRun = HandlerRun(init: Call<()>, checkValidity: Option<Call<bool>>, send: Call<()>)

  /** A message instance: the class it was built from and how its code behaves. */
  datatype Message = Message(cls: MessageClass, run: HandlerRun)

  /** Channel(notification): the notification's trigger name and the message
      built for it. */
  datatype Channel = Channel(triggerName: string, message: Message)

  /** get_template: the class registered under the trigger name. */
  function GetTemplate(entries: map<string, MessageClass>, name: string): (r: Result<MessageClass>)
    ensures r.Success? <==> name in entries
    ensures r.Success? ==> r.value == entries[name]
    ensures r.Failure? ==> r.error == UnknownTriggerException
  {
    if name in entries then Success(entries[name]) else Failure(UnknownTriggerException)
  }

  /** Channel.__init__: resolve the class and construct the message; an
      error of the constructor propagates as it is. */
  function Open(entries: map<string, MessageClass>, name: string, run: HandlerRun): (r: Result<Channel>)
    ensures r.Success? <==> name in entries && run.init.Returns?
    ensures r.Success? ==> r.value.message == Message(entries[name], run) && r.value.triggerName == name
    ensures name !in entries ==> r == Failure(UnknownTriggerException)
    ensures name in entries && run.init.Raises? ==> r == Failure(run.init.error)
  {
    var template := GetTemplate(entries, name);
    if template.Failure? then Failure(template.error)
    else if run.init.Raises? then Failure(run.init.error)
    else Success(Channel(name, Message(template.value, run)))
  }

  /** check_validity: true when the message defines none, otherwise its answer
      (an error it raises propagates). */
  function CheckValidity(ch: Channel): (r: Result<bool>)
    ensures ch.message.run.checkValidity.None? ==> r == Success(true)
    ensures ch.message.run.checkValidity.Some? ==>
      match ch.message.run.checkValidity.value
      case Returns(b) => r == Success(b)
      case Raises(e) => r == Failure(e)
  {
    match ch.message.run.checkValidity
    case None => Success(true)
    case Some(Returns(b)) => Success(b)
    case Some(Raises(e)) => Failure(e)
  }

  /** send: whatever the message's send raises becomes ChannelSendException. */
  function Send(ch: Channel): (r: Result<()>)
    ensures r.Success? <==> ch.message.run.send.Returns?
    ensures r.Failure? ==> r.error == ChannelSendException
  {
    match ch.message.run.send
    case Returns(v) => Success(v)
    case Raises(_) => Failure(ChannelSendException)
  }
}

/** The callbacks of the proxy, line by line, over the values of BufferEvents. */
module ProxyCallbacks {
  import opened Common
  import opened BufferEvents

  const MAX_OUTPUT: nat := 512 * 1024

  function ReadCb(s: State, b: Id, ctx: Option<Id>): Result<State> {
    var x :- Get(s, b);
    match ctx
    case None => DrainInput(s, b)
    case Some(p) =>
      var s1 :- AddBuffer(s, p, b);
      var dst :- Get(s1, p);
      if |dst.output| >= MAX_OUTPUT then
        var s2 :- SetCb(s1, p, true, Drained, true, Some(b));
        var s3 :- SetWriteMark(s2, p, MAX_OUTPUT / 2, MAX_OUTPUT);
        SetReading(s3, b, false)
      else
        Ok(s1)
  }

  function DrainedWriteCb(s: State, b: Id, ctx: Option<Id>): Result<State> {
    var s1 :- SetCb(s, b, true, NoWrite, true, ctx);
    var s2 :- SetWriteMark(s1, b, 0, 0);
    match ctx
    case Some(p) => SetReading(s2, p, true)
    case None => Ok(s2)
  }

  function CloseOnFinishedWriteCb(s: State, b: Id): Result<State> {
    var x :- Get(s, b);
    if |x.output| == 0 then Free(s, b, Finished) else Ok(s)
  }

  function EventCb(s: State, b: Id, what: set<Flag>, ctx: Option<Id>): Result<State> {
    if what * {Eof, Error} == {} then
      Ok(s)
    else
      match ctx
      case None => Free(s, b, OwnEvent)
      case Some(p) =>
        var s1 :- ReadCb(s, b, ctx);
        var y :- Get(s1, p);
        if |y.output| != 0 then
          var s2 :- SetCb(s1, p, false, CloseOnFinished, true, None);
          var s3 :- SetReading(s2, p, false);
          Free(s3, b, OwnEvent)
        else
          var s2 :- Free(s1, p, PartnerEnded);
          Free(s2, b, OwnEvent)
  }

  /** `connected` is false when `bufferevent_socket_connect` fails at once. */
  function AcceptCb(s: State, connected: bool): Result<State> {
    var bIn := |s|;
    var bOut := |s| + 1;
    var s1 := s + [New(bOut), New(bIn)];
    if !connected then
      var s2 :- Free(s1, bOut, NotConnected);
      Free(s2, bIn, NotConnected)
    else
      var s2 :- SetCb(s1, bIn, true, NoWrite, true, Some(bOut));
      var s3 :- SetCb(s2, bOut, true, NoWrite, true, Some(bIn));
      var s4 :- EnableBoth(s3, bIn);
      EnableBoth(s4, bOut)
  }

  /** One step of the whole program: a callback, or the network acting on one socket. */
  datatype Step =
    | Accept(connected: bool)
    | Receive(b: Id, data: seq<Byte>)
    | EndInput(b: Id, flag: Flag)
    | Send(b: Id, n: nat)
    | EndOutput(b: Id, flag: Flag)
    | Notify(b: Id, what: set<Flag>)
    | RunRead(b: Id)
    | RunWrite(b: Id)
    | RunEvent(b: Id, what: set<Flag>)

  /** What a step asks of the live buffer event it acts on. */
  predicate Ready(x: Bev, step: Step)
    requires !step.Accept?
  {
    match step
    case Receive(_, data) => x.readOn && !x.ended && data != []
    case EndInput(_, flag) => x.readOn && flag in {Eof, Error}
    case Send(_, n) => x.writeOn && 0 < n <= |x.output|
    case EndOutput(_, flag) => x.writeOn && x.output != [] && flag in {Eof, Error}
    case Notify(_, _) => x.cb.event
    case RunRead(_) => x.cb.read && x.due.read
    case RunWrite(_) => x.cb.write != NoWrite && x.due.write
    case RunEvent(_, what) => x.cb.event && what != {} && what <= x.due.events
  }

  /** When the event loop can take a step: it never acts on an object that was freed. */
  predicate Enabled(s: State, step: Step) {
    step.Accept? || (step.b < |s| && s[step.b].Alive() && Ready(s[step.b], step))
  }

  function Apply(s: State, step: Step): Result<State>
    requires Enabled(s, step)
  {
    match step
    case Accept(connected) => AcceptCb(s, connected)
    case Receive(b, data) => Ok(s[b := BufferEvents.Receive(s[b], data)])
    case EndInput(b, flag) => Ok(s[b := BufferEvents.EndInput(s[b], flag)])
    case Send(b, n) => Ok(s[b := BufferEvents.Send(s[b], n)])
    case EndOutput(b, flag) => Ok(s[b := BufferEvents.EndOutput(s[b], flag)])
    case Notify(b, what) => Ok(s[b := BufferEvents.Notify(s[b], what)])
    case RunRead(b) => ReadCb(s[b := TakeRead(s[b])], b, s[b].cb.ctx)
    case RunWrite(b) =>
      var t := s[b := TakeWrite(s[b])];
      if s[b].cb.write == Drained then DrainedWriteCb(t, b, s[b].cb.ctx) else CloseOnFinishedWriteCb(t, b)
    case RunEvent(b, what) =>
      EventCb(s[b := TakeEvents(s[b], what)], b, what, s[b].cb.ctx)
  }

}

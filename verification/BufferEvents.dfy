/**
 The part of libevent that the proxy relies on, as operations on plain values.

 libevent itself is not part of this model; what is assumed of it is written here:
 - `evbuffer_add_buffer` appends the whole source to the destination and empties the source;
 - callbacks are deferred: a network step only marks a callback as due, and the callback that
   runs later is whatever is installed at that moment;
 - a freed buffer event has no callbacks, and touching it again is a fault (`UseAfterFree`);
 - a write callback falls due only after a socket write that leaves at most `low` bytes;
 - no byte is read while reading is off or after the peer's stream has ended.
 */
module BufferEvents {
  import opened Common

  /** Position of a buffer event in the order of creation; it stands for the pointer. */
  type Id = nat

  datatype WriteCb = NoWrite | Drained | CloseOnFinished

  /** The `BEV_EVENT_*` bits. */
  datatype Flag = Eof | Error | Connected | Timeout | Reading | Writing

  /** Why a buffer event was freed, kept as history. */
  datatype Fate = Live | Finished | PartnerEnded | OwnEvent | NotConnected

  /** What `bufferevent_setcb` installs; `ctx` is the partner pointer. */
  datatype Callbacks = Callbacks(read: bool, write: WriteCb, event: bool, ctx: Option<Id>)

  /** Callbacks that the event loop still has to run. */
  datatype Due = Due(read: bool, write: bool, events: set<Flag>)

  /**
   History: the other half made by the same accept, every byte the socket delivered or took,
   and the number of runs of the drained callback.
   */
  datatype Log = Log(peer: Id, received: seq<Byte>, sent: seq<Byte>, drains: nat)

  datatype Bev = Bev(
    fate: Fate,
    input: seq<Byte>, output: seq<Byte>,
    readOn: bool, writeOn: bool, ended: bool,
    cb: Callbacks, low: nat, high: nat,
    due: Due, log: Log)
  {
    predicate Alive() { fate.Live? }
  }

  type State = seq<Bev>

  datatype Result<+T> = Ok(value: T) | UseAfterFree {
    predicate IsFailure() { UseAfterFree? }

    function PropagateFailure<U>(): Result<U>
      requires UseAfterFree?
    {
      UseAfterFree
    }

    function Extract(): T
      requires Ok?
    {
      value
    }
  }

  function Get(s: State, b: Id): Result<Bev> {
    if b < |s| && s[b].Alive() then Ok(s[b]) else UseAfterFree
  }

  /** `bufferevent_socket_new` */
  function New(peer: Id): Bev {
    Bev(Live, [], [], false, true, false, Callbacks(false, NoWrite, false, None), 0, 0,
        Due(false, false, {}), Log(peer, [], [], 0))
  }

  /** `bufferevent_setcb` */
  function SetCb(s: State, b: Id, r: bool, w: WriteCb, e: bool, ctx: Option<Id>): Result<State> {
    var x :- Get(s, b);
    Ok(s[b := x.(cb := Callbacks(r, w, e, ctx))])
  }

  /** `bufferevent_setwatermark` with `EV_WRITE` */
  function SetWriteMark(s: State, b: Id, low: nat, high: nat): Result<State> {
    var x :- Get(s, b);
    Ok(s[b := x.(low := low, high := high)])
  }

  /** `bufferevent_enable` and `bufferevent_disable` with `EV_READ` */
  function SetReading(s: State, b: Id, on: bool): Result<State> {
    var x :- Get(s, b);
    Ok(s[b := x.(readOn := on)])
  }

  /** `bufferevent_enable` with `EV_READ | EV_WRITE` */
  function EnableBoth(s: State, b: Id): Result<State> {
    var x :- Get(s, b);
    Ok(s[b := x.(readOn := true, writeOn := true)])
  }

  function Freed(x: Bev, why: Fate): Bev {
    Bev(why, [], [], false, false, x.ended, Callbacks(false, NoWrite, false, None), x.low, x.high,
        Due(false, false, {}), x.log)
  }

  /** `bufferevent_free` with `BEV_OPT_CLOSE_ON_FREE`; `why` is history. */
  function Free(s: State, b: Id, why: Fate): Result<State>
    requires !why.Live?
  {
    var x :- Get(s, b);
    Ok(s[b := Freed(x, why)])
  }

  /** `evbuffer_drain` of the whole input */
  function DrainInput(s: State, b: Id): Result<State> {
    var x :- Get(s, b);
    Ok(s[b := x.(input := [])])
  }

  /** `evbuffer_add_buffer` from the input of `src` to the output of `dst` */
  function AddBuffer(s: State, dst: Id, src: Id): Result<State> {
    var x :- Get(s, src);
    var t := s[src := x.(input := [])];
    var y :- Get(t, dst);
    Ok(t[dst := y.(output := y.output + x.input)])
  }

  // ---- What the network and the event loop do to one buffer event ----

  function Receive(x: Bev, data: seq<Byte>): Bev {
    x.(input := x.input + data, log := x.log.(received := x.log.received + data),
       due := x.due.(read := x.due.read || x.cb.read))
  }

  /** The socket takes the first `n` bytes of the output. */
  function Send(x: Bev, n: nat): Bev
    requires n <= |x.output|
  {
    var rest := x.output[n..];
    x.(output := rest, log := x.log.(sent := x.log.sent + x.output[..n]),
       due := x.due.(write := x.due.write || (x.cb.write != NoWrite && |rest| <= x.low)))
  }

  /** The stream from the peer ends; the library itself turns reading off. */
  function EndInput(x: Bev, flag: Flag): Bev {
    x.(readOn := false, ended := true, due := x.due.(events := x.due.events + {Reading, flag}))
  }

  /** A write fails; the library itself turns writing off. */
  function EndOutput(x: Bev, flag: Flag): Bev {
    x.(writeOn := false, due := x.due.(events := x.due.events + {Writing, flag}))
  }

  function Notify(x: Bev, what: set<Flag>): Bev {
    x.(due := x.due.(events := x.due.events + what))
  }

  // ---- The loop takes a callback off the list just before it calls it ----

  function TakeRead(x: Bev): Bev {
    x.(due := x.due.(read := false))
  }

  /** Runs of the drained callback are counted. */
  function TakeWrite(x: Bev): Bev {
    x.(due := x.due.(write := false),
       log := if x.cb.write == Drained then x.log.(drains := x.log.drains + 1) else x.log)
  }

  function TakeEvents(x: Bev, what: set<Flag>): Bev {
    x.(due := x.due.(events := x.due.events - what))
  }

}

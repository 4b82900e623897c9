/**
 The inductive invariant of the proxy: what holds of every buffer event `x` and the half `y` it
 was created with, after any interleaving of network steps and deferred callbacks.
 */
module ProxyInvariant {
  import opened Common
  import opened BufferEvents
  import opened ProxyCallbacks

  predicate Linked(x: Bev) { x.Alive() && x.cb.ctx.Some? }

  predicate Flushing(x: Bev) { x.Alive() && x.cb.ctx.None? }

  /** The partner pointers are mutual, and point at live objects. */
  predicate Matched(x: Bev, y: Bev, b: Id) {
    Linked(x) ==> x.cb.ctx == Some(x.log.peer) && Linked(y) && y.cb.ctx == Some(b)
  }

  predicate Installed(x: Bev) {
    && (x.Alive() ==> x.cb.event)
    && (Linked(x) ==> x.cb.read && x.cb.write != CloseOnFinished)
    && (Flushing(x) ==> !x.cb.read && x.cb.write == CloseOnFinished && !x.readOn)
  }

  /** Received bytes are in three places, in order: sent on, in the partner's output, unread. */
  predicate Conserved(x: Bev, y: Bev) {
    Linked(x) ==> y.log.sent + y.output + x.input == x.log.received
  }

  /** `x` is choked exactly while its partner `y` waits to drain, and the release cannot get lost. */
  predicate ChokedExactly(x: Bev, y: Bev) {
    Linked(x) ==>
      && (x.input != [] ==> x.due.read)
      && (y.cb.write == Drained ==>
            && !x.readOn && x.input == [] && !x.due.read
            && y.low == MAX_OUTPUT / 2 && y.high == MAX_OUTPUT
            && (y.due.write <==> |y.output| <= MAX_OUTPUT / 2))
      && (y.cb.write == NoWrite ==>
            && (x.readOn || x.ended) && |y.output| < MAX_OUTPUT
            && y.low == 0 && y.high == 0 && !y.due.write)
  }

  /** A half left alone still owes its socket exactly the rest of what the other half received. */
  predicate Flushes(x: Bev, y: Bev) {
    Flushing(x) ==>
      !y.Alive() && x.log.sent + x.output == y.log.received && (x.output != [] || x.due.write)
  }

  /** A half whose stream ended, or which can no longer write, has its closing event due. */
  predicate WillClose(x: Bev) {
    x.Alive() && (x.ended || !x.writeOn) ==> x.due.events * {Eof, Error} != {}
  }

  predicate Closed(x: Bev, y: Bev) {
    !x.Alive() ==>
      && x.log.sent <= y.log.received
      && (x.fate == Finished || x.fate == PartnerEnded ==> x.log.sent == y.log.received && !y.Alive())
  }

  /** Each run of the drained callback is paid for by half a buffer of bytes sent. */
  predicate Paid(x: Bev) {
    && MAX_OUTPUT / 2 * x.log.drains <= |x.log.sent|
    && (Linked(x) && x.cb.write == Drained ==>
          MAX_OUTPUT / 2 * x.log.drains + MAX_OUTPUT <= |x.log.sent| + |x.output|)
  }

  predicate Good(x: Bev, y: Bev, b: Id) {
    && x.log.peer != b && y.log.peer == b
    && Matched(x, y, b) && Installed(x) && Conserved(x, y) && ChokedExactly(x, y)
    && Flushes(x, y) && WillClose(x) && Closed(x, y) && Paid(x)
  }

  predicate GoodPair(x: Bev, y: Bev, b: Id) {
    Good(x, y, b) && Good(y, x, x.log.peer)
  }

  predicate Inv(s: State) {
    forall b :: 0 <= b < |s| ==> s[b].log.peer < |s| && Good(s[b], s[s[b].log.peer], b)
  }

  /** A change confined to one pair keeps the invariant if the pair itself is still good. */
  lemma Lift(s: State, t: State, b: Id)
    requires Inv(s) && b < |s| == |t|
    requires var q := s[b].log.peer;
      && t[b].log.peer == q && t[q].log.peer == b
      && Good(t[b], t[q], b) && Good(t[q], t[b], q)
      && forall i :: 0 <= i < |s| && i != b && i != q ==> t[i] == s[i]
    ensures Inv(t)
  {
    var q := s[b].log.peer;
    forall i | 0 <= i < |t|
      ensures t[i].log.peer < |t| && Good(t[i], t[t[i].log.peer], i)
    {
      if i != b && i != q {
        assert s[s[i].log.peer].log.peer == i && s[q].log.peer == b;
      }
    }
  }

  // ---- The effect of a step on the pair it acts on ----

  function AfterReadSource(x: Bev, y: Bev): Bev {
    x.(input := [], readOn := x.readOn && |y.output + x.input| < MAX_OUTPUT)
  }

  function AfterReadTarget(x: Bev, y: Bev, b: Id): Bev {
    if |y.output + x.input| < MAX_OUTPUT then
      y.(output := y.output + x.input)
    else
      y.(output := y.output + x.input, cb := Callbacks(true, Drained, true, Some(b)),
         low := MAX_OUTPUT / 2, high := MAX_OUTPUT)
  }

  function AfterDrain(x: Bev, q: Id): Bev {
    x.(cb := Callbacks(true, NoWrite, true, Some(q)), low := 0, high := 0)
  }

  /** The half that is left, once the other half has flushed into it and ended. */
  function LeftAlone(y: Bev): Bev {
    if y.output == [] then Freed(y, PartnerEnded)
    else y.(cb := Callbacks(false, CloseOnFinished, true, None), readOn := false)
  }

  /** The new `x` and `y`, when `step` acts on `x` (which is `b`) and `y` is its other half. */
  function OnPair(x: Bev, y: Bev, b: Id, step: Step): (Bev, Bev)
    requires !step.Accept? && Ready(x, step)
  {
    match step
    case Receive(_, data) => (BufferEvents.Receive(x, data), y)
    case EndInput(_, flag) => (BufferEvents.EndInput(x, flag), y)
    case Send(_, n) => (BufferEvents.Send(x, n), y)
    case EndOutput(_, flag) => (BufferEvents.EndOutput(x, flag), y)
    case Notify(_, what) => (BufferEvents.Notify(x, what), y)
    case RunRead(_) => (AfterReadSource(TakeRead(x), y), AfterReadTarget(x, y, b))
    case RunWrite(_) =>
      if x.cb.write == Drained then (AfterDrain(TakeWrite(x), x.log.peer), y.(readOn := true))
      else if x.output == [] then (Freed(x, Finished), y)
      else (TakeWrite(x), y)
    case RunEvent(_, what) =>
      if what * {Eof, Error} == {} then (TakeEvents(x, what), y)
      else (Freed(x, OwnEvent), if Linked(x) then LeftAlone(AfterReadTarget(x, y, b)) else y)
  }

  /** `t` is `s` with only the two objects of a pair replaced. */
  predicate Replaced(s: State, t: State, b: Id, q: Id, xy: (Bev, Bev)) {
    && b < |s| == |t| && q < |s|
    && t[b] == xy.0 && t[q] == xy.1
    && forall i :: 0 <= i < |s| && i != b && i != q ==> t[i] == s[i]
  }

  lemma ReplacedIsUnique(s: State, t: State, u: State, b: Id, q: Id, xy: (Bev, Bev))
    requires Replaced(s, t, b, q, xy) && Replaced(s, u, b, q, xy)
    ensures t == u
  {
  }

  lemma ReadOnPair(s: State, b: Id, q: Id)
    requires b < |s| && q < |s| && b != q && s[b].Alive() && s[q].Alive()
    ensures var r := ReadCb(s, b, Some(q));
      r.Ok? && Replaced(s, r.value, b, q, (AfterReadSource(s[b], s[q]), AfterReadTarget(s[b], s[q], b)))
  {
  }

  lemma EventOnPair(s: State, b: Id, q: Id, what: set<Flag>)
    requires b < |s| && q < |s| && b != q && s[b].Alive() && s[q].Alive()
    requires what * {Eof, Error} != {}
    ensures var r := EventCb(s, b, what, Some(q));
      && r.Ok?
      && Replaced(s, r.value, b, q,
                  (Freed(s[b], OwnEvent), LeftAlone(AfterReadTarget(s[b], s[q], b))))
  {
    ReadOnPair(s, b, q);
  }

  lemma DrainedOnPair(s: State, b: Id, q: Id)
    requires b < |s| && q < |s| && b != q && s[b].Alive() && s[q].Alive()
    ensures var r := DrainedWriteCb(s, b, Some(q));
      r.Ok? && Replaced(s, r.value, b, q, (AfterDrain(s[b], q), s[q].(readOn := true)))
  {
  }

  lemma WriteOnPair(s: State, b: Id, q: Id)
    requires b < |s| && q < |s| && b != q && q == s[b].log.peer && GoodPair(s[b], s[q], b)
    requires Enabled(s, RunWrite(b))
    ensures var r := Apply(s, RunWrite(b));
      r.Ok? && Replaced(s, r.value, b, q, OnPair(s[b], s[q], b, RunWrite(b)))
  {
    if s[b].cb.write == Drained {
      DrainedOnPair(s[b := TakeWrite(s[b])], b, q);
    }
  }

  lemma AnyEventOnPair(s: State, b: Id, q: Id, what: set<Flag>)
    requires b < |s| && q < |s| && b != q && q == s[b].log.peer && Matched(s[b], s[q], b)
    requires Enabled(s, RunEvent(b, what))
    ensures var r := Apply(s, RunEvent(b, what));
      r.Ok? && Replaced(s, r.value, b, q, OnPair(s[b], s[q], b, RunEvent(b, what)))
  {
    if what * {Eof, Error} != {} && Linked(s[b]) {
      EventOnPair(s[b := TakeEvents(s[b], what)], b, q, what);
    }
  }

  lemma CallbackOnPair(s: State, step: Step)
    requires Enabled(s, step) && (step.RunRead? || step.RunWrite? || step.RunEvent?)
    requires var b := step.b; var q := s[b].log.peer;
      b != q && q < |s| && GoodPair(s[b], s[q], b)
    ensures var b := step.b; var q := s[b].log.peer; var r := Apply(s, step);
      r.Ok? && Replaced(s, r.value, b, q, OnPair(s[b], s[q], b, step))
  {
    var b := step.b;
    var q := s[b].log.peer;
    match step {
      case RunRead(_) => ReadOnPair(s[b := TakeRead(s[b])], b, q);
      case RunWrite(_) => WriteOnPair(s, b, q);
      case RunEvent(_, what) => AnyEventOnPair(s, b, q, what);
    }
  }

  /** Every step succeeds, touching no freed object, and changes only the pair it acts on. */
  lemma StepOnPair(s: State, step: Step)
    requires Inv(s) && Enabled(s, step) && !step.Accept?
    ensures var b := step.b; var q := s[b].log.peer; var r := Apply(s, step);
      && r.Ok? && s[q].log.peer == b && b != q && GoodPair(s[b], s[q], b)
      && Replaced(s, r.value, b, q, OnPair(s[b], s[q], b, step))
  {
    var b := step.b;
    var q := s[b].log.peer;
    assert GoodPair(s[b], s[q], b);
    if step.RunRead? || step.RunWrite? || step.RunEvent? {
      CallbackOnPair(s, step);
    }
  }

  // ---- A good pair stays good ----

  lemma PairAfterFlags(x: Bev, y: Bev, b: Id, step: Step)
    requires GoodPair(x, y, b) && x.Alive()
    requires (step.EndInput? || step.EndOutput? || step.Notify?) && Ready(x, step)
    ensures GoodPair(OnPair(x, y, b, step).0, y, b)
  {
    var x' := OnPair(x, y, b, step).0;
    assert x'.due.events * {Eof, Error} >= x.due.events * {Eof, Error};
    assert step.Notify? || step.flag in x'.due.events * {Eof, Error};
  }

  lemma PairAfterReceive(x: Bev, y: Bev, b: Id, data: seq<Byte>)
    requires GoodPair(x, y, b) && x.Alive() && x.readOn && !x.ended
    ensures GoodPair(BufferEvents.Receive(x, data), y, b)
  {
    assert y.log.sent + y.output + (x.input + data) == (y.log.sent + y.output + x.input) + data;
  }

  lemma PairAfterSend(x: Bev, y: Bev, b: Id, n: nat)
    requires GoodPair(x, y, b) && x.Alive() && n <= |x.output|
    ensures GoodPair(BufferEvents.Send(x, n), y, b)
  {
    var x' := BufferEvents.Send(x, n);
    assert x'.log.sent + x'.output == x.log.sent + x.output;
  }

  lemma SourceAfterRead(x: Bev, y: Bev, b: Id)
    requires Good(x, y, b) && Linked(x) && Installed(y)
    ensures Good(AfterReadSource(TakeRead(x), y), AfterReadTarget(x, y, b), b)
  {
    assert y.log.sent + (y.output + x.input) + [] == y.log.sent + y.output + x.input;
  }

  lemma TargetAfterRead(x: Bev, y: Bev, b: Id)
    requires GoodPair(x, y, b) && Linked(x)
    ensures Good(AfterReadTarget(x, y, b), AfterReadSource(TakeRead(x), y), x.log.peer)
  {
  }

  lemma PairAfterRead(x: Bev, y: Bev, b: Id)
    requires GoodPair(x, y, b) && Linked(x)
    ensures GoodPair(AfterReadSource(TakeRead(x), y), AfterReadTarget(x, y, b), b)
  {
    SourceAfterRead(x, y, b);
    TargetAfterRead(x, y, b);
  }

  lemma PairAfterDrained(x: Bev, y: Bev, b: Id)
    requires GoodPair(x, y, b) && Linked(x) && x.cb.write == Drained && x.due.write
    ensures GoodPair(AfterDrain(TakeWrite(x), x.log.peer), y.(readOn := true), b)
  {
  }

  lemma PairAfterFinished(x: Bev, y: Bev, b: Id)
    requires GoodPair(x, y, b) && Flushing(x) && x.due.write
    ensures GoodPair(if x.output == [] then Freed(x, Finished) else TakeWrite(x), y, b)
  {
  }

  lemma EndedGood(x: Bev, y: Bev, b: Id, y': Bev)
    requires Good(x, y, b) && Good(y, x, x.log.peer) && Linked(x) && y'.log == y.log
    ensures Good(Freed(x, OwnEvent), y', b)
  {
    assert x.log.sent <= x.log.sent + x.output + y.input;
  }

  lemma LeftFlushingGood(x: Bev, y: Bev, b: Id)
    requires x.log.peer != b == y.log.peer && Linked(x) && Linked(y) && y.output + x.input != []
    requires Conserved(x, y) && WillClose(y) && Paid(y)
    ensures Good(LeftAlone(AfterReadTarget(x, y, b)), Freed(x, OwnEvent), x.log.peer)
  {
    assert y.log.sent + (y.output + x.input) == y.log.sent + y.output + x.input;
  }

  lemma LeftClosedGood(x: Bev, y: Bev, b: Id)
    requires x.log.peer != b == y.log.peer && Linked(x) && Linked(y) && y.output == [] && x.input == []
    requires Conserved(x, y) && Paid(y)
    ensures Good(LeftAlone(AfterReadTarget(x, y, b)), Freed(x, OwnEvent), x.log.peer)
  {
    assert y.log.sent + [] + [] == y.log.sent;
  }

  lemma LeftAloneGood(x: Bev, y: Bev, b: Id)
    requires x.log.peer != b == y.log.peer && Linked(x) && Linked(y)
    requires Conserved(x, y) && WillClose(y) && Paid(y)
    ensures Good(LeftAlone(AfterReadTarget(x, y, b)), Freed(x, OwnEvent), x.log.peer)
  {
    if y.output + x.input == [] {
      assert |y.output| + |x.input| == 0;
      LeftClosedGood(x, y, b);
    } else {
      LeftFlushingGood(x, y, b);
    }
  }

  lemma PairAfterEnd(x: Bev, y: Bev, b: Id)
    requires GoodPair(x, y, b) && Linked(x)
    ensures GoodPair(Freed(x, OwnEvent), LeftAlone(AfterReadTarget(x, y, b)), b)
  {
    EndedGood(x, y, b, LeftAlone(AfterReadTarget(x, y, b)));
    LeftAloneGood(x, y, b);
  }

  lemma PairAfterOther(x: Bev, y: Bev, b: Id, what: set<Flag>)
    requires GoodPair(x, y, b) && x.Alive() && what * {Eof, Error} == {}
    ensures GoodPair(TakeEvents(x, what), y, b)
  {
    forall f | f in x.due.events * {Eof, Error}
      ensures f in (x.due.events - what) * {Eof, Error}
    {
      assert f !in what * {Eof, Error};
    }
  }

  lemma PairAfterEvent(x: Bev, y: Bev, b: Id, what: set<Flag>)
    requires GoodPair(x, y, b) && x.Alive() && Ready(x, RunEvent(b, what))
    ensures var xy := OnPair(x, y, b, RunEvent(b, what)); GoodPair(xy.0, xy.1, b)
  {
    if what * {Eof, Error} == {} {
      PairAfterOther(x, y, b, what);
    } else if Linked(x) {
      PairAfterEnd(x, y, b);
    }
  }

  lemma PairAfterStep(x: Bev, y: Bev, b: Id, step: Step)
    requires GoodPair(x, y, b) && x.Alive() && !step.Accept? && Ready(x, step) && step.b == b
    ensures var xy := OnPair(x, y, b, step); GoodPair(xy.0, xy.1, b)
  {
    match step
    case Receive(_, data) => PairAfterReceive(x, y, b, data);
    case Send(_, n) => PairAfterSend(x, y, b, n);
    case RunRead(_) => PairAfterRead(x, y, b);
    case RunWrite(_) =>
      if x.cb.write == Drained { PairAfterDrained(x, y, b); } else { PairAfterFinished(x, y, b); }
    case RunEvent(_, what) => PairAfterEvent(x, y, b, what);
    case _ => PairAfterFlags(x, y, b, step);
  }

  /** A half as `accept_cb` leaves it. */
  function Opened(peer: Id, connected: bool): Bev {
    if connected then
      New(peer).(cb := Callbacks(true, NoWrite, true, Some(peer)), readOn := true)
    else
      Freed(New(peer), NotConnected)
  }

  lemma AcceptAppends(s: State, connected: bool)
    ensures var r := AcceptCb(s, connected); var n := |s|;
      && r.Ok? && |r.value| == n + 2
      && (forall i :: 0 <= i < n ==> r.value[i] == s[i])
      && r.value[n] == Opened(n + 1, connected) && r.value[n + 1] == Opened(n, connected)
  {
  }

  lemma OpenedIsGood(n: Id, connected: bool)
    ensures GoodPair(Opened(n + 1, connected), Opened(n, connected), n)
  {
  }

  lemma AcceptKeeps(s: State, connected: bool)
    requires Inv(s)
    ensures AcceptCb(s, connected).Ok? && Inv(AcceptCb(s, connected).value)
  {
    AcceptAppends(s, connected);
    var n, t := |s|, AcceptCb(s, connected).value;
    OpenedIsGood(n, connected);
    forall b | 0 <= b < |t|
      ensures t[b].log.peer < |t| && Good(t[b], t[t[b].log.peer], b)
    {
      assert b < n ==> s[b].log.peer < n;
    }
  }

  /** Every step the event loop can take succeeds and keeps the invariant. */
  lemma StepKeeps(s: State, step: Step)
    requires Inv(s) && Enabled(s, step)
    ensures Apply(s, step).Ok? && Inv(Apply(s, step).value)
  {
    if step.Accept? {
      AcceptKeeps(s, step.connected);
    } else {
      StepOnPair(s, step);
      PairAfterStep(s[step.b], s[s[step.b].log.peer], step.b, step);
      Lift(s, Apply(s, step).value, step.b);
    }
  }

}

/**
 The proxy as it is written: callbacks that update buffer event objects in place, through
 pointers. Each method is proved to do what the value model says, and to touch live objects only.
 */
module ProxyObjects {
  import opened Common
  import opened BufferEvents
  import opened ProxyCallbacks
  import opened ProxyInvariant
  import opened ProxyRuns

  ghost function Ref(p: BufferEvent?): Option<Id> {
    if p == null then None else Some(p.id)
  }

  /** `struct bufferevent`; `fate` and `log` are history, the library keeps no such fields. */
  class BufferEvent {
    const id: Id
    var input: seq<Byte>
    var output: seq<Byte>
    var readOn: bool
    var writeOn: bool
    var ended: bool
    var readCb: bool
    var writeCb: WriteCb
    var eventCb: bool
    var ctx: BufferEvent?
    var low: nat
    var high: nat
    var readDue: bool
    var writeDue: bool
    var events: set<Flag>
    ghost var fate: Fate
    ghost var log: Log

    ghost function View(): Bev
      reads this
    {
      Bev(fate, input, output, readOn, writeOn, ended, Callbacks(readCb, writeCb, eventCb, Ref(ctx)),
          low, high, Due(readDue, writeDue, events), log)
    }

    constructor (id: Id, ghost peer: Id)
      ensures this.id == id && View() == New(peer) && ctx == null
    {
      this.id := id;
      input, output, readOn, writeOn, ended := [], [], false, true, false;
      readCb, writeCb, eventCb, ctx := false, NoWrite, false, null;
      low, high, readDue, writeDue, events := 0, 0, false, false, {};
      fate, log := Live, Log(peer, [], [], 0);
    }

    method SetCb(r: bool, w: WriteCb, e: bool, c: BufferEvent?)
      requires fate.Live?
      modifies this
      ensures View() == old(View()).(cb := Callbacks(r, w, e, Ref(c))) && ctx == c
    {
      readCb, writeCb, eventCb, ctx := r, w, e, c;
    }

    method SetWriteMark(low: nat, high: nat)
      requires fate.Live?
      modifies this`low, this`high
      ensures View() == old(View()).(low := low, high := high)
    {
      this.low, this.high := low, high;
    }

    method SetReading(on: bool)
      requires fate.Live?
      modifies this`readOn
      ensures View() == old(View()).(readOn := on)
    {
      readOn := on;
    }

    method EnableBoth()
      requires fate.Live?
      modifies this`readOn, this`writeOn
      ensures View() == old(View()).(readOn := true, writeOn := true)
    {
      readOn, writeOn := true, true;
    }

    method Free(ghost why: Fate)
      requires fate.Live? && !why.Live?
      modifies this
      ensures View() == Freed(old(View()), why) && ctx == null
    {
      SetCb(false, NoWrite, false, null);
      readOn, writeOn := false, false;
      readDue, writeDue, events := false, false, {};
      input, output, fate := [], [], why;
    }

    method DrainInput()
      requires fate.Live?
      modifies this`input
      ensures View() == old(View()).(input := [])
    {
      input := [];
    }

    /** `evbuffer_add_buffer (output of this, input of src)` */
    method AddBuffer(src: BufferEvent)
      requires fate.Live? && src.fate.Live? && src != this
      modifies this`output, src`input
      ensures View() == old(View()).(output := old(output) + old(src.input))
      ensures src.View() == old(src.View()).(input := [])
    {
      output := output + src.input;
      src.input := [];
    }

    // ---- The network, and the loop taking a due callback ----

    method Receive(data: seq<Byte>)
      requires fate.Live?
      modifies this`input, this`log, this`readDue
      ensures View() == BufferEvents.Receive(old(View()), data)
    {
      input := input + data;
      log := log.(received := log.received + data);
      if readCb { readDue := true; }
    }

    method Send(n: nat)
      requires fate.Live? && n <= |output|
      modifies this`output, this`log, this`writeDue
      ensures View() == BufferEvents.Send(old(View()), n)
    {
      log := log.(sent := log.sent + output[..n]);
      output := output[n..];
      if writeCb != NoWrite && |output| <= low { writeDue := true; }
    }

    method EndInput(flag: Flag)
      requires fate.Live?
      modifies this`readOn, this`ended, this`events
      ensures View() == BufferEvents.EndInput(old(View()), flag)
    {
      readOn, ended, events := false, true, events + {Reading, flag};
    }

    method EndOutput(flag: Flag)
      requires fate.Live?
      modifies this`writeOn, this`events
      ensures View() == BufferEvents.EndOutput(old(View()), flag)
    {
      writeOn, events := false, events + {Writing, flag};
    }

    method Notify(what: set<Flag>)
      requires fate.Live?
      modifies this`events
      ensures View() == BufferEvents.Notify(old(View()), what)
    {
      events := events + what;
    }

    method TakeRead()
      requires fate.Live?
      modifies this`readDue
      ensures View() == BufferEvents.TakeRead(old(View()))
    {
      readDue := false;
    }

    method TakeWrite()
      requires fate.Live?
      modifies this`writeDue, this`log
      ensures View() == BufferEvents.TakeWrite(old(View()))
    {
      writeDue := false;
      if writeCb == Drained { log := log.(drains := log.drains + 1); }
    }

    method TakeEvents(what: set<Flag>)
      requires fate.Live?
      modifies this`events
      ensures View() == BufferEvents.TakeEvents(old(View()), what)
    {
      events := events - what;
    }
  }

  // ---- The callbacks ----

  method Choke(bev: BufferEvent, ctx: BufferEvent)
    requires bev.fate.Live? && ctx.fate.Live? && ctx != bev
    modifies bev, ctx
    ensures bev.View() == old(bev.View()).(readOn := false) && bev.ctx == old(bev.ctx) && ctx.ctx == bev
    ensures ctx.View() == old(ctx.View()).(cb := Callbacks(true, Drained, true, Some(bev.id)),
                                           low := MAX_OUTPUT / 2, high := MAX_OUTPUT)
  {
    ctx.SetCb(true, Drained, true, bev);
    ctx.SetWriteMark(MAX_OUTPUT / 2, MAX_OUTPUT);
    bev.SetReading(false);
  }

  method OnRead(bev: BufferEvent, ctx: BufferEvent?)
    requires bev.fate.Live? && ctx != bev && (ctx != null ==> ctx.fate.Live? && ctx.id != bev.id)
    modifies bev, ctx
    ensures ctx == null ==> bev.View() == old(bev.View()).(input := []) && bev.ctx == old(bev.ctx)
    ensures ctx != null ==>
      && bev.View() == AfterReadSource(old(bev.View()), old(ctx.View())) && bev.ctx == old(bev.ctx)
      && ctx.View() == AfterReadTarget(old(bev.View()), old(ctx.View()), bev.id)
      && ctx.ctx in {bev, old(ctx.ctx)}
    ensures ctx != null ==>
      && ctx.output == old(ctx.output) + old(bev.input) && bev.input == []
      && (|ctx.output| >= 524288 ==>
            ctx.writeCb == Drained && ctx.low == 262144 && ctx.high == 524288 && !bev.readOn)
      && (|ctx.output| < 524288 ==> ctx.writeCb == old(ctx.writeCb) && bev.readOn == old(bev.readOn))
  {
    if ctx == null {
      bev.DrainInput();
      return;
    }
    ctx.AddBuffer(bev);
    if |ctx.output| >= MAX_OUTPUT {
      Choke(bev, ctx);
    }
  }

  method OnDrained(bev: BufferEvent, ctx: BufferEvent?)
    requires bev.fate.Live? && ctx != bev && (ctx != null ==> ctx.fate.Live? && ctx.id != bev.id)
    modifies bev, ctx
    ensures bev.View() == old(bev.View()).(cb := Callbacks(true, NoWrite, true, Ref(ctx)), low := 0, high := 0)
    ensures bev.ctx == ctx
    ensures ctx != null ==>
      ctx.View() == old(ctx.View()).(readOn := true) && ctx.ctx == old(ctx.ctx)
  {
    bev.SetCb(true, NoWrite, true, ctx);
    bev.SetWriteMark(0, 0);
    if ctx != null {
      ctx.SetReading(true);
    }
  }

  method OnFinished(bev: BufferEvent)
    requires bev.fate.Live?
    modifies bev
    ensures bev.View() == if old(bev.output) == [] then Freed(old(bev.View()), Finished) else old(bev.View())
    ensures bev.ctx in {null, old(bev.ctx)}
  {
    if |bev.output| == 0 {
      bev.Free(Finished);
    }
  }

  method OnEvent(bev: BufferEvent, what: set<Flag>, ctx: BufferEvent?)
    requires bev.fate.Live? && ctx != bev && (ctx != null ==> ctx.fate.Live? && ctx.id != bev.id)
    modifies bev, ctx
    ensures bev.View() ==
            if what * {Eof, Error} == {} then old(bev.View()) else Freed(old(bev.View()), OwnEvent)
    ensures ctx != null ==>
      ctx.View() == if what * {Eof, Error} == {} then old(ctx.View())
                    else LeftAlone(AfterReadTarget(old(bev.View()), old(ctx.View()), bev.id))
    ensures bev.ctx in {null, old(bev.ctx)} && (ctx != null ==> ctx.ctx in {null, old(ctx.ctx)})
  {
    if what * {Eof, Error} != {} {
      if ctx != null {
        OnRead(bev, ctx);
        if |ctx.output| != 0 {
          ctx.SetCb(false, CloseOnFinished, true, null);
          ctx.SetReading(false);
        } else {
          ctx.Free(PartnerEnded);
        }
      }
      bev.Free(OwnEvent);
    }
  }

  /** The body of `accept_cb`; `connected` is the outcome of `bufferevent_socket_connect`. */
  method OpenPair(n: Id, connected: bool) returns (bIn: BufferEvent, bOut: BufferEvent)
    ensures fresh({bIn, bOut}) && bIn.id == n && bOut.id == n + 1
    ensures bIn.View() == Opened(n + 1, connected) && bIn.ctx == if connected then bOut else null
    ensures bOut.View() == Opened(n, connected) && bOut.ctx == if connected then bIn else null
  {
    bIn := new BufferEvent(n, n + 1);
    bOut := new BufferEvent(n + 1, n);
    if !connected {
      bOut.Free(NotConnected);
      bIn.Free(NotConnected);
      return;
    }
    bIn.SetCb(true, NoWrite, true, bOut);
    bOut.SetCb(true, NoWrite, true, bIn);
    bIn.EnableBoth();
    bOut.EnableBoth();
  }

  // ---- The loop takes a due callback and calls it ----

  /** `other` is the other half of `bev`: its partner, if it has one. */
  ghost predicate Halves(bev: BufferEvent, other: BufferEvent)
    reads bev, other
  {
    && bev != other && bev.id != other.id && bev.fate.Live? && bev.log.peer == other.id
    && (bev.ctx != null ==> bev.ctx == other && other.fate.Live?)
  }

  method CallRead(bev: BufferEvent, ghost other: BufferEvent)
    requires Halves(bev, other) && Ready(bev.View(), RunRead(bev.id)) && bev.ctx != null
    modifies bev, bev.ctx
    ensures (bev.View(), other.View()) ==
            OnPair(old(bev.View()), old(other.View()), bev.id, RunRead(bev.id))
    ensures bev.ctx == old(bev.ctx) && other.ctx in {bev, old(other.ctx)}
  {
    bev.TakeRead();
    OnRead(bev, bev.ctx);
  }

  method CallWrite(bev: BufferEvent, ghost other: BufferEvent)
    requires Halves(bev, other) && Ready(bev.View(), RunWrite(bev.id))
    requires bev.writeCb == Drained ==> bev.ctx != null
    modifies bev, bev.ctx
    ensures (bev.View(), other.View()) ==
            OnPair(old(bev.View()), old(other.View()), bev.id, RunWrite(bev.id))
    ensures bev.ctx in {null, old(bev.ctx)} && other.ctx == old(other.ctx)
  {
    bev.TakeWrite();
    if bev.writeCb == Drained {
      OnDrained(bev, bev.ctx);
    } else {
      OnFinished(bev);
    }
  }

  method CallEvent(bev: BufferEvent, what: set<Flag>, ghost other: BufferEvent)
    requires Halves(bev, other) && Ready(bev.View(), RunEvent(bev.id, what))
    modifies bev, bev.ctx
    ensures (bev.View(), other.View()) ==
            OnPair(old(bev.View()), old(other.View()), bev.id, RunEvent(bev.id, what))
    ensures bev.ctx in {null, old(bev.ctx)} && other.ctx in {null, old(other.ctx)}
  {
    bev.TakeEvents(what);
    OnEvent(bev, what, bev.ctx);
  }

  /** The network acts on one socket. */
  method Act(bev: BufferEvent, step: Step, ghost other: BufferEvent)
    requires bev != other && bev.fate.Live? && !step.Accept? && Ready(bev.View(), step)
    requires step.Receive? || step.EndInput? || step.Send? || step.EndOutput? || step.Notify?
    modifies bev
    ensures (bev.View(), other.View()) == OnPair(old(bev.View()), old(other.View()), bev.id, step)
    ensures bev.ctx == old(bev.ctx)
  {
    match step {
      case Receive(_, data) => bev.Receive(data);
      case EndInput(_, flag) => bev.EndInput(flag);
      case Send(_, n) => bev.Send(n);
      case EndOutput(_, flag) => bev.EndOutput(flag);
      case Notify(_, what) => bev.Notify(what);
    }
  }

  // ---- The event loop ----

  ghost function Last(r: Run): State
    requires r.states != []
  {
    r.states[|r.states| - 1]
  }

  ghost function Extend(r: Run, step: Step, t: State): Run {
    Run(r.states + [t], r.steps + [step])
  }

  lemma ExtendIsRun(r: Run, step: Step, t: State)
    requires IsRun(r) && Next(Last(r), step, t)
    ensures IsRun(Extend(r, step, t)) && Last(Extend(r, step, t)) == t
  {
    var e := Extend(r, step, t);
    forall i | 0 <= i < |e.steps|
      ensures StepAt(e, i)
    {
      assert i < |r.steps| ==> StepAt(r, i);
    }
  }

  /** `event_base`: all buffer events ever made, and the run that led to them as history. */
  class EventBase {
    var bevs: seq<BufferEvent>
    ghost var run: Run

    ghost function View(): State
      reads this, bevs
    {
      seq(|bevs|, i requires 0 <= i < |bevs| reads this, bevs => bevs[i].View())
    }

    predicate Has(p: BufferEvent)
      reads this
    {
      p.id < |bevs| && bevs[p.id] == p
    }

    /** Pointers lead to objects of this base. */
    ghost predicate Linkage()
      reads this, bevs
    {
      forall i :: 0 <= i < |bevs| ==>
        bevs[i].id == i && (bevs[i].ctx != null ==> Has(bevs[i].ctx))
    }

    /** The heap is always in a state that some run of the model reaches. */
    ghost predicate Valid()
      reads this, bevs
    {
      Linkage() && IsRun(run) && Last(run) == View()
    }

    constructor ()
      ensures Valid() && View() == []
    {
      bevs := [];
      run := Run([[]], []);
    }

    /** The object a step acts on is alive, and its partner pointer, if any, is its other half. */
    lemma Prepare(step: Step) returns (q: Id)
      requires Valid() && Enabled(View(), step) && !step.Accept?
      ensures var b := step.b;
        && b < |bevs| && q < |bevs| && b != q && q == bevs[b].log.peer
        && Halves(bevs[b], bevs[q]) && Ready(bevs[b].View(), step)
        && (step.RunRead? || (step.RunWrite? && bevs[b].writeCb == Drained) ==> bevs[b].ctx != null)
    {
      RunKeeps(run, |run.steps|);
      var b := step.b;
      q := View()[b].log.peer;
      assert GoodPair(View()[b], View()[q], b);
    }

    /** Enters a finished step into the history. */
    ghost method Record(s: State, step: Step, q: Id)
      requires Linkage() && IsRun(run) && Last(run) == s && Enabled(s, step) && !step.Accept?
      requires q < |s| && q == s[step.b].log.peer
      requires Replaced(s, View(), step.b, q, OnPair(s[step.b], s[q], step.b, step))
      modifies this`run
      ensures Valid() && View() == old(View()) && run == Extend(old(run), step, View())
    {
      RunKeeps(run, |run.steps|);
      StepOnPair(s, step);
      ReplacedIsUnique(s, View(), Apply(s, step).value, step.b, q, OnPair(s[step.b], s[q], step.b, step));
      ExtendIsRun(run, step, View());
      run := Extend(run, step, View());
    }

    method RunRead(b: Id)
      requires Valid() && Enabled(View(), Step.RunRead(b))
      modifies this`run, bevs
      ensures Valid() && bevs == old(bevs) && run == Extend(old(run), Step.RunRead(b), View())
    {
      ghost var s := View();
      ghost var q := Prepare(Step.RunRead(b));
      CallRead(bevs[b], bevs[q]);
      Record(s, Step.RunRead(b), q);
    }

    method RunWrite(b: Id)
      requires Valid() && Enabled(View(), Step.RunWrite(b))
      modifies this`run, bevs
      ensures Valid() && bevs == old(bevs) && run == Extend(old(run), Step.RunWrite(b), View())
    {
      ghost var s := View();
      ghost var q := Prepare(Step.RunWrite(b));
      CallWrite(bevs[b], bevs[q]);
      Record(s, Step.RunWrite(b), q);
    }

    method RunEvent(b: Id, what: set<Flag>)
      requires Valid() && Enabled(View(), Step.RunEvent(b, what))
      modifies this`run, bevs
      ensures Valid() && bevs == old(bevs) && run == Extend(old(run), Step.RunEvent(b, what), View())
    {
      ghost var s := View();
      ghost var q := Prepare(Step.RunEvent(b, what));
      CallEvent(bevs[b], what, bevs[q]);
      Record(s, Step.RunEvent(b, what), q);
    }

    /** Bytes arrive or leave, a stream ends, or the library has something to tell. */
    method Network(step: Step)
      requires Valid() && Enabled(View(), step)
      requires step.Receive? || step.EndInput? || step.Send? || step.EndOutput? || step.Notify?
      modifies this`run, bevs
      ensures Valid() && bevs == old(bevs) && run == Extend(old(run), step, View())
    {
      ghost var s := View();
      ghost var q := Prepare(step);
      ghost var xy := OnPair(s[step.b], s[q], step.b, step);
      Act(bevs[step.b], step, bevs[q]);
      assert View()[step.b] == xy.0 && View()[q] == xy.1;
      Record(s, step, q);
    }

    ghost method RecordAccept(s: State, connected: bool)
      requires Linkage() && IsRun(run) && Last(run) == s && |View()| == |s| + 2
      requires forall i :: 0 <= i < |s| ==> View()[i] == s[i]
      requires View()[|s|] == Opened(|s| + 1, connected) && View()[|s| + 1] == Opened(|s|, connected)
      modifies this`run
      ensures Valid() && run == Extend(old(run), Accept(connected), View())
    {
      AcceptAppends(s, connected);
      assert View() == Apply(s, Accept(connected)).value;
      ExtendIsRun(run, Accept(connected), View());
      run := Extend(run, Accept(connected), View());
    }

    method OnAccept(connected: bool)
      requires Valid()
      modifies this
      ensures Valid() && run == Extend(old(run), Accept(connected), View())
      ensures |bevs| == |old(bevs)| + 2 && bevs[..|old(bevs)|] == old(bevs) && fresh(bevs[|old(bevs)|..])
    {
      ghost var s := View();
      var n := |bevs|;
      var bIn, bOut := OpenPair(n, connected);
      bevs := bevs + [bIn, bOut];
      RecordAccept(s, connected);
    }
  }

}

/** Back-pressure, memory bounds and orderly shutdown of the proxy, over whole runs. */
module ProxyFlow {
  import opened Common
  import opened BufferEvents
  import opened ProxyCallbacks
  import opened ProxyInvariant
  import opened ProxyRuns

  // ---- Each direction of a pair is one FIFO queue ----

  /** The bytes on their way from the socket of `x` to the socket of its partner `y`. */
  function Queue(x: Bev, y: Bev): seq<Byte> {
    y.output + x.input
  }

  /** A step on the side where bytes enter puts what arrives at the back of the queue. */
  lemma SourceStep(x: Bev, y: Bev, b: Id, step: Step)
    requires !step.Accept? && Ready(x, step)
    ensures var (x', y') := OnPair(x, y, b, step);
      Linked(x') ==> Queue(x', y') == Queue(x, y) + if step.Receive? then step.data else []
  {
    if step.Receive? {
      assert y.output + (x.input + step.data) == (y.output + x.input) + step.data;
    } else {
      assert Queue(x, y) + [] == Queue(x, y);
    }
  }

  /** A step on the side where bytes leave takes what departs from the front of the queue. */
  lemma TargetStep(x: Bev, y: Bev, q: Id, step: Step)
    requires !step.Accept? && Ready(y, step)
    ensures var (y', x') := OnPair(y, x, q, step);
      Linked(x') && Linked(y') ==>
        Queue(x', y') == Queue(x, y)[if step.Send? then step.n else 0..]
  {
    if step.Send? {
      assert y.output[step.n..] + x.input == (y.output + x.input)[step.n..];
    }
  }

  /** An arrival goes to the back, a departure leaves from the front, nothing else moves. */
  predicate QueueMoves(s: State, step: Step, t: State, b: Id, q: Id)
    requires b < |s| && q < |s| && b < |t| && q < |t|
  {
    var before, after := Queue(s[b], s[q]), Queue(t[b], t[q]);
    match step
    case Receive(c, data) => after == if c == b then before + data else before
    case Send(c, n) => if c == q then n <= |before| && after == before[n..] else after == before
    case _ => after == before
  }

  lemma StepMovesQueue(s: State, step: Step, t: State, b: Id, q: Id)
    requires Moves(s, step, t) && b < |s| && q < |s| && s[b].log.peer == q && s[q].log.peer == b
    requires b < |t| && q < |t| && Linked(t[b]) && Linked(t[q])
    ensures QueueMoves(s, step, t, b, q)
  {
    if !step.Accept? && step.b == b {
      SourceStep(s[b], s[q], b, step);
    } else if !step.Accept? && step.b == q {
      TargetStep(s[b], s[q], q, step);
    }
  }

  /** A linked pair refines two independent FIFO queues, whatever the other connections do. */
  lemma PairIsQueue(r: Run, i: nat, b: Id)
    requires IsRun(r) && i < |r.steps| && b < |r.states[i]| && b < |r.states[i + 1]|
    requires Linked(r.states[i][b]) && Linked(r.states[i + 1][b])
    ensures var s, t, q := r.states[i], r.states[i + 1], r.states[i][b].log.peer;
      q < |s| && q < |t| && QueueMoves(s, r.steps[i], t, b, q)
  {
    StreamsInOrder(r, i, b);
    StreamsInOrder(r, i + 1, b);
    PartnersMatch(r, i + 1, b);
    RunLog(r, i, b);
    RunMoves(r, i);
    StepMovesQueue(r.states[i], r.steps[i], r.states[i + 1], b, r.states[i][b].log.peer);
  }

  /** Bytes in a queue never get stuck: some step moves them on, or closes the partner. */
  lemma QueueCanMove(r: Run, i: nat, b: Id)
    requires IsRun(r) && i < |r.states| && b < |r.states[i]| && Linked(r.states[i][b])
    ensures var s, q := r.states[i], r.states[i][b].log.peer;
      q < |s| && (Queue(s[b], s[q]) != [] ==>
        || Enabled(s, RunRead(b)) || Enabled(s, Send(q, 1))
        || Enabled(s, RunEvent(q, s[q].due.events * {Eof, Error})))
  {
    RunKeeps(r, i);
    var s := r.states[i];
    assert GoodPair(s[b], s[s[b].log.peer], b);
  }

  // ---- Choking ----

  /**
   While its stream has not ended, a linked side is choked exactly when its partner waits to
   drain; it then has no unread input, and what will release it is on its way: a byte the socket
   can take, the drained callback, or the event that closes the partner.
   */
  lemma ChokeIsExact(r: Run, i: nat, b: Id)
    requires IsRun(r) && i < |r.states| && b < |r.states[i]| && Linked(r.states[i][b])
    ensures var s := r.states[i]; var x, q := s[b], s[b].log.peer;
      && q < |s|
      && (!x.ended ==> (!x.readOn <==> s[q].cb.write == Drained))
      && (s[q].cb.write != Drained ==> |s[q].output| < 524288 && s[q].low == 0 && s[q].high == 0)
      && (s[q].cb.write == Drained ==>
            && !x.readOn && x.input == [] && s[q].low == 262144 && s[q].high == 524288
            && (Enabled(s, RunWrite(q)) <==> |s[q].output| <= 262144)
            && (Enabled(s, RunWrite(q)) || Enabled(s, Send(q, 1))
                || Enabled(s, RunEvent(q, s[q].due.events * {Eof, Error}))))
  {
    RunKeeps(r, i);
    var s := r.states[i];
    assert GoodPair(s[b], s[s[b].log.peer], b);
  }

  /**
   Reading on a side is turned off only by the end of its stream or by a read callback that fills
   the partner to 512 KiB, and on again only by the partner once it is down to 256 KiB.
   */
  predicate SwitchedFairly(s: State, step: Step, t: State, b: Id, q: Id)
    requires b < |s| && q < |s| && b < |t| && q < |t|
  {
    && (s[b].readOn && !t[b].readOn ==>
          (step.EndInput? && step.b == b) || (step == RunRead(b) && |t[q].output| >= 524288))
    && (!s[b].readOn && t[b].readOn ==> step == RunWrite(q) && |s[q].output| <= 262144)
  }

  lemma SourceSwitches(x: Bev, y: Bev, b: Id, step: Step)
    requires !step.Accept? && Ready(x, step) && Linked(x)
    ensures var (x', y') := OnPair(x, y, b, step);
      Linked(x') && x'.readOn != x.readOn ==>
        x.readOn && (step.EndInput? || (step.RunRead? && |y'.output| >= 524288))
  {
  }

  lemma TargetSwitches(x: Bev, y: Bev, q: Id, step: Step)
    requires !step.Accept? && Ready(y, step) && Linked(x) && Linked(y) && ChokedExactly(x, y)
    ensures var (y', x') := OnPair(y, x, q, step);
      Linked(x') && x'.readOn != x.readOn ==>
        !x.readOn && step.RunWrite? && |y.output| <= 262144
  {
  }

  lemma StepSwitchesReading(s: State, step: Step, t: State, b: Id, q: Id)
    requires Moves(s, step, t) && b < |s| && q < |s| && b < |t| && q < |t|
    requires s[b].log.peer == q && GoodPair(s[b], s[q], b) && Linked(s[b]) && Linked(t[b])
    ensures SwitchedFairly(s, step, t, b, q)
  {
    if !step.Accept? && step.b == b {
      SourceSwitches(s[b], s[q], b, step);
    } else if !step.Accept? && step.b == q {
      TargetSwitches(s[b], s[q], q, step);
    }
  }

  lemma ReadingSwitches(r: Run, i: nat, b: Id)
    requires IsRun(r) && i < |r.steps| && b < |r.states[i]| && b < |r.states[i + 1]|
    requires Linked(r.states[i][b]) && Linked(r.states[i + 1][b])
    ensures var s, t, q := r.states[i], r.states[i + 1], r.states[i][b].log.peer;
      q < |s| && q < |t| && SwitchedFairly(s, r.steps[i], t, b, q)
  {
    RunMoves(r, i);
    var s, q := r.states[i], r.states[i][b].log.peer;
    assert GoodPair(s[b], s[q], b);
    StepSwitchesReading(s, r.steps[i], r.states[i + 1], b, q);
  }

  /** The read and drained callbacks always find a live partner: no input is ever discarded. */
  lemma CallbacksHavePartners(r: Run, i: nat, b: Id)
    requires IsRun(r) && i < |r.states| && b < |r.states[i]|
    ensures var s := r.states[i];
      Enabled(s, RunRead(b)) || (Enabled(s, RunWrite(b)) && s[b].cb.write == Drained) ==>
        s[b].cb.ctx.Some? && s[b].cb.ctx.value < |s| && s[s[b].cb.ctx.value].Alive()
  {
    RunKeeps(r, i);
    var s := r.states[i];
    assert GoodPair(s[b], s[s[b].log.peer], b);
  }

  // ---- Bounds ----

  /** Whenever a callback reads the input of `b`, it finds at most `R` bytes there. */
  predicate InputsBounded(r: Run, R: nat)
    requires IsRun(r)
  {
    forall i :: 0 <= i < |r.steps| && (r.steps[i].RunRead? || r.steps[i].RunEvent?) ==>
      r.steps[i].b < |r.states[i]| && |r.states[i][r.steps[i].b].input| <= R
  }

  lemma HandoverBound(x: Bev, y: Bev, b: Id, R: nat)
    requires GoodPair(x, y, b) && Linked(x) && |y.output| < 524288 + R && |x.input| <= R
    ensures |AfterReadTarget(x, y, b).output| < 524288 + R
  {
  }

  lemma PairBoundsOutput(x: Bev, y: Bev, b: Id, step: Step, R: nat)
    requires GoodPair(x, y, b) && x.Alive() && !step.Accept? && Ready(x, step)
    requires |y.output| < 524288 + R && (step.RunRead? || step.RunEvent? ==> |x.input| <= R)
    ensures |OnPair(x, y, b, step).1.output| < 524288 + R
  {
    if step.RunRead? || (step.RunEvent? && Linked(x)) {
      HandoverBound(x, y, b, R);
    }
  }

  lemma OwnOutputShrinks(x: Bev, y: Bev, b: Id, step: Step)
    requires !step.Accept? && Ready(x, step)
    ensures |OnPair(x, y, b, step).0.output| <= |x.output|
  {
  }

  lemma StepBoundsOutput(s: State, step: Step, t: State, R: nat, b: Id)
    requires Inv(s) && Moves(s, step, t) && b < |t|
    requires b < |s| ==> |s[b].output| < 524288 + R
    requires step.RunRead? || step.RunEvent? ==> |s[step.b].input| <= R
    ensures |t[b].output| < 524288 + R
  {
    if b < |s| && !step.Accept? {
      var q := s[b].log.peer;
      assert GoodPair(s[b], s[q], b);
      if step.b == b {
        OwnOutputShrinks(s[b], s[q], b, step);
      } else if step.b == q {
        PairBoundsOutput(s[q], s[b], q, step, R);
      }
    }
  }

  /** Every output buffer stays below 512 KiB plus one input, also while shutting down. */
  lemma {:induction false} OutputBounded(r: Run, R: nat, i: nat, b: Id)
    requires IsRun(r) && InputsBounded(r, R) && i < |r.states| && b < |r.states[i]|
    ensures |r.states[i][b].output| < 524288 + R
  {
    if i == 0 {
    } else {
      if b < |r.states[i - 1]| {
        OutputBounded(r, R, i - 1, b);
      }
      RunMoves(r, i - 1);
      StepBoundsOutput(r.states[i - 1], r.steps[i - 1], r.states[i], R, b);
    }
  }

  /** Each run of `drained_writecb` is paid for by 256 KiB that left the socket. */
  lemma DrainsArePaid(r: Run, i: nat, b: Id)
    requires IsRun(r) && i < |r.states|
    ensures 262144 * Drains(r, i, b) <= |Left(r, i, b)|
  {
    LogIsTrace(r, i, b);
    RunKeeps(r, i);
    if b < |r.states[i]| {
      assert Good(r.states[i][b], r.states[i][r.states[i][b].log.peer], b);
    }
  }

  // ---- Flush, then close ----

  /** What is left to do before a flushing side closes. */
  function Remaining(x: Bev): nat {
    2 * |x.output| + if x.due.write then 1 else 0
  }

  predicate OwnStep(step: Step, b: Id) {
    step == RunWrite(b) || (step.Send? && step.b == b)
  }

  /** A flushing side keeps flushing until it is freed, and each of its own steps brings that closer. */
  lemma StepFlushes(s: State, step: Step, t: State, b: Id)
    requires Inv(s) && Moves(s, step, t) && b < |s| && Flushing(s[b])
    ensures b < |t| && (t[b].Alive() ==>
              && Flushing(t[b]) && !t[b].cb.read && t[b].cb.write == CloseOnFinished && !t[b].readOn
              && Remaining(t[b]) + (if OwnStep(step, b) then 1 else 0) <= Remaining(s[b]))
  {
    assert GoodPair(s[b], s[s[b].log.peer], b);
  }

  /** How many of the steps from `i` to `j` are socket writes or write callbacks of `b`. */
  function OwnSteps(r: Run, i: nat, j: nat, b: Id): nat
    requires i <= j <= |r.steps|
    decreases j
  {
    if i == j then 0 else OwnSteps(r, i, j - 1, b) + if OwnStep(r.steps[j - 1], b) then 1 else 0
  }

  /** `x` is freed, or flushing with at most `budget` steps to go. */
  predicate Within(x: Bev, budget: int) {
    x.Alive() ==> Flushing(x) && Remaining(x) <= budget
  }

  lemma RunFlush(r: Run, i: nat, b: Id, budget: int)
    requires IsRun(r) && i < |r.steps| && b < |r.states[i]| && Within(r.states[i][b], budget)
    ensures b < |r.states[i + 1]|
    ensures Within(r.states[i + 1][b], if OwnStep(r.steps[i], b) then budget - 1 else budget)
  {
    RunMoves(r, i);
    if r.states[i][b].Alive() {
      StepFlushes(r.states[i], r.steps[i], r.states[i + 1], b);
    } else {
      FreedIsFinal(r.states[i], r.steps[i], r.states[i + 1], b);
    }
  }

  lemma {:induction false} FlushShrinks(r: Run, i: nat, j: nat, b: Id)
    requires IsRun(r) && i <= j < |r.states| && b < |r.states[i]| && Flushing(r.states[i][b])
    ensures b < |r.states[j]|
    ensures Within(r.states[j][b], Remaining(r.states[i][b]) - OwnSteps(r, i, j, b))
    decreases j
  {
    if i == j {
    } else {
      FlushShrinks(r, i, j - 1, b);
      RunFlush(r, j - 1, b, Remaining(r.states[i][b]) - OwnSteps(r, i, j - 1, b));
    }
  }

  /**
   Flush-then-close ends: from then on the side never forwards again; while it lives it always has
   a step of its own, or the event that closes it, to take; and after at most
   2 * |output| + 1 of its own steps it is freed.
   */
  lemma FlushEnds(r: Run, i: nat, j: nat, b: Id)
    requires IsRun(r) && i <= j < |r.states| && b < |r.states[i]| && Flushing(r.states[i][b])
    ensures b < |r.states[j]|
    ensures OwnSteps(r, i, j, b) >= Remaining(r.states[i][b]) ==> !r.states[j][b].Alive()
    ensures var s := r.states[j];
      s[b].Alive() ==>
        && Flushing(s[b]) && !s[b].cb.read && s[b].cb.write == CloseOnFinished && !s[b].readOn
        && (Enabled(s, RunWrite(b)) || Enabled(s, Send(b, |s[b].output|))
            || Enabled(s, RunEvent(b, s[b].due.events * {Eof, Error})))
  {
    FlushShrinks(r, i, j, b);
    RunKeeps(r, j);
    var s := r.states[j];
    assert GoodPair(s[b], s[s[b].log.peer], b);
  }

}

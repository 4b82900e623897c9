/**
 The event loop never spins: over any run, the number of callbacks and socket writes is bounded by
 what the network put in.
 */
module ProxyWork {
  import opened Common
  import opened BufferEvents
  import opened ProxyCallbacks
  import opened ProxyInvariant
  import opened ProxyRuns

  /** A callback, or a write to a socket. */
  predicate IsWork(step: Step) {
    step.Send? || step.RunRead? || step.RunWrite? || step.RunEvent?
  }

  /** What one step of the network can give the loop to do. */
  function Supply(step: Step): nat {
    match step
    case Receive(_, data) => 3 * |data| + 1
    case EndInput(_, _) => 2
    case EndOutput(_, _) => 2
    case Notify(_, what) => |what|
    case _ => 0
  }

  /** What a buffer event still gives the loop to do, at most. */
  function Credit(x: Bev): nat {
    3 * |x.input| + 2 * |x.output|
    + (if x.due.read then 1 else 0) + (if x.due.write then 1 else 0) + |x.due.events|
  }

  lemma UnionSize<T>(a: set<T>, b: set<T>)
    ensures |a + b| <= |a| + |b|
  {
    assert a + b == a + (b - a);
    assert |b - a| <= |b| by { assert b == (b - a) + (b * a); }
  }

  lemma TargetCredit(x: Bev, y: Bev, b: Id)
    ensures Credit(AfterReadTarget(x, y, b)) == Credit(y) + 2 * |x.input|
  {
  }

  lemma LeftAloneCredit(y: Bev)
    ensures Credit(LeftAlone(y)) <= Credit(y)
  {
  }

  lemma PairSpendsEvent(x: Bev, y: Bev, b: Id, what: set<Flag>)
    requires Ready(x, RunEvent(b, what))
    ensures var (x', y') := OnPair(x, y, b, RunEvent(b, what));
      Credit(x') + Credit(y') + 1 <= Credit(x) + Credit(y)
  {
    if what * {Eof, Error} == {} {
      assert |x.due.events - what| + |what| == |x.due.events|;
    } else {
      assert Credit(Freed(x, OwnEvent)) == 0;
      TargetCredit(x, y, b);
      LeftAloneCredit(AfterReadTarget(x, y, b));
    }
  }

  lemma FreedCredit(x: Bev, why: Fate)
    ensures Credit(Freed(x, why)) == 0
  {
  }

  lemma PairSpendsWrite(x: Bev, y: Bev, b: Id)
    requires Ready(x, RunWrite(b))
    ensures var (x', y') := OnPair(x, y, b, RunWrite(b));
      Credit(x') + Credit(y') + 1 <= Credit(x) + Credit(y)
  {
    FreedCredit(x, Finished);
    assert Credit(TakeWrite(x)) + 1 == Credit(x);
    assert Credit(AfterDrain(TakeWrite(x), x.log.peer)) == Credit(TakeWrite(x));
    assert Credit(y.(readOn := true)) == Credit(y);
  }

  lemma ReceiveCredit(x: Bev, data: seq<Byte>)
    ensures Credit(BufferEvents.Receive(x, data)) <= Credit(x) + 3 * |data| + 1
  {
  }

  lemma SendCredit(x: Bev, n: nat)
    requires 0 < n <= |x.output|
    ensures Credit(BufferEvents.Send(x, n)) + 1 <= Credit(x)
  {
  }

  lemma PairSpends(x: Bev, y: Bev, b: Id, step: Step)
    requires !step.Accept? && Ready(x, step)
    ensures var (x', y') := OnPair(x, y, b, step);
      Credit(x') + Credit(y') + (if IsWork(step) then 1 else 0) <= Credit(x) + Credit(y) + Supply(step)
  {
    match step {
      case EndInput(_, flag) => UnionSize(x.due.events, {Reading, flag});
      case EndOutput(_, flag) => UnionSize(x.due.events, {Writing, flag});
      case Notify(_, what) => UnionSize(x.due.events, what);
      case RunRead(_) => TargetCredit(x, y, b);
      case RunEvent(_, what) => PairSpendsEvent(x, y, b, what);
      case RunWrite(_) => PairSpendsWrite(x, y, b);
      case Send(_, n) => SendCredit(x, n);
      case Receive(_, data) => ReceiveCredit(x, data);
    }
  }

  function Total(s: State): nat {
    if s == [] then 0 else Total(s[..|s| - 1]) + Credit(s[|s| - 1])
  }

  lemma {:induction false} TotalOfReplaced(s: State, t: State, b: Id, q: Id)
    requires |s| == |t| && b < q
    requires forall i :: 0 <= i < |s| && i != b && i != q ==> t[i] == s[i]
    ensures Total(t) - Total(s) ==
            (if b < |s| then Credit(t[b]) - Credit(s[b]) else 0) +
            (if q < |s| then Credit(t[q]) - Credit(s[q]) else 0)
  {
    if s == [] {
    } else {
      TotalOfReplaced(s[..|s| - 1], t[..|t| - 1], b, q);
    }
  }

  lemma TotalOfTwoMore(s: State, t: State)
    requires |t| == |s| + 2 && forall i :: 0 <= i < |s| ==> t[i] == s[i]
    ensures Total(t) == Total(s) + Credit(t[|s|]) + Credit(t[|s| + 1])
  {
    var n := |s|;
    var u := t[..n + 1];
    assert u[..n] == s && u[n] == t[n];
    assert Total(t) == Total(u) + Credit(t[n + 1]);
  }

  lemma OpenedCredit(peer: Id, connected: bool)
    ensures Credit(Opened(peer, connected)) == 0
  {
  }

  lemma StepSpends(s: State, step: Step, t: State)
    requires Inv(s) && Moves(s, step, t)
    ensures Total(t) + (if IsWork(step) then 1 else 0) <= Total(s) + Supply(step)
  {
    if step.Accept? {
      TotalOfTwoMore(s, t);
      OpenedCredit(|s| + 1, step.connected);
      OpenedCredit(|s|, step.connected);
    } else {
      var b, q := step.b, s[step.b].log.peer;
      PairSpends(s[b], s[q], b, step);
      TotalOfReplaced(s, t, if b < q then b else q, if b < q then q else b);
    }
  }

  function Work(r: Run, i: nat): nat
    requires i <= |r.steps|
  {
    if i == 0 then 0 else Work(r, i - 1) + if IsWork(r.steps[i - 1]) then 1 else 0
  }

  function Supplied(r: Run, i: nat): nat
    requires i <= |r.steps|
  {
    if i == 0 then 0 else Supplied(r, i - 1) + Supply(r.steps[i - 1])
  }

  lemma RunSpends(r: Run, i: nat)
    requires IsRun(r) && i < |r.steps|
    ensures Total(r.states[i + 1]) + (if IsWork(r.steps[i]) then 1 else 0)
            <= Total(r.states[i]) + Supply(r.steps[i])
  {
    RunMoves(r, i);
    StepSpends(r.states[i], r.steps[i], r.states[i + 1]);
  }

  lemma {:induction false} LoopNeverSpins(r: Run, i: nat)
    requires IsRun(r) && i < |r.states|
    ensures Work(r, i) + Total(r.states[i]) <= Supplied(r, i)
  {
    if i == 0 {
    } else {
      LoopNeverSpins(r, i - 1);
      RunSpends(r, i - 1);
    }
  }

}

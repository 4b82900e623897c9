/** What the proxy guarantees over whole runs: any number of connections, any interleaving. */
module ProxyRuns {
  import opened Common
  import opened BufferEvents
  import opened ProxyCallbacks
  import opened ProxyInvariant

  datatype Run = Run(states: seq<State>, steps: seq<Step>)

  predicate Next(s: State, step: Step, t: State) {
    Enabled(s, step) && Apply(s, step) == Ok(t)
  }

  predicate StepAt(r: Run, i: nat)
    requires |r.states| == |r.steps| + 1 && i < |r.steps|
  {
    Next(r.states[i], r.steps[i], r.states[i + 1])
  }

  /** A run starts without connections; every step is one the event loop can take. */
  predicate IsRun(r: Run) {
    && |r.states| == |r.steps| + 1
    && r.states[0] == []
    && forall i :: 0 <= i < |r.steps| ==> StepAt(r, i)
  }

  lemma {:induction false} RunKeeps(r: Run, i: nat)
    requires IsRun(r) && i < |r.states|
    ensures Inv(r.states[i])
  {
    if i == 0 {
    } else {
      RunKeeps(r, i - 1);
      assert StepAt(r, i - 1);
      StepKeeps(r.states[i - 1], r.steps[i - 1]);
    }
  }

  // ---- What the sockets did, read off the steps of the run ----

  function ArrivedIn(step: Step, b: Id): seq<Byte> {
    if step.Receive? && step.b == b then step.data else []
  }

  function LeftIn(s: State, step: Step, b: Id): seq<Byte>
    requires Enabled(s, step)
  {
    if step.Send? && step.b == b then s[b].output[..step.n] else []
  }

  predicate RunsDrained(s: State, step: Step, b: Id) {
    step == RunWrite(b) && b < |s| && s[b].cb.write == Drained
  }

  /** The bytes that arrived on socket `b` in the first `i` steps. */
  function Arrived(r: Run, i: nat, b: Id): seq<Byte>
    requires IsRun(r) && i < |r.states|
  {
    if i == 0 then [] else Arrived(r, i - 1, b) + ArrivedIn(r.steps[i - 1], b)
  }

  /** The bytes that left through socket `b` in the first `i` steps. */
  function Left(r: Run, i: nat, b: Id): seq<Byte>
    requires IsRun(r) && i < |r.states|
  {
    if i == 0 then []
    else
      assert StepAt(r, i - 1);
      Left(r, i - 1, b) + LeftIn(r.states[i - 1], r.steps[i - 1], b)
  }

  /** How often `drained_writecb` ran on `b` in the first `i` steps. */
  function Drains(r: Run, i: nat, b: Id): nat
    requires IsRun(r) && i < |r.states|
  {
    if i == 0 then 0
    else Drains(r, i - 1, b) + if RunsDrained(r.states[i - 1], r.steps[i - 1], b) then 1 else 0
  }

  // ---- The effect of one step ----

  /** A step, told by its effect: it opens a pair, or changes one pair and nothing else. */
  predicate Moves(s: State, step: Step, t: State) {
    && Enabled(s, step)
    && if step.Accept? then
         var n := |s|;
         && |t| == n + 2 && (forall i :: 0 <= i < n ==> t[i] == s[i])
         && t[n] == Opened(n + 1, step.connected) && t[n + 1] == Opened(n, step.connected)
       else
         var b := step.b;
         var q := s[b].log.peer;
         && b != q && q < |s| && s[q].log.peer == b
         && Replaced(s, t, b, q, OnPair(s[b], s[q], b, step))
  }

  lemma StepMoves(s: State, step: Step, t: State)
    requires Inv(s) && Next(s, step, t)
    ensures Moves(s, step, t)
  {
    if step.Accept? {
      AcceptAppends(s, step.connected);
    } else {
      StepOnPair(s, step);
    }
  }

  lemma RunMoves(r: Run, i: nat)
    requires IsRun(r) && i < |r.steps|
    ensures Inv(r.states[i]) && Moves(r.states[i], r.steps[i], r.states[i + 1])
  {
    RunKeeps(r, i);
    assert StepAt(r, i);
    StepMoves(r.states[i], r.steps[i], r.states[i + 1]);
  }

  /** A step on one buffer event touches nothing outside its own connection. */
  lemma Isolated(r: Run, i: nat, b: Id)
    requires IsRun(r) && i < |r.steps| && b < |r.states[i]|
    requires var s, step := r.states[i], r.steps[i];
      !step.Accept? ==> b != step.b && (step.b < |s| ==> b != s[step.b].log.peer)
    ensures |r.states[i]| <= |r.states[i + 1]| && r.states[i + 1][b] == r.states[i][b]
  {
    RunMoves(r, i);
  }

  /** Any event but the end of the stream or an error leaves the whole connection as it was. */
  lemma OtherEventsChangeNothing(r: Run, i: nat, b: Id, what: set<Flag>)
    requires IsRun(r) && i < |r.steps| && r.steps[i] == RunEvent(b, what)
    requires Eof !in what && Error !in what
    ensures var s, t := r.states[i], r.states[i + 1];
      && b < |s| == |t| && (forall c :: 0 <= c < |s| && c != b ==> t[c] == s[c])
      && t[b] == s[b].(due := s[b].due.(events := s[b].due.events - what))
  {
    RunMoves(r, i);
    assert what * {Eof, Error} == {};
  }

  /** The histories of `b` before and after a step; a new object has an empty one. */
  predicate Logged(s: State, step: Step, t: State, b: Id)
    requires Enabled(s, step)
  {
    if b < |s| then
      && b < |t| && t[b].log.peer == s[b].log.peer
      && t[b].log.received == s[b].log.received + ArrivedIn(step, b)
      && t[b].log.sent == s[b].log.sent + LeftIn(s, step, b)
      && t[b].log.drains == s[b].log.drains + if RunsDrained(s, step, b) then 1 else 0
    else
      && ArrivedIn(step, b) == [] && LeftIn(s, step, b) == [] && !RunsDrained(s, step, b)
      && (b < |t| ==> t[b].log.received == [] && t[b].log.sent == [] && t[b].log.drains == 0)
  }

  lemma PairLog(x: Bev, y: Bev, b: Id, step: Step)
    requires !step.Accept? && Ready(x, step)
    ensures var (x', y') := OnPair(x, y, b, step);
      && y'.log == y.log && x'.log.peer == x.log.peer
      && x'.log.received == x.log.received + (if step.Receive? then step.data else [])
      && x'.log.sent == x.log.sent + (if step.Send? then x.output[..step.n] else [])
      && x'.log.drains == x.log.drains + if step.RunWrite? && x.cb.write == Drained then 1 else 0
  {
    assert x.log.received + [] == x.log.received && x.log.sent + [] == x.log.sent;
  }

  lemma StepLog(s: State, step: Step, t: State, b: Id)
    requires Moves(s, step, t)
    ensures Logged(s, step, t, b)
  {
    if !step.Accept? {
      PairLog(s[step.b], s[s[step.b].log.peer], step.b, step);
    }
    if b < |s| {
      assert s[b].log.received + [] == s[b].log.received && s[b].log.sent + [] == s[b].log.sent;
    }
  }

  lemma RunLog(r: Run, i: nat, b: Id)
    requires IsRun(r) && i < |r.steps|
    ensures Enabled(r.states[i], r.steps[i]) && Logged(r.states[i], r.steps[i], r.states[i + 1], b)
  {
    RunMoves(r, i);
    StepLog(r.states[i], r.steps[i], r.states[i + 1], b);
  }

  predicate Traced(r: Run, i: nat, b: Id)
    requires IsRun(r) && i < |r.states|
  {
    if b < |r.states[i]| then
      var log := r.states[i][b].log;
      && log.received == Arrived(r, i, b) && log.sent == Left(r, i, b) && log.drains == Drains(r, i, b)
    else
      Arrived(r, i, b) == [] && Left(r, i, b) == [] && Drains(r, i, b) == 0
  }

  lemma TracedStep(r: Run, i: nat, b: Id)
    requires IsRun(r) && i < |r.steps| && Traced(r, i, b) && Enabled(r.states[i], r.steps[i])
    requires Logged(r.states[i], r.steps[i], r.states[i + 1], b)
    ensures Traced(r, i + 1, b)
  {
    assert Arrived(r, i + 1, b) == Arrived(r, i, b) + ArrivedIn(r.steps[i], b);
    assert Left(r, i + 1, b) == Left(r, i, b) + LeftIn(r.states[i], r.steps[i], b);
  }

  lemma {:induction false} RunTraced(r: Run, i: nat, b: Id)
    requires IsRun(r) && i < |r.states|
    ensures Traced(r, i, b)
  {
    if i == 0 {
    } else {
      RunTraced(r, i - 1, b);
      RunLog(r, i - 1, b);
      TracedStep(r, i - 1, b);
    }
  }

  lemma LogIsTrace(r: Run, i: nat, b: Id)
    requires IsRun(r) && i < |r.states|
    ensures b < |r.states[i]| ==>
              && r.states[i][b].log.received == Arrived(r, i, b)
              && r.states[i][b].log.sent == Left(r, i, b)
              && r.states[i][b].log.drains == Drains(r, i, b)
    ensures b >= |r.states[i]| ==>
              Arrived(r, i, b) == [] && Left(r, i, b) == [] && Drains(r, i, b) == 0
  {
    RunTraced(r, i, b);
  }

  // ---- Guarantees in every reachable state ----

  /** No step that the event loop can take ever touches a freed object. */
  lemma NeverUsesFreed(r: Run, i: nat, step: Step)
    requires IsRun(r) && i < |r.states| && Enabled(r.states[i], step)
    ensures Apply(r.states[i], step).Ok?
  {
    RunKeeps(r, i);
    StepKeeps(r.states[i], step);
  }

  /** The partner pointers of live objects are a symmetric, irreflexive matching onto live objects. */
  lemma PartnersMatch(r: Run, i: nat, b: Id)
    requires IsRun(r) && i < |r.states| && b < |r.states[i]|
    requires r.states[i][b].Alive() && r.states[i][b].cb.ctx.Some?
    ensures var s := r.states[i]; var p := s[b].cb.ctx.value;
      p < |s| && p != b && s[p].Alive() && s[p].cb.ctx == Some(b)
  {
    RunKeeps(r, i);
    assert Good(r.states[i][b], r.states[i][r.states[i][b].log.peer], b);
  }

  lemma FreedIsFinal(s: State, step: Step, t: State, b: Id)
    requires Inv(s) && Moves(s, step, t) && b < |s| && !s[b].Alive()
    ensures |s| <= |t| && t[b] == s[b]
  {
  }

  /** A freed object never changes again, so it is freed once only. */
  lemma FreedForGood(r: Run, i: nat, b: Id)
    requires IsRun(r) && i < |r.steps| && b < |r.states[i]| && !r.states[i][b].Alive()
    ensures b < |r.states[i + 1]| && r.states[i + 1][b] == r.states[i][b]
  {
    RunMoves(r, i);
    FreedIsFinal(r.states[i], r.steps[i], r.states[i + 1], b);
  }

  /**
   Bytes are neither lost, repeated, reordered nor mixed: what left one socket is always a prefix
   of what arrived on the other, and while the pair is linked the rest is exactly what is buffered.
   */
  lemma StreamsInOrder(r: Run, i: nat, b: Id)
    requires IsRun(r) && i < |r.states| && b < |r.states[i]|
    ensures var s := r.states[i]; var q := s[b].log.peer;
      && q < |s| && q != b && s[q].log.peer == b
      && Left(r, i, q) <= Arrived(r, i, b)
      && (Linked(s[b]) ==>
            s[b].cb.ctx == Some(q) && Left(r, i, q) + s[q].output + s[b].input == Arrived(r, i, b))
  {
    var s := r.states[i];
    var q := s[b].log.peer;
    RunKeeps(r, i);
    assert Good(s[b], s[q], b) && Good(s[q], s[b], q);
    LogIsTrace(r, i, b);
    LogIsTrace(r, i, q);
  }

  lemma {:induction false} StaysFreed(r: Run, i: nat, j: nat, b: Id)
    requires IsRun(r) && i <= j < |r.states| && b < |r.states[i]| && !r.states[i][b].Alive()
    ensures b < |r.states[j]| && r.states[j][b] == r.states[i][b]
    decreases j
  {
    if i == j {
    } else {
      StaysFreed(r, i, j - 1, b);
      FreedForGood(r, j - 1, b);
    }
  }

  lemma OtherHalfIsDeaf(s: State, step: Step, b: Id)
    requires Inv(s) && b < |s| && !s[b].Alive() && Enabled(s, step)
    ensures ArrivedIn(step, s[b].log.peer) == []
  {
    var q := s[b].log.peer;
    assert Good(s[b], s[q], b) && Good(s[q], s[b], q);
  }

  /** Once one half is freed, nothing more arrives on the other. */
  lemma {:induction false} NothingMoreArrives(r: Run, i: nat, j: nat, b: Id)
    requires IsRun(r) && i <= j < |r.states| && b < |r.states[i]| && !r.states[i][b].Alive()
    ensures Arrived(r, j, r.states[i][b].log.peer) == Arrived(r, i, r.states[i][b].log.peer)
    decreases j
  {
    if i == j {
    } else {
      NothingMoreArrives(r, i, j - 1, b);
      StaysFreed(r, i, j - 1, b);
      RunKeeps(r, j - 1);
      assert StepAt(r, j - 1);
      OtherHalfIsDeaf(r.states[j - 1], r.steps[j - 1], b);
    }
  }

  /** An object is freed by its own event, by its last write callback, or with its partner. */
  lemma FreedWhy(s: State, step: Step, t: State, b: Id)
    requires Moves(s, step, t) && b < |s| && s[b].Alive() && !t[b].Alive()
    requires !(step.RunEvent? && step.b == b)
    ensures t[b].fate == Finished || t[b].fate == PartnerEnded
  {
  }

  lemma FreedInRun(r: Run, i: nat, b: Id)
    requires IsRun(r) && i < |r.steps|
    requires b < |r.states[i]| && r.states[i][b].Alive()
    requires b < |r.states[i + 1]| && !r.states[i + 1][b].Alive()
    requires !(r.steps[i].RunEvent? && r.steps[i].b == b)
    ensures r.states[i + 1][b].log.peer == r.states[i][b].log.peer
    ensures r.states[i + 1][b].fate == Finished || r.states[i + 1][b].fate == PartnerEnded
  {
    RunMoves(r, i);
    FreedWhy(r.states[i], r.steps[i], r.states[i + 1], b);
    StepLog(r.states[i], r.steps[i], r.states[i + 1], b);
  }

  lemma SentInFull(s: State, b: Id)
    requires Inv(s) && b < |s| && (s[b].fate == Finished || s[b].fate == PartnerEnded)
    ensures s[b].log.peer < |s| && s[b].log.sent == s[s[b].log.peer].log.received
  {
    assert Good(s[b], s[s[b].log.peer], b);
  }

  /**
   A side that was freed for any reason but its own event has passed on everything that ever
   arrives on the other side.
   */
  lemma DeliveredInFull(r: Run, i: nat, j: nat, b: Id)
    requires IsRun(r) && i < j < |r.states|
    requires b < |r.states[i]| && r.states[i][b].Alive()
    requires b < |r.states[i + 1]| && !r.states[i + 1][b].Alive()
    requires !(r.steps[i].RunEvent? && r.steps[i].b == b)
    ensures b < |r.states[j]| && Left(r, j, b) == Arrived(r, j, r.states[i][b].log.peer)
  {
    FreedInRun(r, i, b);
    StaysFreed(r, i + 1, j, b);
    RunKeeps(r, j);
    SentInFull(r.states[j], b);
    LogIsTrace(r, j, b);
    LogIsTrace(r, j, r.states[i][b].log.peer);
  }

  /** What a side still owes its socket: its output, then what its partner has not handed over. */
  function Owed(s: State, b: Id): seq<Byte>
    requires b < |s|
  {
    s[b].output + if Linked(s[b]) && s[b].log.peer < |s| then s[s[b].log.peer].input else []
  }

  lemma OwedExactly(s: State, b: Id)
    requires Inv(s) && b < |s| && s[b].Alive()
    ensures s[b].log.peer < |s| && s[b].log.sent + Owed(s, b) == s[s[b].log.peer].log.received
  {
    var x, y := s[b], s[s[b].log.peer];
    assert GoodPair(x, y, b);
    if Linked(x) {
      assert x.log.sent + (x.output + y.input) == x.log.sent + x.output + y.input;
    } else {
      assert x.output + [] == x.output;
    }
  }

  lemma OwedIsMissing(r: Run, i: nat, b: Id)
    requires IsRun(r) && i < |r.states| && b < |r.states[i]| && r.states[i][b].Alive()
    ensures Left(r, i, b) + Owed(r.states[i], b) == Arrived(r, i, r.states[i][b].log.peer)
  {
    RunKeeps(r, i);
    OwedExactly(r.states[i], b);
    LogIsTrace(r, i, b);
    LogIsTrace(r, i, r.states[i][b].log.peer);
  }

  lemma EqualIffNoRest(a: seq<Byte>, rest: seq<Byte>, whole: seq<Byte>)
    requires a + rest == whole
    ensures a == whole <==> rest == []
  {
    assert |a| + |rest| == |whole|;
  }

  lemma OwnEventFrees(r: Run, i: nat, b: Id, what: set<Flag>)
    requires IsRun(r) && i < |r.steps|
    requires r.steps[i] == RunEvent(b, what) && what * {Eof, Error} != {}
    ensures b < |r.states[i]| && r.states[i][b].Alive()
    ensures b < |r.states[i + 1]| && !r.states[i + 1][b].Alive()
    ensures r.states[i + 1][b].log == r.states[i][b].log
  {
    RunMoves(r, i);
  }

  lemma FrozenByOwnEvent(r: Run, i: nat, j: nat, b: Id, what: set<Flag>)
    requires IsRun(r) && i < j < |r.states|
    requires r.steps[i] == RunEvent(b, what) && what * {Eof, Error} != {}
    ensures b < |r.states[i]| && b < |r.states[j]| && !r.states[j][b].Alive()
    ensures Left(r, j, b) == Left(r, i, b)
    ensures Arrived(r, j, r.states[i][b].log.peer) == Arrived(r, i, r.states[i][b].log.peer)
  {
    OwnEventFrees(r, i, b, what);
    NothingMoreArrives(r, i + 1, j, b);
    StaysFreed(r, i + 1, j, b);
    LogIsTrace(r, i, b);
    LogIsTrace(r, j, b);
  }

  /**
   A side closed by its own event loses exactly what it still owed at that moment, for ever; so it
   has delivered in full if and only if it owed nothing.
   */
  lemma LostByOwnEvent(r: Run, i: nat, j: nat, b: Id, what: set<Flag>)
    requires IsRun(r) && i < j < |r.states|
    requires r.steps[i] == RunEvent(b, what) && what * {Eof, Error} != {}
    ensures b < |r.states[i]| && b < |r.states[j]| && !r.states[j][b].Alive()
    ensures var q := r.states[i][b].log.peer;
      && Left(r, j, b) + Owed(r.states[i], b) == Arrived(r, j, q)
      && (Left(r, j, b) == Arrived(r, j, q) <==> Owed(r.states[i], b) == [])
  {
    OwnEventFrees(r, i, b, what);
    OwedIsMissing(r, i, b);
    FrozenByOwnEvent(r, i, j, b, what);
    EqualIffNoRest(Left(r, j, b), Owed(r.states[i], b), Arrived(r, j, r.states[i][b].log.peer));
  }

}

/** A run in which a byte is lost: the proxy reads it and never passes it on. */
module ProxyLoss {
  import opened Common
  import opened BufferEvents
  import opened ProxyCallbacks
  import opened ProxyInvariant
  import opened ProxyRuns

  /** A client and its server, just connected. */
  function Connected(): State {
    [Opened(1, true), Opened(0, true)]
  }

  /** One byte has come from the server. */
  function ByteRead(): State {
    [Opened(1, true), BufferEvents.Receive(Opened(0, true), [7])]
  }

  /** The client has ended its stream. */
  function ClientEnded(): State {
    [BufferEvents.EndInput(Opened(1, true), Eof), BufferEvents.Receive(Opened(0, true), [7])]
  }

  /** Its event callback has closed both sides. */
  function BothClosed(): State {
    [Freed(ClientEnded()[0], OwnEvent), Freed(ClientEnded()[1], PartnerEnded)]
  }

  lemma Connects()
    ensures Next([], Accept(true), Connected())
  {
    AcceptAppends([], true);
    assert AcceptCb([], true).value == Connected();
  }

  lemma ReadsByte()
    ensures Next(Connected(), Step.Receive(1, [7]), ByteRead())
  {
    assert Connected()[1 := BufferEvents.Receive(Connected()[1], [7])] == ByteRead();
  }

  lemma EndsClient()
    ensures Next(ByteRead(), Step.EndInput(0, Eof), ClientEnded())
  {
    assert ByteRead()[0 := BufferEvents.EndInput(ByteRead()[0], Eof)] == ClientEnded();
  }

  lemma ClosesBoth()
    ensures Next(ClientEnded(), RunEvent(0, {Eof}), BothClosed())
  {
    var s := ClientEnded();
    var t := s[0 := TakeEvents(s[0], {Eof})];
    assert Eof in {Eof} * {Eof, Error};
    EventOnPair(t, 0, 1, {Eof});
    assert AfterReadTarget(t[0], t[1], 0) == t[1] by { assert [] + [] == t[1].output; }
    assert EventCb(t, 0, {Eof}, Some(1)).value == BothClosed();
  }

  function Loss(): Run {
    Run([[], Connected(), ByteRead(), ClientEnded(), BothClosed()],
        [Accept(true), Step.Receive(1, [7]), Step.EndInput(0, Eof), RunEvent(0, {Eof})])
  }

  lemma LossIsRun()
    ensures IsRun(Loss())
  {
    var r := Loss();
    forall i | 0 <= i < |r.steps|
      ensures StepAt(r, i)
    {
      Connects();
      ReadsByte();
      EndsClient();
      ClosesBoth();
      assert i == 0 || i == 1 || i == 2 || i == 3;
    }
  }

  /** When the client ends its stream first, what the server had sent by then does not reach it. */
  lemma BytesCanBeLost()
    ensures IsRun(Loss()) && Arrived(Loss(), 4, 1) == [7] && Left(Loss(), 4, 0) == []
    ensures Loss().states[4][0].log.peer == 1 && !Loss().states[4][0].Alive()
  {
    LossIsRun();
    LogIsTrace(Loss(), 4, 0);
    LogIsTrace(Loss(), 4, 1);
  }

}

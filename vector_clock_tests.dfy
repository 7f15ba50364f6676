/** The two scenarios the vector-clock module checks: comparisons between a
    handful of clocks of a two-process cluster, and three processes that
    exchange messages. */
module VectorClockTests {
  import opened Order
  import opened VectorClocks
  import opened OrdProcesses

  /** Two-process comparisons: a clock equals itself, `extend` and `merge`
      strictly advance it, distinct genesis clocks are incomparable, and a
      clock that has not seen the other's step is incomparable with it. */
  lemma PartialOrdScenario()
    ensures var e1 := New(0, 2);
            var e2 := Extend(e1);
            var f1 := New(1, 2);
            var f2 := Merged(f1, e1);
            && PartialCmp(e1, e1) == Some(Equal)
            && PartialCmp(e1, e2) == Some(Less)
            && PartialCmp(e2, e2) == Some(Equal)
            && PartialCmp(e1, f1) == None
            && PartialCmp(e2, f1) == None
            && PartialCmp(f1, f1) == Some(Equal)
            && PartialCmp(e1, f2) == Some(Less)
            && PartialCmp(e2, f2) == None
            && PartialCmp(f1, f2) == Some(Less)
            && PartialCmp(f2, f2) == Some(Equal)
  {
    var e1 := New(0, 2);
    var e2 := Extend(e1);
    var f1 := New(1, 2);
    var f2 := Merged(f1, e1);
    ExtendStrictlyGrows(e1);
    GenesisIncomparable(0, 1, 2);
    MergeStrictlyGrows(f1, e1);
    assert e2.clk[0] == 2 && f1.clk[0] == 0;
    assert f2.clk[0] == 1;
  }

  /** The first three steps of processes 0 and 2: a local step, a send,
      another local step, from an empty history. The history is
      the genesis clock extended once, twice and three times; the value sent
      is the second event. */
  method StepSendStep(p: VectorProcess) returns (sent: VectorClock)
    requires p.Valid() && p.events == [] && p.pid < p.nProcs
    modifies p
    ensures p.Valid()
    ensures var e1 := Extend(New(p.pid, p.nProcs));
            var e2 := Extend(e1);
            p.events == [e1, e2, Extend(e2)] && sent == e2
    ensures |sent.clk| == p.nProcs
  {
    p.Exec();
    sent := p.Send();
    assert p.events[1] == sent;
    p.Exec();
  }

  /** The steps of process 1: a local step, a receive of `first`, a receive of
      `second`, a send, from an empty history. The history is the extended
      genesis clock, its merge with `first`, that merged with `second`, and
      the extension of the last; the value sent is the fourth event, and each
      received value is `<` the event of its receive. */
  method StepRecvRecvSend(p: VectorProcess, first: VectorClock, second: VectorClock)
    returns (sent: VectorClock)
    requires p.Valid() && p.events == [] && p.pid < p.nProcs
    requires |first.clk| == p.nProcs && |second.clk| == p.nProcs
    modifies p
    ensures p.Valid()
    ensures var e1 := Extend(New(p.pid, p.nProcs));
            var e2 := Merged(e1, first);
            var e3 := Merged(e2, second);
            p.events == [e1, e2, e3, Extend(e3)] && sent == Extend(e3)
    ensures Lt(first, p.events[1]) && Lt(second, p.events[2]) && p.events[3] == sent
    ensures |sent.clk| == p.nProcs
  {
    p.Exec();
    ghost var h1 := p.events;
    p.Recv(first);
    ghost var h2 := p.events;
    assert h2 == h1 + [h2[1]] && Lt(first, h2[1]);
    p.Recv(second);
    assert p.events == h2 + [p.events[2]] && Lt(second, p.events[2]);
    sent := p.Send();
  }

  /** Three processes, one schedule consistent with the channels: process 2
      steps, sends to process 1 and steps again; process 0 does the same;
      process 1 steps, receives from process 2, then from process 0, and
      sends to process 2, which receives it. The histories have 3, 4 and 4
      events, each in program order, and every event before a send is `<`
      the receiver's event after the matching receive, also across two
      hops. */
  method Run() returns (p1: seq<VectorClock>, p2: seq<VectorClock>, p3: seq<VectorClock>)
    ensures |p1| == 3 && |p2| == 4 && |p3| == 4
    ensures ProgramOrdered(p1) && ProgramOrdered(p2) && ProgramOrdered(p3)
    ensures forall k :: 0 <= k < 2 ==> Lt(p3[k], p2[1])
    ensures forall k :: 0 <= k < 2 ==> Lt(p1[k], p2[2])
    ensures forall k :: 0 <= k < 2 ==> Lt(p3[k], p2[2])
    ensures forall k :: 0 <= k < 4 ==> Lt(p2[k], p3[3])
    ensures forall k :: 0 <= k < 2 ==> Lt(p1[k], p3[3])
  {
    var a := new VectorProcess(0, 3);
    var b := new VectorProcess(1, 3);
    var c := new VectorProcess(2, 3);
    var toB := StepSendStep(c);
    ghost var c3 := c.events;
    assert |c3| == 3 && c3[1] == toB;
    var fromA := StepSendStep(a);
    p1 := a.events;
    assert |p1| == 3 && p1[1] == fromA;
    var toC := StepRecvRecvSend(b, toB, fromA);
    p2 := b.events;
    assert |p2| == 4 && Lt(toB, p2[1]) && Lt(fromA, p2[2]) && p2[3] == toC;
    c.Recv(toC);
    p3 := c.events;
    assert p3 == c3 + [p3[3]] && Lt(toC, p3[3]);
    ScheduleOrder(p1, p2, p3);
  }

  /** The ordering facts of `Run` from three program-ordered histories and
      its three messages: `p3[1]` received as `p2[1]`, `p1[1]` received as
      `p2[2]`, `p2[3]` received as `p3[3]`. */
  lemma ScheduleOrder(p1: seq<VectorClock>, p2: seq<VectorClock>, p3: seq<VectorClock>)
    requires |p1| == 3 && |p2| == 4 && |p3| == 4
    requires ProgramOrdered(p1) && ProgramOrdered(p2) && ProgramOrdered(p3)
    requires Lt(p3[1], p2[1]) && Lt(p1[1], p2[2]) && Lt(p2[3], p3[3])
    ensures forall k :: 0 <= k < 2 ==> Lt(p3[k], p2[1])
    ensures forall k :: 0 <= k < 2 ==> Lt(p1[k], p2[2])
    ensures forall k :: 0 <= k < 2 ==> Lt(p3[k], p2[2])
    ensures forall k :: 0 <= k < 4 ==> Lt(p2[k], p3[3])
    ensures forall k :: 0 <= k < 2 ==> Lt(p1[k], p3[3])
  {
    MessageOrder(p3, 1, p2[1]);
    MessageOrder(p1, 1, p2[2]);
    LtTransitive(p3[1], p2[1], p2[2]);
    MessageOrder(p3, 1, p2[2]);
    MessageOrder(p2, 3, p3[3]);
    LtTransitive(p1[1], p2[2], p3[3]);
    MessageOrder(p1, 1, p3[3]);
  }
}

/** The event log of one process (`OrdProcess` over `HasEvents`), with vector
    clocks as its events: an append-only history to which each local step,
    send and receive adds exactly one clock value. */
module OrdProcesses {
  import opened Order
  import opened VectorClocks

  /** Program order along a history: every event is `<` the next one. */
  predicate ProgramOrdered(h: seq<VectorClock>) {
    forall k :: 0 < k < |h| ==> Lt(h[k - 1], h[k])
  }

  /** Along a program-ordered history, every earlier event is `<` every later
      one. */
  lemma {:induction false} HistoryIncreasing(h: seq<VectorClock>, k: nat, l: nat)
    requires ProgramOrdered(h) && k < l < |h|
    ensures Lt(h[k], h[l])
    decreases l - k
  {
    if k + 1 < l {
      HistoryIncreasing(h, k, l - 1);
      LtTransitive(h[k], h[l - 1], h[l]);
    }
  }

  /** Send/receive order, transitively: when the event at index `s` of a
      program-ordered history is `<` some clock `r` (as a sent value is `<`
      the receiver's clock after `recv`), every event up to and including
      index `s` is `<` that clock. */
  lemma MessageOrder(h: seq<VectorClock>, s: nat, r: VectorClock)
    requires ProgramOrdered(h) && s < |h| && Lt(h[s], r)
    ensures forall k :: 0 <= k <= s ==> Lt(h[k], r)
  {
    forall k | 0 <= k < s ensures Lt(h[k], r) {
      HistoryIncreasing(h, k, s);
      LtTransitive(h[k], h[s], r);
    }
  }

  /** A process of a cluster: its identity `(pid, nProcs)` is fixed, and its
      history of clock values only ever grows at the end. */
  class VectorProcess {
    const pid: nat
    const nProcs: nat
    var events: seq<VectorClock>

    /** Every recorded event belongs to this process and has one counter per
        process, and the history is in program order. */
    ghost predicate Valid()
      reads this
    {
      && (forall k :: 0 <= k < |events| ==> events[k].i == pid && |events[k].clk| == nProcs)
      && (events != [] ==> pid < nProcs)
      && ProgramOrdered(events)
    }

    /** A process with an empty history. */
    constructor (pid: nat, nProcs: nat)
      ensures Valid()
      ensures this.pid == pid && this.nProcs == nProcs && events == []
    {
      this.pid := pid;
      this.nProcs := nProcs;
      events := [];
    }

    /** `last_event`: the most recent event, if there is one. */
    function LastEvent(): (r: Option<VectorClock>)
      reads this
      ensures r == None <==> events == []
      ensures r.Some? ==> r.value == events[|events| - 1]
    {
      if events == [] then None else Some(events[|events| - 1])
    }

    /** The clock a new event is computed from: the last event, or a fresh
        genesis clock while the history is empty. The source evaluates the
        genesis clock in either case, so it needs `pid < nProcs` even when the
        history is not empty. Every recorded event is `<` the base clock or is
        the base clock itself. */
    function Base(): (r: VectorClock)
      reads this
      requires Valid() && pid < nProcs
      ensures r.WellFormed() && r.i == pid && |r.clk| == nProcs
      ensures events == [] ==> r == New(pid, nProcs)
      ensures forall k :: 0 <= k < |events| - 1 ==> Lt(events[k], r)
      ensures events != [] ==> r == events[|events| - 1]
    {
      var genesis := New(pid, nProcs);
      if events == [] then genesis
      else
        HistoryBelowLast(events);
        LastEvent().UnwrapOr(genesis)
    }

    /** `exec`: records `extend` of the base clock as one new event; the
        history before it is untouched. The work the caller passes is left to
        the caller. */
    method Exec()
      requires Valid() && pid < nProcs
      modifies this
      ensures Valid()
      ensures events == old(events) + [Extend(old(Base()))]
      ensures Lt(old(Base()), events[|events| - 1])
    {
      var e := Extend(Base());
      ExtendStrictlyGrows(Base());
      events := events + [e];
    }

    /** `send`: records `extend` of the base clock as one new event and
        returns it: the value handed to the channel is exactly the recorded
        one. */
    method Send() returns (e: VectorClock)
      requires Valid() && pid < nProcs
      modifies this
      ensures Valid()
      ensures events == old(events) + [Extend(old(Base()))]
      ensures e == events[|events| - 1]
      ensures Lt(old(Base()), e)
    {
      e := Extend(Base());
      ExtendStrictlyGrows(Base());
      events := events + [e];
    }

    /** `recv`: records `merge` of the base clock with the received clock `m`
        as one new event; the new event follows both. Merging panics unless
        `m` has one counter per process of the cluster. */
    method Recv(m: VectorClock)
      requires Valid() && pid < nProcs && |m.clk| == nProcs
      modifies this
      ensures Valid()
      ensures events == old(events) + [Merged(old(Base()), m)]
      ensures Lt(old(Base()), events[|events| - 1])
      ensures Lt(m, events[|events| - 1])
    {
      var base := Base();
      var e := Merge(base, m);
      MergeStrictlyGrows(base, m);
      events := events + [e];
    }
  }

  /** Every event of a non-empty program-ordered history but the last is `<`
      the last. */
  lemma HistoryBelowLast(h: seq<VectorClock>)
    requires ProgramOrdered(h) && h != []
    ensures forall k :: 0 <= k < |h| - 1 ==> Lt(h[k], h[|h| - 1])
  {
    forall k | 0 <= k < |h| - 1 ensures Lt(h[k], h[|h| - 1]) {
      HistoryIncreasing(h, k, |h| - 1);
    }
  }
}

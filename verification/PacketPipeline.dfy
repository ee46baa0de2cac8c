/**
 * The sniffer and the analyzer threads over their shared packet queue, as a state machine.
 *
 * The queue is the blocking one: `pull` waits for a packet, `try_pull` does not.  The sniffer
 * pushes the packets that its handler accepts, and sets a flag when it ends.
 */
module PacketPipeline {
  import opened Connections
  import opened DataStores
  import opened ConnectionTracker

  /** Where the analyzer stands in its two nested loops. */
  datatype Pc =
    | AtGuard                 // while (!done || !one_more_time)
    | AtPull                  // blocked in pull()
    | AtTryPull               // try_pull() of the drain pass
    | Holding(p: Packet)      // a packet was taken and is to be analyzed
    | AtFlip                  // the inner loop has ended
    | AtOuterGuard            // while (!done && !one_more_time)
    | Exited
    | Crashed                 // "IPv6 packet analysis not yet implemented"

  datatype State = State(captured: seq<Packet>, queue: seq<Packet>, processed: seq<Packet>,
                         done: bool, oneMoreTime: bool, pc: Pc, store: StoreState)

  predicate Accepted(p: Packet) {
    p.ipv4 && p.tcp
  }

  function Accept(packets: seq<Packet>): seq<Packet> {
    if |packets| == 0 then []
    else Accept(packets[..|packets| - 1])
         + (if Accepted(packets[|packets| - 1]) then [packets[|packets| - 1]] else [])
  }

  predicate Init(s: State) {
    s.captured == [] && s.queue == [] && s.processed == [] && !s.done && s.oneMoreTime && s.pc == AtGuard
    && EmptyStore(s.store)
  }

  // The sniffer thread.

  predicate Capture(s: State, s': State, p: Packet) {
    !s.done && s' == s.(captured := s.captured + [p], queue := if Accepted(p) then s.queue + [p] else s.queue)
  }

  predicate Finish(s: State, s': State) {
    !s.done && s' == s.(done := true)
  }

  // The analyzer thread.

  predicate Analyzer(server: Endpoint, s: State, s': State) {
    match s.pc
    case AtGuard =>
      s' == s.(pc := if !s.done || !s.oneMoreTime then (if s.oneMoreTime then AtPull else AtTryPull) else AtFlip)
    case AtPull =>
      |s.queue| > 0 && s' == s.(pc := Holding(s.queue[0]), queue := s.queue[1..])
    case AtTryPull =>
      if |s.queue| > 0 then s' == s.(pc := Holding(s.queue[0]), queue := s.queue[1..])
      else s' == s.(pc := AtFlip)
    case Holding(p) =>
      if p.ipv4 then
        s' == s.(pc := AtGuard, processed := s.processed + [p], store := AnalyzeStep(server, s.store, p))
      else s' == s.(pc := Crashed)
    case AtFlip => s' == s.(pc := AtOuterGuard, oneMoreTime := !s.oneMoreTime)
    case AtOuterGuard => s' == s.(pc := if !s.done && !s.oneMoreTime then AtGuard else Exited)
    case Exited => false
    case Crashed => false
  }

  ghost predicate PipelineStep(server: Endpoint, s: State, s': State) {
    (exists p :: Capture(s, s', p)) || Finish(s, s') || Analyzer(server, s, s')
  }

  ghost predicate Run(server: Endpoint, run: seq<State>) {
    && |run| > 0 && Init(run[0])
    && forall i :: 0 <= i < |run| - 1 ==> PipelineStep(server, run[i], run[i + 1])
  }

  function InHand(s: State): seq<Packet> {
    if s.pc.Holding? then [s.pc.p] else []
  }

  /**
   * Nothing is lost, invented or reordered; the drain pass and the exception are unreachable;
   * the analyzer leaves its loops only after the sniffer has ended.
   */
  ghost predicate Inv(server: Endpoint, store0: StoreState, s: State) {
    && s.processed + InHand(s) + s.queue == Accept(s.captured)
    && s.store == AnalyzeRun(server, store0, s.processed)
    && !s.pc.Crashed? && !s.pc.AtTryPull?
    && (s.pc in {AtOuterGuard, Exited} ==> s.done && !s.oneMoreTime)
    && (s.pc == AtFlip ==> s.done)
    && (s.pc !in {AtOuterGuard, Exited} ==> s.oneMoreTime)
  }

  lemma AcceptSnoc(packets: seq<Packet>, p: Packet)
    ensures Accept(packets + [p]) == Accept(packets) + (if Accepted(p) then [p] else [])
  {
    assert (packets + [p])[..|packets|] == packets;
  }

  lemma AnalyzeSnoc(server: Endpoint, s: StoreState, packets: seq<Packet>, p: Packet)
    ensures AnalyzeRun(server, s, packets + [p]) == AnalyzeStep(server, AnalyzeRun(server, s, packets), p)
  {
    assert (packets + [p])[..|packets|] == packets;
  }

  /** The handler lets through exactly the TCP packets over IPv4, each as often as it was captured. */
  lemma {:induction false} AcceptOnlyAccepted(packets: seq<Packet>, p: Packet)
    ensures multiset(Accept(packets))[p] == if p.ipv4 && p.tcp then multiset(packets)[p] else 0
  {
    if |packets| > 0 {
      var n := |packets| - 1;
      AcceptOnlyAccepted(packets[..n], p);
      assert packets == packets[..n] + [packets[n]];
    }
  }

  lemma AcceptedHolds(packets: seq<Packet>, p: Packet)
    requires p in Accept(packets)
    ensures p.ipv4
  {
    AcceptOnlyAccepted(packets, p);
    assert p in multiset(Accept(packets));
  }

  /** And in the order of capture. */
  lemma {:induction false} AcceptConcat(packets: seq<Packet>, more: seq<Packet>)
    ensures Accept(packets + more) == Accept(packets) + Accept(more)
  {
    if |more| == 0 {
      assert packets + more == packets;
    } else {
      var n := |more| - 1;
      assert packets + more == packets + more[..n] + [more[n]];
      AcceptConcat(packets, more[..n]);
      AcceptSnoc(packets + more[..n], more[n]);
    }
  }

  lemma CaptureKeepsInv(server: Endpoint, store0: StoreState, s: State, s': State, p: Packet)
    requires Inv(server, store0, s) && Capture(s, s', p)
    ensures Inv(server, store0, s')
  {
    AcceptSnoc(s.captured, p);
    if Accepted(p) {
      assert s.processed + InHand(s) + s.queue + [p] == s'.processed + InHand(s') + s'.queue;
    }
  }

  lemma AnalyzerKeepsInv(server: Endpoint, store0: StoreState, s: State, s': State)
    requires Inv(server, store0, s) && Analyzer(server, s, s')
    ensures Inv(server, store0, s')
  {
    hide Accept, AnalyzeRun, AnalyzeStep, Accepted;
    var all := s.processed + InHand(s) + s.queue;
    match s.pc {
      case AtPull =>
        assert all == s'.processed + InHand(s') + s'.queue;
      case Holding(p) =>
        assert all[|s.processed|] == p;
        AcceptedHolds(s.captured, p);
        AnalyzeSnoc(server, store0, s.processed, p);
        assert all == s'.processed + InHand(s') + s'.queue;
      case _ =>
    }
  }

  lemma StepKeepsInv(server: Endpoint, store0: StoreState, s: State, s': State)
    requires Inv(server, store0, s) && PipelineStep(server, s, s')
    ensures Inv(server, store0, s')
  {
    if p :| Capture(s, s', p) {
      CaptureKeepsInv(server, store0, s, s', p);
    } else if Analyzer(server, s, s') {
      AnalyzerKeepsInv(server, store0, s, s');
    }
  }

  lemma {:induction false} RunKeepsInv(server: Endpoint, run: seq<State>, i: nat)
    requires Run(server, run) && i < |run|
    ensures Inv(server, run[0].store, run[i])
  {
    if i > 0 {
      RunKeepsInv(server, run, i - 1);
      assert run[i - 1 + 1] == run[i];
      StepKeepsInv(server, run[0].store, run[i - 1], run[i]);
    }
  }

  /**
   * At every moment of every interleaving, a client's stored status is the verdict on its own
   * packets within a prefix of the accepted captures.
   */
  lemma StatusReflectsPrefix(server: Endpoint, run: seq<State>, i: nat, client: Endpoint)
    requires Run(server, run) && i < |run|
    ensures var s := run[i];
            && s.processed <= Accept(s.captured)
            && LoadFrom(s.store, Key(server, client)) == Verdict(OwnSignals(server, client, s.processed))
  {
    RunKeepsInv(server, run, i);
    var s := run[i];
    assert s.processed + InHand(s) + s.queue == s.processed + (InHand(s) + s.queue);
    StatusIsOwnVerdict(server, run[0].store, s.processed, client);
  }

  // ---------------------------------------------------------------- after the sniffer has ended

  /**
   * What the sniffer leaves unprocessed when it ends: all that is queued then, but for one packet
   * if the analyzer is already waiting for one.
   */
  function Rest(s: State): seq<Packet> {
    if s.pc == AtPull && |s.queue| > 0 then s.queue[1..] else s.queue
  }

  /** How many steps the analyzer can still take once the sniffer has ended. */
  function StepsLeft(pc: Pc): nat {
    match pc
    case AtPull => 5
    case Holding(_) => 4
    case AtGuard => 3
    case AtTryPull => 5
    case AtFlip => 2
    case AtOuterGuard => 1
    case Exited => 0
    case Crashed => 0
  }

  lemma StepAfterDone(server: Endpoint, store0: StoreState, s: State, s': State)
    requires Inv(server, store0, s) && s.done && PipelineStep(server, s, s')
    ensures s'.done && s'.captured == s.captured && Rest(s') == Rest(s)
    ensures StepsLeft(s'.pc) < StepsLeft(s.pc)
    ensures !(s.pc == AtPull && s.queue == [])
  {
    hide Accept, AnalyzeRun, AnalyzeStep;
    assert Analyzer(server, s, s');
  }

  /** From then on what is left is settled, and there are at most five steps to go. */
  lemma {:induction false} RunAfterDone(server: Endpoint, run: seq<State>, i: nat, j: nat)
    requires Run(server, run) && i <= j < |run| && run[i].done
    ensures run[j].done && run[j].captured == run[i].captured && Rest(run[j]) == Rest(run[i])
    ensures StepsLeft(run[j].pc) + (j - i) <= StepsLeft(run[i].pc)
  {
    hide Inv, PipelineStep, Rest, StepsLeft;
    if i < j {
      RunAfterDone(server, run, i, j - 1);
      RunKeepsInv(server, run, j - 1);
      assert run[j - 1 + 1] == run[j];
      StepAfterDone(server, run[0].store, run[j - 1], run[j]);
    }
  }

  /** When the analyzer exits, what it has not processed is what is queued. */
  lemma ExitLeavesQueue(server: Endpoint, run: seq<State>, i: nat)
    requires Run(server, run) && i < |run| && run[i].pc == Exited
    ensures run[i].done
    ensures run[i].processed == Accept(run[i].captured) <==> run[i].queue == []
  {
    RunKeepsInv(server, run, i);
    var s := run[i];
    assert s.processed + InHand(s) + s.queue == s.processed + s.queue;
    assert |s.processed + s.queue| == |s.processed| + |s.queue|;
  }

  /**
   * The moment the sniffer ends decides: the analyzer then exits within five steps, with exactly
   * the rest in the queue.  All accepted packets are processed if and only if there is no rest.
   */
  lemma RestIsLeft(server: Endpoint, run: seq<State>, i: nat, j: nat)
    requires Run(server, run) && i <= j < |run| && run[i].done && run[j].pc == Exited
    ensures run[j].queue == Rest(run[i]) && j - i <= 5
    ensures run[j].processed == Accept(run[j].captured) <==> Rest(run[i]) == []
  {
    RunAfterDone(server, run, i, j);
    ExitLeavesQueue(server, run, j);
  }

  /** Unless it waits on an empty queue: then neither thread takes another step. */
  lemma WaitsForGood(server: Endpoint, run: seq<State>, i: nat)
    requires Run(server, run) && i < |run| && run[i].done && run[i].pc == AtPull && run[i].queue == []
    ensures i == |run| - 1
  {
    RunKeepsInv(server, run, i);
    if i < |run| - 1 {
      StepAfterDone(server, run[0].store, run[i], run[i + 1]);
    }
  }

  /** The drain pass cannot be relied upon: a run ends with an accepted packet left in the queue. */
  lemma PacketsCanBeLeft(server: Endpoint, store0: StoreState, p: Packet)
    requires EmptyStore(store0) && Accepted(p)
    ensures exists run: seq<State> :: Run(server, run) && run[|run| - 1].pc == Exited && run[|run| - 1].queue == [p]
  {
    var s0 := State([], [], [], false, true, AtGuard, store0);
    var s1 := s0.(captured := [p], queue := [p]);
    var s2 := s1.(done := true);
    var s3 := s2.(pc := AtFlip);
    var s4 := s3.(pc := AtOuterGuard, oneMoreTime := false);
    var s5 := s4.(pc := Exited);
    assert s0.captured + [p] == [p] && s0.queue + [p] == [p];
    assert Capture(s0, s1, p);
    assert PipelineStep(server, s0, s1);
    assert Finish(s1, s2) && PipelineStep(server, s1, s2);
    assert Analyzer(server, s2, s3) && PipelineStep(server, s2, s3);
    assert Analyzer(server, s3, s4) && PipelineStep(server, s3, s4);
    assert Analyzer(server, s4, s5) && PipelineStep(server, s4, s5);
    var run := [s0, s1, s2, s3, s4, s5];
    assert Run(server, run);
    assert run[|run| - 1] == s5;
  }

  ghost predicate Stuck(server: Endpoint, s: State) {
    forall s' :: !PipelineStep(server, s, s')
  }

  /** Exactly when a run can go no further: the analyzer has exited, or it waits for a packet that will not come. */
  lemma StuckIff(server: Endpoint, run: seq<State>, i: nat)
    requires Run(server, run) && i < |run|
    ensures Stuck(server, run[i])
            <==> run[i].done && (run[i].pc == Exited || (run[i].pc == AtPull && run[i].queue == []))
  {
    RunKeepsInv(server, run, i);
    var s := run[i];
    if !s.done {
      assert Finish(s, s.(done := true));
      assert PipelineStep(server, s, s.(done := true));
    } else {
      forall s' | PipelineStep(server, s, s')
        ensures Analyzer(server, s, s')
      {
      }
      if s.pc != Exited && !(s.pc == AtPull && s.queue == []) {
        var s' := AnalyzerMove(server, s);
        assert PipelineStep(server, s, s');
      }
    }
  }

  lemma AnalyzerMove(server: Endpoint, s: State) returns (s': State)
    requires s.pc != Exited && s.pc != Crashed && !(s.pc == AtPull && s.queue == [])
    ensures Analyzer(server, s, s')
  {
    match s.pc {
      case AtGuard =>
        s' := s.(pc := if !s.done || !s.oneMoreTime then (if s.oneMoreTime then AtPull else AtTryPull) else AtFlip);
      case AtPull => s' := s.(pc := Holding(s.queue[0]), queue := s.queue[1..]);
      case AtTryPull =>
        s' := if |s.queue| > 0 then s.(pc := Holding(s.queue[0]), queue := s.queue[1..]) else s.(pc := AtFlip);
      case Holding(p) =>
        s' := if p.ipv4 then s.(pc := AtGuard, processed := s.processed + [p], store := AnalyzeStep(server, s.store, p))
              else s.(pc := Crashed);
      case AtFlip => s' := s.(pc := AtOuterGuard, oneMoreTime := !s.oneMoreTime);
      case AtOuterGuard => s' := s.(pc := if !s.done && !s.oneMoreTime then AtGuard else Exited);
    }
  }

  /** Such a wait is reachable: the sniffer may end while the analyzer is blocked on an empty queue. */
  lemma AnalyzerCanHang(server: Endpoint, store0: StoreState)
    requires EmptyStore(store0)
    ensures exists run: seq<State> :: Run(server, run) && run[|run| - 1].pc == AtPull
                                        && Stuck(server, run[|run| - 1])
  {
    var s0 := State([], [], [], false, true, AtGuard, store0);
    var s1 := s0.(pc := AtPull);
    var s2 := s1.(done := true);
    assert Analyzer(server, s0, s1) && PipelineStep(server, s0, s1);
    assert Finish(s1, s2) && PipelineStep(server, s1, s2);
    var run := [s0, s1, s2];
    assert Run(server, run);
    StuckIff(server, run, 2);
    assert run[|run| - 1] == s2;
  }
}

/** Sequences of invocations of one attached entry point against a fixed
    device map: the counter bank is threaded from one packet to the next. */
module Runs {
  import opened Classifier
  import opened Counters
  import opened RedirectTable
  import opened Dispatcher

  /** Which of the two programs the controller attached. */
  datatype Strategy = ByMap | NoMap

  /** One received frame and whether the kernel accepted its redirect. */
  datatype Event = Event(pkt: Packet, ok: bool)

  function IngressEntry(s: Strategy, pkt: Packet, m: DevMap, c: CounterBank, ok: bool): Outcome
  {
    match s
    case ByMap => IngressByMap(pkt, m, c, ok)
    case NoMap => IngressNoMap(pkt, m, c, ok)
  }

  function EgressEntry(s: Strategy, m: DevMap, c: CounterBank, ok: bool): Outcome
  {
    match s
    case ByMap => EgressByMap(m, c, ok)
    case NoMap => EgressNoMap(m, c, ok)
  }

  /** The counter bank after the ingress program has seen `events` in order. */
  function RunIngress(s: Strategy, m: DevMap, c: CounterBank, events: seq<Event>): CounterBank
    decreases |events|
  {
    if events == [] then c
    else RunIngress(s, m, IngressEntry(s, events[0].pkt, m, c, events[0].ok).counters, events[1..])
  }

  /** The counter bank after the egress program has seen one frame per entry of `oks`. */
  function RunEgress(s: Strategy, m: DevMap, c: CounterBank, oks: seq<bool>): CounterBank
    decreases |oks|
  {
    if oks == [] then c
    else RunEgress(s, m, EgressEntry(s, m, c, oks[0]).counters, oks[1..])
  }

  /** How many of the frames are test replies. */
  function Matching(events: seq<Event>): nat
    decreases |events|
  {
    if events == [] then 0
    else (if IsTestPktReply(events[0].pkt) then 1 else 0) + Matching(events[1..])
  }

  /** Whether the ingress program redirects this frame. */
  predicate RedirectedEvent(m: DevMap, e: Event)
  {
    IsTestPktReply(e.pkt) && e.ok && Lookup(m, TargetKey(Ingress)).Some?
  }

  /** How many of the frames the ingress program redirects. */
  function Redirected(m: DevMap, events: seq<Event>): nat
    decreases |events|
  {
    if events == [] then 0
    else (if RedirectedEvent(m, events[0]) then 1 else 0) + Redirected(m, events[1..])
  }

  /** How many redirect attempts the kernel accepts. */
  function Accepted(oks: seq<bool>): nat
    decreases |oks|
  {
    if oks == [] then 0 else (if oks[0] then 1 else 0) + Accepted(oks[1..])
  }

  /** After a run of the ingress program INGRESS_MATCH has grown by the number
      of test replies, INGRESS_REDIRECT_SUCCESS by the number of redirected
      frames, and EGRESS_REDIRECT_SUCCESS not at all. */
  lemma {:induction false} RunIngressCounts(s: Strategy, m: DevMap, c: CounterBank, events: seq<Event>)
    ensures Grew(c, RunIngress(s, m, c, events), Matching(events), Redirected(m, events), 0)
    decreases |events|
  {
    if events != [] {
      var o := IngressEntry(s, events[0].pkt, m, c, events[0].ok);
      assert o.verdict.Redirect? <==> RedirectedEvent(m, events[0]);
      RunIngressCounts(s, m, o.counters, events[1..]);
    }
  }

  /** Counting from attachment, where every counter is zero, the counters
      after any ingress run are exactly the number of test replies and the
      number of redirected frames. */
  lemma RunIngressFromZero(s: Strategy, m: DevMap, events: seq<Event>)
    ensures Get(RunIngress(s, m, Zero, events), IngressMatch) == Matching(events)
    ensures Get(RunIngress(s, m, Zero, events), IngressRedirectSuccess) == Redirected(m, events)
    ensures Get(RunIngress(s, m, Zero, events), EgressRedirectSuccess) == 0
  {
    RunIngressCounts(s, m, Zero, events);
  }

  /** INGRESS_REDIRECT_SUCCESS never runs ahead of INGRESS_MATCH's growth, and
      keeps pace with it exactly when every test reply was redirected. */
  lemma {:induction false} RedirectedAtMostMatching(m: DevMap, events: seq<Event>)
    ensures Redirected(m, events) <= Matching(events)
    ensures Redirected(m, events) == Matching(events) <==>
      forall i :: 0 <= i < |events| && IsTestPktReply(events[i].pkt) ==> RedirectedEvent(m, events[i])
    decreases |events|
  {
    if events != [] {
      RedirectedAtMostMatching(m, events[1..]);
      var rest := events[1..];
      if forall i :: 0 <= i < |events| && IsTestPktReply(events[i].pkt) ==> RedirectedEvent(m, events[i]) {
        forall i | 0 <= i < |rest| && IsTestPktReply(rest[i].pkt)
          ensures RedirectedEvent(m, rest[i])
        {
          assert rest[i] == events[i + 1];
        }
      } else {
        var j :| 0 <= j < |events| && IsTestPktReply(events[j].pkt) && !RedirectedEvent(m, events[j]);
        if j > 0 {
          assert rest[j - 1] == events[j];
        }
      }
    }
  }

  /** After a run of the egress program only EGRESS_REDIRECT_SUCCESS has grown,
      by the number of accepted redirects, and by nothing while the EGRESS
      entry is missing. */
  lemma {:induction false} RunEgressCounts(s: Strategy, m: DevMap, c: CounterBank, oks: seq<bool>)
    ensures Grew(c, RunEgress(s, m, c, oks), 0, 0,
                 if Lookup(m, TargetKey(Egress)).Some? then Accepted(oks) else 0)
    decreases |oks|
  {
    if oks != [] {
      var c1 := EgressEntry(s, m, c, oks[0]).counters;
      RunEgressCounts(s, m, c1, oks[1..]);
    }
  }

  /** The two strategies leave the same counters after any run. */
  lemma {:induction false} RunIngressStrategiesAgree(m: DevMap, c: CounterBank, events: seq<Event>)
    ensures RunIngress(ByMap, m, c, events) == RunIngress(NoMap, m, c, events)
    decreases |events|
  {
    if events != [] {
      IngressStrategiesAgree(events[0].pkt, m, c, events[0].ok);
      RunIngressStrategiesAgree(m, IngressEntry(ByMap, events[0].pkt, m, c, events[0].ok).counters, events[1..]);
    }
  }
}

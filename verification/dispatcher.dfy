/** The four XDP entry points of bpf/redirect.c. Each is one sequential
    state transition: it reads the device map (and, on ingress only, the
    frame), and returns a verdict and the counter bank after the
    invocation. The egress programs never read their frame.

    The BPF redirect helpers are kernel code: whether the redirect they
    request is accepted is the oracle `ok`, supplied by the caller. */
module Dispatcher {
  import opened Optional
  import opened Classifier
  import opened Counters
  import opened RedirectTable

  /** The XDP action returned: pass the frame up the stack, or redirect it
      to the interface with index `ifindex`. */
  datatype Verdict = Pass | Redirect(ifindex: nat)

  const XdpPass: nat := 2
  const XdpRedirect: nat := 4

  /** The numeric XDP action the program returns for a verdict. */
  function Action(v: Verdict): (a: nat)
    ensures a == XdpPass <==> v.Pass?
    ensures a == XdpRedirect <==> v.Redirect?
  {
    match v
    case Pass => XdpPass
    case Redirect(_) => XdpRedirect
  }

  datatype Outcome = Outcome(verdict: Verdict, counters: CounterBank)

  /** bpf_redirect_map(&redirects, key, XDP_PASS): the helper looks the key up
      itself and falls back to the XDP_PASS given as flags when it cannot
      redirect. */
  function RedirectMap(m: DevMap, key: nat, ok: bool): (v: Verdict)
    ensures v.Redirect? <==> ok && key < RedirectsMaxEntries && key in m
    ensures v.Redirect? ==> v.ifindex == m[key]
  {
    match Lookup(m, key)
    case None => Pass
    case Some(ifindex) => if ok then Redirect(ifindex) else Pass
  }

  /** bpf_redirect(ifindex, 0). */
  function RedirectTo(ifindex: nat, ok: bool): (v: Verdict)
    ensures v.Redirect? <==> ok
    ensures v.Redirect? ==> v.ifindex == ifindex
  {
    if ok then Redirect(ifindex) else Pass
  }

  /** Counts a successful redirect under `success`, as every entry point does
      after its redirect helper returns. */
  function Finish(v: Verdict, c: CounterBank, success: CounterKey): (o: Outcome)
    ensures o.verdict == v
    ensures Grew(c, o.counters,
                 if v.Redirect? && success == IngressMatch then 1 else 0,
                 if v.Redirect? && success == IngressRedirectSuccess then 1 else 0,
                 if v.Redirect? && success == EgressRedirectSuccess then 1 else 0)
  {
    if v.Redirect? then Outcome(v, Count(c, KeyIndex(success))) else Outcome(v, c)
  }

  /** egress_by_map: redirect every frame to the EGRESS device map entry. */
  function EgressByMap(m: DevMap, c: CounterBank, ok: bool): (o: Outcome)
    ensures o.verdict.Redirect? <==> ok && Lookup(m, TargetKey(Egress)).Some?
    ensures o.verdict.Redirect? ==> o.verdict.ifindex == m[TargetKey(Egress)]
    ensures Grew(c, o.counters, 0, 0, if o.verdict.Redirect? then 1 else 0)
  {
    var verdict := RedirectMap(m, TargetKey(Egress), ok);
    Finish(verdict, c, EgressRedirectSuccess)
  }

  /** egress_no_map: look the EGRESS entry up, pass when it is missing,
      otherwise redirect to its interface. */
  function EgressNoMap(m: DevMap, c: CounterBank, ok: bool): (o: Outcome)
    ensures Lookup(m, TargetKey(Egress)).None? ==> o == Outcome(Pass, c)
    ensures o.verdict.Redirect? <==> ok && Lookup(m, TargetKey(Egress)).Some?
    ensures o.verdict.Redirect? ==> o.verdict.ifindex == m[TargetKey(Egress)]
    ensures Grew(c, o.counters, 0, 0, if o.verdict.Redirect? then 1 else 0)
  {
    match Lookup(m, TargetKey(Egress))
    case None => Outcome(Pass, c)
    case Some(ifindex) =>
      var verdict := RedirectTo(ifindex, ok);
      Finish(verdict, c, EgressRedirectSuccess)
  }

  /** ingress_by_map: pass non-test frames untouched; count a match, then
      redirect to the INGRESS device map entry. */
  function IngressByMap(pkt: Packet, m: DevMap, c: CounterBank, ok: bool): (o: Outcome)
    ensures !IsTestPktReply(pkt) ==> o == Outcome(Pass, c)
    ensures o.verdict.Redirect? <==> IsTestPktReply(pkt) && ok && Lookup(m, TargetKey(Ingress)).Some?
    ensures o.verdict.Redirect? ==> o.verdict.ifindex == m[TargetKey(Ingress)]
    ensures IsTestPktReply(pkt) ==> Grew(c, o.counters, 1, if o.verdict.Redirect? then 1 else 0, 0)
  {
    if !IsTestPktReply(pkt) then
      Outcome(Pass, c)
    else
      var matched := Count(c, KeyIndex(IngressMatch));
      var verdict := RedirectMap(m, TargetKey(Ingress), ok);
      Finish(verdict, matched, IngressRedirectSuccess)
  }

  /** ingress_no_map: pass non-test frames untouched; count a match, look the
      INGRESS entry up, pass when it is missing, otherwise redirect to it. */
  function IngressNoMap(pkt: Packet, m: DevMap, c: CounterBank, ok: bool): (o: Outcome)
    ensures !IsTestPktReply(pkt) ==> o == Outcome(Pass, c)
    ensures o.verdict.Redirect? <==> IsTestPktReply(pkt) && ok && Lookup(m, TargetKey(Ingress)).Some?
    ensures o.verdict.Redirect? ==> o.verdict.ifindex == m[TargetKey(Ingress)]
    ensures IsTestPktReply(pkt) ==> Grew(c, o.counters, 1, if o.verdict.Redirect? then 1 else 0, 0)
  {
    if !IsTestPktReply(pkt) then
      Outcome(Pass, c)
    else
      var matched := Count(c, KeyIndex(IngressMatch));
      match Lookup(m, TargetKey(Ingress))
      case None => Outcome(Pass, matched)
      case Some(ifindex) =>
        var verdict := RedirectTo(ifindex, ok);
        Finish(verdict, matched, IngressRedirectSuccess)
  }

  /** The two egress strategies give the same verdict and counters. */
  lemma EgressStrategiesAgree(m: DevMap, c: CounterBank, ok: bool)
    ensures EgressByMap(m, c, ok) == EgressNoMap(m, c, ok)
  {
  }

  /** The two ingress strategies give the same verdict and counters. */
  lemma IngressStrategiesAgree(pkt: Packet, m: DevMap, c: CounterBank, ok: bool)
    ensures IngressByMap(pkt, m, c, ok) == IngressNoMap(pkt, m, c, ok)
  {
  }
}

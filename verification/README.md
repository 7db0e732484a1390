# XDP test-reply redirector, modelled in Dafny

This project models the XDP programs in `bpf/redirect.c`. They were written to reproduce a NIC driver
redirect problem. The model covers four parts:

- **Packet classifier** (`is_test_pkt_reply`). It decides whether a received frame is a reply to one of
  the synthetic UDP/TCP test packets. Those packets are sent from local ports 32700..32767.
- **Device map** (`redirects`). It has two slots, keyed by `enum redirect_target`, and each slot holds
  an interface index.
- **Counter bank** (`counters`) and the `count` helper. The bank is an array map of three counters,
  keyed by `enum counter_key`.
- **Four entry points**: `egress_by_map`, `egress_no_map`, `ingress_by_map` and `ingress_no_map`.

Each entry point is modelled as a pure state transition. It takes the device map, the counter bank
and an oracle `ok`. The ingress entry points also take the frame. The egress ones do not, because the
source marks their `ctx` argument unused (`bpf/redirect.c:80` and `:90`). It returns a verdict (`Pass` or `Redirect(ifindex)`) and the new
counter bank. The oracle `ok` says whether the kernel accepts the requested redirect.

Modules:

- `Bytes`: a byte newtype, big-endian 16-bit fields and nibble packing.
- `Classifier`: the classifier reads the frame at fixed offsets. Alongside it is a header view
  `Headers`, which has every field of `struct ethhdr`, `struct iphdr` (section 3.1 of RFC 791) and the
  port stub shared by UDP (RFC 768) and TCP (section 3.1 of RFC 793). `Build` encodes the 38-byte
  prefix and `Parse` decodes it. They are proved to be inverses in both directions. As a result, the
  header-level predicate `Accepts` describes the classifier on every frame.
- `Counters`, `RedirectTable` and `Dispatcher`: the maps and the entry points.
- `Runs`: an attached program applied to a sequence of frames.
- `Scenarios`: concrete device maps and frames.

Frames are `seq<byte>`, so the classifier cannot read past the end of a frame. Every byte accessor
requires the full 38-byte prefix, and the classifier checks the frame's length first.

Notes on how the model reads the source:

- The comment at `bpf/redirect.c:48-53` says the test packets are sent *from* local ports
  32700..32767. Their replies therefore carry that range as the *destination* port, and that is what
  lines 74-75 test and what `Classifier.IsTestPktReply` models.
- Line 66 checks the EtherType and `ihl`, but the code never checks the IPv4 version nibble.
  `ihl` is the low nibble of the first IPv4 byte on the wire (section 3.1 of RFC 791). `struct
  iphdr` declares its two 4-bit fields in an order chosen per byte order, so `ip->ihl` reads that
  nibble on both little- and big-endian targets, as `Classifier.IpIhl` does.
  `Classifier.IgnoredFields` shows that the nibble does not change the answer.
- `RedirectTable.Lookup` is a pure function of the map, so two lookups of one key in one map agree.
- Every entry point counts with the intended `Counters.Count`, not with the 32-bit add the code
  performs at lines 37-39. See "## Findings" and the dispatcher lines under "## Left out".

## Model

| member | source | states |
|---|---|---|
| Bytes.Be16 | bpf/redirect.c:74 | a big-endian 16-bit field is below 2^16 and its high and low bytes are the two wire bytes |
| Classifier.IsTestPktReply | bpf/redirect.c:55-76 | false for every frame shorter than 38 bytes; true only if the EtherType is 0x0800, ihl is 5, the protocol is TCP or UDP and the destination port is in [32700, 32767] |
| Classifier.Parse | bpf/redirect.c:43-61 | a frame has headers exactly when it holds the 38-byte prefix, and decoded headers fit their wire widths |
| Classifier.ParseBuild | bpf/redirect.c:59-61 | decoding the encoding of any headers, followed by any payload, gives back the headers |
| Classifier.BuildParse | bpf/redirect.c:59-65 | every frame of at least 38 bytes is the encoding of its decoded headers followed by the rest of the frame |
| Classifier.ClassifyBuilt | bpf/redirect.c:66-75 | on an encoded frame the classifier is true exactly when the headers say IPv4, ihl 5, TCP or UDP, and destination port in [32700, 32767] |
| Classifier.ClassifierMatchesHeaders | bpf/redirect.c:55-76 | on every frame, the classifier equals the header-level predicate applied to the decoded headers, and is false when there are none |
| Classifier.TestPortBoundaries | bpf/redirect.c:48-75 | on an IPv4 TCP/UDP frame with no options, ports 32699 and 32768 are rejected and ports 32700 and 32767 are accepted |
| Classifier.IgnoredFields | bpf/redirect.c:66-75 | the source port, the IPv4 version nibble and everything after byte 38 do not change the answer |
| Classifier.NonMatchingHeadersRejected | bpf/redirect.c:66-72 | a non-IPv4 EtherType, an ihl other than 5, or a protocol other than TCP or UDP is rejected whatever the ports |
| Counters.KeyIndex | bpf/redirect.c:22-27 | each counter kind has a slot below COUNTERS_MAX_ENTRIES |
| Counters.Count | bpf/redirect.c:36-41 | a valid key's slot grows by exactly one and every other slot is unchanged; an out-of-range key changes nothing |
| Counters.AddOneToLowHalf | bpf/redirect.c:37-39 | a 32-bit add on the low half of a 64-bit counter is +1, except that a low half of 2^32-1 wraps and loses its carry |
| Counters.CountAsWritten | bpf/redirect.c:36-41 | counting through a 32-bit pointer adds one to the key's slot unless its low 32 bits are all ones, in which case the slot loses 2^32-1 instead; every other slot is unchanged, an out-of-range key changes nothing, and every counter stays within 64 bits |
| Counters.CountAsWrittenLosesCarry | bpf/redirect.c:37-39 | the as-written count takes 2^32-1 to 0, but the intended count takes it to 2^32 |
| RedirectTable.TargetKey | bpf/redirect.c:9-13 | each redirect target has a key below REDIRECTS_MAX_ENTRIES |
| RedirectTable.Lookup | bpf/redirect.c:15-20 | an entry is found exactly for a filled key below the map's capacity, and it carries the stored interface index |
| Dispatcher.Action | bpf/redirect.c:86 | the program returns XDP_PASS exactly for a pass verdict and XDP_REDIRECT exactly for a redirect |
| Dispatcher.RedirectMap | bpf/redirect.c:81 | the map-redirect helper redirects only when the key has an entry and the kernel accepts, and then to that entry's interface; otherwise it falls back to XDP_PASS |
| Dispatcher.RedirectTo | bpf/redirect.c:98 | the direct redirect helper redirects to the given interface exactly when the kernel accepts |
| Dispatcher.EgressByMap | bpf/redirect.c:79-87 | any frame is redirected exactly when the EGRESS entry exists and the kernel accepts, and then to that entry; only EGRESS_REDIRECT_SUCCESS moves, by one exactly on redirect |
| Dispatcher.EgressNoMap | bpf/redirect.c:89-104 | with no EGRESS entry the frame passes and nothing changes; otherwise it has the same verdict and counter effect as the map strategy |
| Dispatcher.IngressByMap | bpf/redirect.c:107-120 | a non-test frame passes and nothing changes; a test reply adds one to INGRESS_MATCH, adds one to INGRESS_REDIRECT_SUCCESS exactly when it is redirected to the INGRESS entry, and leaves EGRESS_REDIRECT_SUCCESS alone |
| Dispatcher.IngressNoMap | bpf/redirect.c:122-142 | the same as the map strategy, including a missing INGRESS entry: the match is counted, the frame passes and no success is counted |
| Dispatcher.Finish | bpf/redirect.c:82-84 | the helper's verdict is returned unchanged, and only the given success counter grows, by one exactly on a redirect |
| Dispatcher.EgressStrategiesAgree | bpf/redirect.c:80-103 | the two egress programs give the same verdict and counters on every input |
| Dispatcher.IngressStrategiesAgree | bpf/redirect.c:108-141 | the two ingress programs give the same verdict and counters on every input |
| Runs.RunIngressCounts | bpf/redirect.c:107-142 | after any run of frames, INGRESS_MATCH has grown by the number of test replies, INGRESS_REDIRECT_SUCCESS by the number redirected, and EGRESS_REDIRECT_SUCCESS by nothing |
| Runs.RunIngressFromZero | bpf/redirect.c:29-34 | starting from the zeroed array map, after any ingress run INGRESS_MATCH equals the number of test replies, INGRESS_REDIRECT_SUCCESS the number redirected, and EGRESS_REDIRECT_SUCCESS stays 0 |
| Runs.RedirectedAtMostMatching | bpf/redirect.c:112-119 | the redirected count never exceeds the match count, and equals it exactly when every test reply was redirected |
| Runs.RunEgressCounts | bpf/redirect.c:79-104 | after any run, only EGRESS_REDIRECT_SUCCESS has grown: by the number of accepted redirects when the EGRESS entry exists, and by zero otherwise |
| Runs.RunIngressStrategiesAgree | bpf/redirect.c:107-142 | the two ingress programs leave the same counters after any run |
| Scenarios.EmptyTableMatchPasses | bpf/redirect.c:122-134 | with an empty device map, a UDP frame to port 32750 passes, INGRESS_MATCH grows by one and no success is counted |
| Scenarios.EgressToSeven | bpf/redirect.c:79-104 | with EGRESS mapped to interface 7 and the redirect accepted, egress redirects to 7 and EGRESS_REDIRECT_SUCCESS grows by one |
| Scenarios.NonTestFramePassesUncounted | bpf/redirect.c:107-111 | with INGRESS mapped to 3, a frame to port 100 passes and no counter changes |

## Left out

- Concurrency and atomicity are not modelled. This covers `__sync_fetch_and_add`, parallel invocations
  on several CPUs, and the controller writing the device map while packets arrive. Each invocation is
  one sequential state transition over a fixed device map.
- The kernel helpers `bpf_redirect_map`, `bpf_redirect` and `bpf_map_lookup_elem` are kernel code and
  are not modelled internally. Their outcome is the boolean oracle `ok`. The kernel's `bpf_redirect`
  returns XDP_ABORTED for invalid flags, and the program passes 0, so that case never arises and is
  not modelled. The devmap flags and program fd in `bpf_devmap_val` are not modelled either: only the
  interface index is read.
- Dispatcher.EgressByMap, Dispatcher.EgressNoMap, Dispatcher.IngressByMap and Dispatcher.IngressNoMap
  count with the corrected `Counters.Count`. The code's 32-bit add at `bpf/redirect.c:37-39` is
  modelled only by `Counters.CountAsWritten`, and it differs from `Count` only when a counter's low 32
  bits are all ones (see "## Findings").
- Runs.RunIngressCounts, Runs.RunEgressCounts and Runs.RunIngressStrategiesAgree inherit that
  choice: the growth they state is the intended +1 per event, not the as-written 32-bit add.
- Dispatcher.EgressStrategiesAgree and Dispatcher.IngressStrategiesAgree quantify over a single
  oracle `ok` shared by `bpf_redirect_map` and `bpf_redirect`. This is sound for the calls the source
  makes: with flags 0, `bpf_redirect` returns XDP_REDIRECT unconditionally, and `bpf_redirect_map`
  returns it whenever the entry exists. Feeding the two helpers different oracle values, which the
  kernel never does here, would make the strategies differ.
- Counters.Count: counters are unbounded naturals, so the 64-bit wrap-around after 2^64 increments is
  not modelled.
- Counters.CountAsWritten models a little-endian target, where the `__u32 *` at `bpf/redirect.c:37`
  points at the low half of the 64-bit counter. On a big-endian target it points at the high half,
  so each count adds 2^32 instead; that variant is not modelled.
- `bpf/pass.c` always returns XDP_PASS and has no logic.
- `stalling-queues-issue/bpf/redirect.c` forwards straight to `bpf_redirect_map` with no classifier
  and no counters. Its behaviour is `Dispatcher.RedirectMap` alone.
- `tx-dma-unmap-issue/tapecho/tapecho.c` is TAP device and io_uring I/O with no decision logic.
- The loader that attaches the programs, fills the device map and reads the counters is not part of
  this model.

## Findings

| source | as written | input that shows it | evidently intended | confidence | as-written member | corrected member |
|---|---|---|---|---|---|---|
| bpf/redirect.c:37 | the `__u64` counter value is fetched through a `__u32 *`, so the atomic add changes only the low 32 bits on a little-endian target | a counter holding 2^32-1 is counted once | the counter becomes 2^32; as written it becomes 0, because the carry into the high half is lost | high for little-endian targets; not executed | Counters.CountAsWrittenLosesCarry | Counters.Count |

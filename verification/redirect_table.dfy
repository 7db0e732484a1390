/** The `redirects` device map of bpf/redirect.c: two slots, keyed by
    `enum redirect_target`, each holding the interface index to redirect to.
    The map is filled by the controller; the XDP programs only read it. */
module RedirectTable {
  import opened Optional

  datatype RedirectTarget = Ingress | Egress

  /** REDIRECTS_MAX_ENTRIES, the capacity of the device map. */
  const RedirectsMaxEntries: nat := 2

  /** The enum value of a target, which is its key in the device map. */
  function TargetKey(t: RedirectTarget): (k: nat)
    ensures k < RedirectsMaxEntries
  {
    match t
    case Ingress => 0
    case Egress => 1
  }

  /** The device map: key to `ifindex` of the `bpf_devmap_val` stored there. */
  type DevMap = map<nat, nat>

  /** bpf_map_lookup_elem on the device map. A key past the map's capacity
      or a slot the controller has not filled gives no entry. */
  function Lookup(m: DevMap, key: nat): (r: Option<nat>)
    ensures r.Some? <==> key < RedirectsMaxEntries && key in m
    ensures r.Some? ==> r.value == m[key]
  {
    if key < RedirectsMaxEntries && key in m then Some(m[key]) else None
  }
}

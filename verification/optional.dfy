/** The "found or absent" outcome of a map lookup, used where the source
    gets back a possibly-null pointer from bpf_map_lookup_elem. */
module Optional {

  datatype Option<+T> = None | Some(value: T)
}

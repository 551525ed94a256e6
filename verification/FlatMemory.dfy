/** Memory as a map from addresses to bytes: an address in it is allocated. */
module FlatMemory {
  import opened Prelude

  type Memory = map<int, Byte>

  ghost predicate Covers(mem: Memory, lo: int, hi: int) {
    forall a :: lo <= a < hi ==> a in mem
  }

  ghost predicate Holds(mem: Memory, p: int, bytes: seq<Byte>) {
    forall a :: p <= a < p + |bytes| ==> a in mem && mem[a] == bytes[a - p]
  }
}

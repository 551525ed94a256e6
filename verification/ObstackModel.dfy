/** What the obstack operations compute, on values.

    An obstack is a list of chunks, the current one last, and one growing object
    at the top of the current chunk. Memory is flat: an address holds a byte or
    is not allocated. */
module ObstackModel {
  import opened Align
  import opened FlatMemory
  import opened Prelude

  /** Sizes fixed by the platform, and the alignment mask. `narrow` says that
      pointer differences are narrower than pointers. */
  datatype Config = Config(ptrBytes: Size, intBytes: Size, narrow: bool, mask: Mask)

  type Size = n: nat | n > 0 witness 1

  type Mask = a: nat | IsMask(a) witness 0

  /** A chunk occupies [addr, limit); its header holds two pointers. */
  datatype Chunk = Chunk(addr: nat, limit: nat)

  datatype State = State(cfg: Config, chain: seq<Chunk>, base: int, next: int,
                         maybeEmpty: bool, mem: Memory)

  /** An answer of the chunk allocator: the chunk, its initial bytes, and whether
      the chunk it replaces is given back when that is allowed. */
  datatype Grant = Grant(chunk: Chunk, fill: Memory, drop: bool)

  function Contents(cfg: Config, c: Chunk): nat {
    c.addr + 2 * cfg.ptrBytes
  }

  /** First aligned byte of a chunk. */
  function First(cfg: Config, c: Chunk): (p: int)
    ensures c.addr + 2 * cfg.ptrBytes <= p <= c.addr + 2 * cfg.ptrBytes + cfg.mask
  {
    AlignBounds(if cfg.narrow then c.addr else 0, Contents(cfg, c), cfg.mask);
    PtrAlign(cfg.narrow, c.addr, Contents(cfg, c), cfg.mask)
  }

  predicate InChunk(c: Chunk, obj: int) {
    c.addr < obj <= c.limit
  }

  predicate Disjoint(c: Chunk, d: Chunk) {
    c.limit <= d.addr || d.limit <= c.addr
  }

  ghost predicate ChunkOK(cfg: Config, c: Chunk, mem: Memory) {
    c.addr > 0 && First(cfg, c) <= c.limit && Covers(mem, Contents(cfg, c), c.limit)
  }

  ghost predicate ChainOK(cfg: Config, chain: seq<Chunk>, mem: Memory) {
    && chain != []
    && (forall i | 0 <= i < |chain| :: ChunkOK(cfg, chain[i], mem))
    && (forall i, j | 0 <= i < j < |chain| :: Disjoint(chain[i], chain[j]))
  }

  /** The bounds every checked operation keeps. */
  ghost predicate Bounded(s: State) {
    && ChainOK(s.cfg, s.chain, s.mem)
    && First(s.cfg, Last(s.chain)) <= s.base <= s.next <= Last(s.chain).limit
  }

  function Room(s: State): int
    requires s.chain != []
  {
    Last(s.chain).limit - s.next
  }

  predicate OldChunkUnused(s: State)
    requires s.chain != []
  {
    !s.maybeEmpty && s.base == First(s.cfg, Last(s.chain))
  }

  /** A grant that serves a request for `len` more bytes of the growing object. */
  ghost predicate Serves(g: Grant, s: State, len: int) {
    && g.chunk.addr > 0
    && (forall i | 0 <= i < |s.chain| :: Disjoint(s.chain[i], g.chunk))
    && First(s.cfg, g.chunk) + (s.next - s.base) + len <= g.chunk.limit
    && (forall a :: a in g.fill <==> Contents(s.cfg, g.chunk) <= a < g.chunk.limit)
  }

  /** Store bytes at p; every address written must be allocated. */
  function Write(mem: Memory, p: int, bytes: seq<Byte>): Memory
    requires Covers(mem, p, p + |bytes|)
  {
    map a | a in mem :: if p <= a < p + |bytes| then bytes[a - p] else mem[a]
  }

  function Read(mem: Memory, p: int, n: nat): (bytes: seq<Byte>)
    requires Covers(mem, p, p + n)
    ensures |bytes| == n
    ensures forall i | 0 <= i < n :: bytes[i] == mem[p + i]
  {
    seq(n, i requires 0 <= i < n => assert p <= p + i < p + n; mem[p + i])
  }

  function Release(mem: Memory, c: Chunk): Memory {
    map a | a in mem && !(c.addr <= a < c.limit) :: mem[a]
  }

  /** Move the growing object, whose bytes are `moved`, into a fresh chunk. */
  function MoveTo(s: State, g: Grant, moved: seq<Byte>): State
    requires Bounded(s) && |moved| == s.next - s.base && Serves(g, s, 0)
  {
    var start := First(s.cfg, g.chunk);
    var dropped := g.drop && OldChunkUnused(s);
    var kept := if dropped then Release(s.mem, Last(s.chain)) else s.mem;
    State(s.cfg,
          (if dropped then Front(s.chain) else s.chain) + [g.chunk],
          start, start + |moved|, false,
          Write(kept + g.fill, start, moved))
  }

  /** `_obstack_newchunk`: a fresh chunk with the growing object moved into it. */
  function NewChunk(s: State, len: int, g: Grant): State
    requires Bounded(s) && len >= 0 && Serves(g, s, len)
  {
    assert ChunkOK(s.cfg, Last(s.chain), s.mem);
    MoveTo(s, g, Read(s.mem, s.base, s.next - s.base))
  }

  /** Memory keeps its bytes in [lo, hi). */
  ghost predicate Kept(mem: Memory, mem': Memory, lo: int, hi: int) {
    forall a :: lo <= a < hi && a in mem ==> a in mem' && mem'[a] == mem[a]
  }

  /** Outside the two chunks involved, moving the growing object changes nothing. */
  lemma MoveMemory(s: State, g: Grant, moved: seq<Byte>, lo: int, hi: int)
    requires Bounded(s) && |moved| == s.next - s.base && Serves(g, s, 0)
    requires hi <= g.chunk.addr || g.chunk.limit <= lo
    requires g.drop && OldChunkUnused(s) ==> hi <= Last(s.chain).addr || Last(s.chain).limit <= lo
    ensures Kept(s.mem, MoveTo(s, g, moved).mem, lo, hi)
  {
  }

  lemma MoveBounded(s: State, g: Grant, moved: seq<Byte>)
    requires Bounded(s) && |moved| == s.next - s.base && Serves(g, s, 0)
    ensures Bounded(MoveTo(s, g, moved))
  {
    var t := MoveTo(s, g, moved);
    var n := |t.chain| - 1;
    assert forall i | 0 <= i < n :: t.chain[i] == s.chain[i];
    forall i | 0 <= i < |t.chain|
      ensures ChunkOK(t.cfg, t.chain[i], t.mem)
    {
      var c := t.chain[i];
      if i < n {
        assert ChunkOK(s.cfg, c, s.mem) && Disjoint(c, g.chunk);
        assert g.drop && OldChunkUnused(s) ==> Disjoint(c, Last(s.chain));
        MoveMemory(s, g, moved, Contents(s.cfg, c), c.limit);
      }
    }
  }

  /** The room a request finds: in the current chunk, or in a fresh one. */
  function Reserve(s: State, len: int, g: Grant): State
    requires Bounded(s)
    requires Room(s) < len ==> len >= 0 && Serves(g, s, len)
  {
    if Room(s) < len then NewChunk(s, len, g) else s
  }

  lemma ReserveBounded(s: State, len: int, g: Grant)
    requires Bounded(s)
    requires Room(s) < len ==> len >= 0 && Serves(g, s, len)
    ensures Bounded(Reserve(s, len, g)) && Room(Reserve(s, len, g)) >= len
  {
    if Room(s) < len {
      MoveBounded(s, g, Read(s.mem, s.base, s.next - s.base));
    }
  }

  /** Store bytes at the end of the growing object. */
  function Put(s: State, bytes: seq<Byte>): State
    requires Bounded(s) && |bytes| <= Room(s)
  {
    assert ChunkOK(s.cfg, Last(s.chain), s.mem);
    s.(mem := Write(s.mem, s.next, bytes), next := s.next + |bytes|)
  }

  /** `obstack_blank`: the growing object takes in bytes that are not written. */
  function Extend(s: State, len: int, g: Grant): State
    requires Bounded(s)
    requires Room(s) < len ==> len >= 0 && Serves(g, s, len)
  {
    var t := Reserve(s, len, g);
    t.(next := t.next + len)
  }

  /** `obstack_finish`, after the base has been noted for the caller. */
  function Close(s: State): State
    requires Bounded(s)
  {
    var c := Last(s.chain);
    var stop := Min(PtrAlign(s.cfg.narrow, s.base, s.next, s.cfg.mask), c.limit);
    s.(base := stop, next := stop, maybeEmpty := s.maybeEmpty || s.next == s.base)
  }

  /** Some chunk of the chain holds obj. */
  predicate Inside(chain: seq<Chunk>, obj: int) {
    chain != [] && (InChunk(Last(chain), obj) || Inside(Front(chain), obj))
  }

  /** Release chunks until one holds obj, and restart there. */
  function FreeTo(s: State, obj: int): State
    requires Inside(s.chain, obj)
    decreases |s.chain|
  {
    if InChunk(Last(s.chain), obj) then
      s.(base := obj, next := obj)
    else
      FreeTo(PopChunk(s), obj)
  }

  /** Give the current chunk back; what the older chunk holds is then unknown. */
  function PopChunk(s: State): State
    requires s.chain != []
  {
    s.(chain := Front(s.chain), maybeEmpty := true, mem := Release(s.mem, Last(s.chain)))
  }

  lemma PutBounded(s: State, bytes: seq<Byte>)
    requires Bounded(s) && |bytes| <= Room(s)
    ensures Bounded(Put(s, bytes))
  {
    var t := Put(s, bytes);
    forall i | 0 <= i < |t.chain|
      ensures ChunkOK(t.cfg, t.chain[i], t.mem)
    {
      assert ChunkOK(s.cfg, s.chain[i], s.mem);
    }
  }

  /** Storing in two pieces is storing once. */
  lemma PutTwice(s: State, first: seq<Byte>, rest: seq<Byte>)
    requires Bounded(s) && |first| + |rest| <= Room(s)
    ensures Bounded(Put(s, first)) && Put(Put(s, first), rest) == Put(s, first + rest)
  {
    PutBounded(s, first);
  }

  lemma CloseBounded(s: State)
    requires Bounded(s)
    ensures Bounded(Close(s))
  {
    AlignBounds(if s.cfg.narrow then s.base else 0, s.next, s.cfg.mask);
  }

  /** `obstack_empty_p`. */
  predicate EmptyP(s: State)
    requires s.chain != []
  {
    |s.chain| == 1 && s.next == First(s.cfg, Last(s.chain))
  }
}

/** An obstack refines a stack of finished byte strings with one growing byte
    string on top: the invariant, and what each operation does to it. */
module ObstackRefinement {
  import opened Align
  import opened FlatMemory
  import opened Prelude
  import opened ObstackModel
  import opened ObstackLayout

  datatype Stack = Stack(done: seq<Object>, growing: seq<Byte>)

  ghost predicate AllHold(mem: Memory, done: seq<Object>) {
    forall i | 0 <= i < |done| :: Holds(mem, done[i].addr, done[i].bytes)
  }

  /** The flag is set whenever the current chunk holds an object of no bytes. */
  predicate EmptyNoted(s: State, done: seq<Object>) {
    s.maybeEmpty || forall i | 0 <= i < |done| :: done[i].home == |s.chain| - 1 ==> done[i].bytes != []
  }

  ghost predicate Inv(s: State, a: Stack) {
    && Bounded(s)
    && Laid(s.cfg, s.chain, a.done)
    && s.base == StartAfter(s.cfg, s.chain, a.done, |s.chain| - 1)
    && AllHold(s.mem, a.done)
    && s.next == s.base + |a.growing|
    && Holds(s.mem, s.base, a.growing)
    && EmptyNoted(s, a.done)
  }

  /** The live objects lie inside their chunks and below the growing object. */
  lemma Placed(s: State, a: Stack)
    requires Inv(s, a)
    ensures forall i | 0 <= i < |a.done| ::
              && a.done[i].home < |s.chain|
              && First(s.cfg, s.chain[a.done[i].home]) <= a.done[i].addr
              && a.done[i].End() <= s.chain[a.done[i].home].limit
              && (a.done[i].home == |s.chain| - 1 ==> a.done[i].End() <= s.base)
  {
    StartBounds(s.cfg, s.chain, a.done, |s.chain| - 1);
  }

  /** No two of the finished objects and the growing one share a byte. */
  lemma NoOverlap(s: State, a: Stack)
    requires Inv(s, a)
    ensures forall i, j | 0 <= i < j < |a.done| ::
              a.done[i].End() <= a.done[j].addr || a.done[j].End() <= a.done[i].addr
    ensures forall i | 0 <= i < |a.done| :: a.done[i].End() <= s.base || s.next <= a.done[i].addr
  {
    Placed(s, a);
    forall i, j | 0 <= i < j < |a.done|
      ensures a.done[i].End() <= a.done[j].addr || a.done[j].End() <= a.done[i].addr
    {
      LaidOrder(s.cfg, s.chain, a.done, i, j);
      assert a.done[i].home < a.done[j].home ==> Disjoint(s.chain[a.done[i].home], s.chain[a.done[j].home]);
    }
    forall i | 0 <= i < |a.done|
      ensures a.done[i].End() <= s.base || s.next <= a.done[i].addr
    {
      assert a.done[i].home < |s.chain| - 1 ==> Disjoint(s.chain[a.done[i].home], s.chain[|s.chain| - 1]);
    }
  }

  /** A live object of nonzero size is aligned. */
  lemma Aligned(s: State, a: Stack, i: nat)
    requires Inv(s, a) && i < |a.done| && a.done[i].bytes != []
    ensures a.done[i].home < |s.chain|
    ensures OnGrid(Origin(s.cfg, s.chain[a.done[i].home]), a.done[i].addr, s.cfg.mask + 1)
    ensures !s.cfg.narrow ==> a.done[i].addr % (s.cfg.mask + 1) == 0
  {
    LaidOnGrid(s.cfg, s.chain, a.done, i);
    assert !s.cfg.narrow ==> OnGrid(0, a.done[i].addr, s.cfg.mask + 1);
  }

  /** When the rule allows the current chunk to be given back, no live object is
      in it, not even one of size zero; with the flag clear the rule is exact. */
  lemma DropSafe(s: State, a: Stack)
    requires Inv(s, a)
    ensures OldChunkUnused(s) ==> forall i | 0 <= i < |a.done| :: a.done[i].home < |s.chain| - 1
    ensures !s.maybeEmpty && (forall i | 0 <= i < |a.done| :: a.done[i].home < |s.chain| - 1) ==> OldChunkUnused(s)
  {
    Placed(s, a);
  }

  /** The objects keep their bytes when their parts of memory do. */
  lemma ObjectsKept(mem: Memory, mem': Memory, done: seq<Object>)
    requires AllHold(mem, done)
    requires forall i | 0 <= i < |done| :: Kept(mem, mem', done[i].addr, done[i].End())
    ensures AllHold(mem', done)
  {
    forall i | 0 <= i < |done|
      ensures Holds(mem', done[i].addr, done[i].bytes)
    {
      assert Holds(mem, done[i].addr, done[i].bytes);
    }
  }

  /** The live objects' chunks stay where they are in the chain. */
  lemma MoveLayout(s: State, a: Stack, g: Grant)
    requires Inv(s, a) && Serves(g, s, 0)
    ensures var t := MoveTo(s, g, a.growing);
            && Laid(t.cfg, t.chain, a.done)
            && t.base == StartAfter(t.cfg, t.chain, a.done, |t.chain| - 1)
            && forall i | 0 <= i < |a.done| ::
                 && a.done[i].home < |t.chain| - 1 && t.chain[a.done[i].home] == s.chain[a.done[i].home]
                 && (g.drop && OldChunkUnused(s) ==> a.done[i].home < |s.chain| - 1)
  {
    var t := MoveTo(s, g, a.growing);
    Placed(s, a);
    DropSafe(s, a);
    LaidSameChunks(s.cfg, s.chain, t.chain, a.done);
  }

  lemma MoveKeepsObjects(s: State, a: Stack, g: Grant)
    requires Inv(s, a) && Serves(g, s, 0)
    ensures AllHold(MoveTo(s, g, a.growing).mem, a.done)
  {
    var t := MoveTo(s, g, a.growing);
    MoveLayout(s, a, g);
    Placed(s, a);
    forall i | 0 <= i < |a.done|
      ensures Kept(s.mem, t.mem, a.done[i].addr, a.done[i].End())
    {
      var c := s.chain[a.done[i].home];
      assert Disjoint(c, g.chunk);
      assert a.done[i].home < |s.chain| - 1 ==> Disjoint(c, Last(s.chain));
      MoveMemory(s, g, a.growing, a.done[i].addr, a.done[i].End());
    }
    ObjectsKept(s.mem, t.mem, a.done);
  }

  lemma MoveRefines(s: State, a: Stack, g: Grant)
    requires Inv(s, a) && Serves(g, s, 0)
    ensures Inv(MoveTo(s, g, a.growing), a)
  {
    MoveBounded(s, g, a.growing);
    MoveLayout(s, a, g);
    MoveKeepsObjects(s, a, g);
    MoveHeld(s, g, a.growing);
  }

  lemma MoveHeld(s: State, g: Grant, moved: seq<Byte>)
    requires Bounded(s) && |moved| == s.next - s.base && Serves(g, s, 0)
    ensures Holds(MoveTo(s, g, moved).mem, MoveTo(s, g, moved).base, moved)
  {
  }

  lemma ReadHeld(mem: Memory, p: int, bytes: seq<Byte>)
    requires Holds(mem, p, bytes)
    ensures Covers(mem, p, p + |bytes|) && Read(mem, p, |bytes|) == bytes
  {
    var read := Read(mem, p, |bytes|);
    forall i | 0 <= i < |bytes|
      ensures read[i] == bytes[i]
    {
      assert mem[p + i] == bytes[p + i - p];
    }
  }

  /** Whatever the allocator grants, the abstract stack is unchanged by the move. */
  lemma NewChunkRefines(s: State, a: Stack, len: int, g: Grant)
    requires Inv(s, a) && len >= 0 && Serves(g, s, len)
    ensures Inv(NewChunk(s, len, g), a)
  {
    ReadHeld(s.mem, s.base, a.growing);
    MoveRefines(s, a, g);
  }

  lemma ReserveRefines(s: State, a: Stack, len: int, g: Grant)
    requires Inv(s, a)
    requires Room(s) < len ==> len >= 0 && Serves(g, s, len)
    ensures Inv(Reserve(s, len, g), a) && Room(Reserve(s, len, g)) >= len
  {
    ReserveBounded(s, len, g);
    if Room(s) < len {
      NewChunkRefines(s, a, len, g);
    }
  }

  /** Bytes stored go to the end of the growing object, and nowhere else. */
  lemma PutRefines(s: State, a: Stack, bytes: seq<Byte>)
    requires Inv(s, a) && |bytes| <= Room(s)
    ensures Inv(Put(s, bytes), a.(growing := a.growing + bytes))
  {
    var t := Put(s, bytes);
    PutBounded(s, bytes);
    RoomClear(s, a);
    ObjectsKept(s.mem, t.mem, a.done);
  }

  /** The free room of the current chunk is clear of live objects. */
  lemma RoomClear(s: State, a: Stack)
    requires Inv(s, a)
    ensures forall i | 0 <= i < |a.done| ::
              a.done[i].End() <= s.base || Last(s.chain).limit <= a.done[i].addr
  {
    Placed(s, a);
    forall i | 0 <= i < |a.done|
      ensures a.done[i].End() <= s.base || Last(s.chain).limit <= a.done[i].addr
    {
      assert a.done[i].home < |s.chain| - 1 ==> Disjoint(s.chain[a.done[i].home], s.chain[|s.chain| - 1]);
    }
  }

  /** The growing object after `obstack_blank`: longer by bytes that are whatever
      memory holds there, or cut short when the length is negative. */
  function Blanked(s: State, a: Stack, len: int, g: Grant): Stack
    requires Bounded(s) && s.next == s.base + |a.growing|
    requires -|a.growing| <= len
    requires Room(s) < len ==> len >= 0 && Serves(g, s, len)
  {
    if len < 0 then a.(growing := a.growing[..|a.growing| + len])
    else
      ReserveBounded(s, len, g);
      var t := Reserve(s, len, g);
      assert ChunkOK(t.cfg, Last(t.chain), t.mem);
      a.(growing := a.growing + Read(t.mem, t.next, len))
  }

  lemma ExtendRefines(s: State, a: Stack, len: int, g: Grant)
    requires Inv(s, a) && -|a.growing| <= len
    requires Room(s) < len ==> len >= 0 && Serves(g, s, len)
    ensures Inv(Extend(s, len, g), Blanked(s, a, len, g))
  {
    if len >= 0 {
      ReserveRefines(s, a, len, g);
      StretchRefines(Reserve(s, len, g), a, len);
    }
  }

  /** Raising next_free inside the chunk takes in the bytes found there. */
  lemma StretchRefines(s: State, a: Stack, n: nat)
    requires Inv(s, a) && n <= Room(s)
    ensures Covers(s.mem, s.next, s.next + n)
    ensures Inv(s.(next := s.next + n), a.(growing := a.growing + Read(s.mem, s.next, n)))
  {
    assert ChunkOK(s.cfg, Last(s.chain), s.mem);
  }

  /** A source inside a live object may be read before or after room is made. */
  lemma SourceInObject(s: State, a: Stack, len: int, g: Grant, k: nat, p: int, n: nat)
    requires Inv(s, a) && k < |a.done|
    requires a.done[k].addr <= p && p + n <= a.done[k].End()
    requires Room(s) < len ==> len >= 0 && Serves(g, s, len)
    ensures Covers(s.mem, p, p + n) && Covers(Reserve(s, len, g).mem, p, p + n)
    ensures Read(Reserve(s, len, g).mem, p, n) == Read(s.mem, p, n)
  {
    hide First, Laid, StartAfter;
    ReserveRefines(s, a, len, g);
    HeldPart(s.mem, a.done[k], p, n);
    HeldPart(Reserve(s, len, g).mem, a.done[k], p, n);
  }

  lemma HeldPart(mem: Memory, o: Object, p: int, n: nat)
    requires Holds(mem, o.addr, o.bytes) && o.addr <= p && p + n <= o.End()
    ensures Covers(mem, p, p + n) && Read(mem, p, n) == o.bytes[p - o.addr..p - o.addr + n]
  {
    ReadHeld(mem, p, o.bytes[p - o.addr..p - o.addr + n]);
  }

  /** A source inside the growing object survives its own object's move exactly
      when the old chunk is not given back; then it still holds the same bytes. */
  lemma SourceInGrowing(s: State, len: nat, g: Grant, p: int, n: nat)
    requires Bounded(s) && Room(s) < len && Serves(g, s, len)
    requires s.base <= p && p + n <= s.next && n > 0
    ensures Covers(s.mem, p, p + n)
    ensures Covers(Reserve(s, len, g).mem, p, p + n) <==> !(g.drop && OldChunkUnused(s))
    ensures !(g.drop && OldChunkUnused(s)) ==> Read(Reserve(s, len, g).mem, p, n) == Read(s.mem, p, n)
  {
    var c := Last(s.chain);
    assert ChunkOK(s.cfg, c, s.mem) && Disjoint(c, g.chunk);
    var moved := Read(s.mem, s.base, s.next - s.base);
    if g.drop && OldChunkUnused(s) {
      assert p !in Release(s.mem, c) && p !in g.fill;
      assert p !in Reserve(s, len, g).mem;
    } else {
      MoveMemory(s, g, moved, p, p + n);
      SameRead(s.mem, Reserve(s, len, g).mem, p, n);
    }
  }

  lemma SameRead(mem: Memory, mem': Memory, p: int, n: nat)
    requires Covers(mem, p, p + n) && Kept(mem, mem', p, p + n)
    ensures Covers(mem', p, p + n) && Read(mem', p, n) == Read(mem, p, n)
  {
    var read, read' := Read(mem, p, n), Read(mem', p, n);
    forall i | 0 <= i < n
      ensures read'[i] == read[i]
    {
      assert p + i in mem;
    }
  }

  /** The finished object has the base as its address and the growing bytes. */
  function Closed(s: State, a: Stack): Stack
    requires s.chain != []
  {
    Stack(a.done + [Object(s.base, a.growing, |s.chain| - 1)], [])
  }

  lemma CloseLayout(s: State, a: Stack)
    requires Inv(s, a)
    ensures var done := Closed(s, a).done;
            && Laid(s.cfg, s.chain, done)
            && Close(s).base == StartAfter(s.cfg, s.chain, done, |s.chain| - 1)
  {
    hide Laid, Holds, AllHold, Covers, Disjoint, ChainOK, ChunkOK, EmptyNoted, IsMask, AndNot, OnGrid, BptrAlign;
    var h := |s.chain| - 1;
    Placed(s, a);
    Home(s, a, |a.done|);
    var o := Object(s.base, a.growing, h);
    assert a.done != [] ==> Last(a.done) == a.done[|a.done| - 1];
    CloseStopAfter(s.cfg, s.chain, a.done, h, s.next);
    LaidSnoc(s.cfg, s.chain, a.done, o);
    assert Last(a.done + [o]) == o;
  }

  lemma CloseRefines(s: State, a: Stack)
    requires Inv(s, a)
    ensures Inv(Close(s), Closed(s, a))
    ensures Close(s).maybeEmpty <==> s.maybeEmpty || a.growing == []
  {
    hide IsMask, AndNot, BptrAlign, OnGrid;
    CloseBounded(s);
    CloseLayout(s, a);
    HoldSnoc(s.mem, a.done, Last(Closed(s, a).done));
  }

  lemma HoldSnoc(mem: Memory, done: seq<Object>, o: Object)
    requires AllHold(mem, done) && Holds(mem, o.addr, o.bytes)
    ensures AllHold(mem, done + [o])
  {
  }

  /** `obstack_finish` skips at most the mask's number of bytes. */
  lemma PaddingBounded(s: State)
    requires Bounded(s)
    ensures s.next <= Close(s).base <= s.next + s.cfg.mask
  {
    AlignBounds(if s.cfg.narrow then s.base else 0, s.next, s.cfg.mask);
  }

  /** `obstack_finish` leaves the base unaligned exactly when no aligned address
      is left between the object's end and the end of the chunk. */
  lemma CloseLeavesUnaligned(s: State, a: Stack)
    requires Inv(s, a)
    ensures var c, n := Last(s.chain), s.cfg.mask + 1;
            !OnGrid(Origin(s.cfg, c), Close(s).base, n)
            <==> forall q | s.next <= q <= c.limit :: !OnGrid(Origin(s.cfg, c), q, n)
  {
    var c, n := Last(s.chain), s.cfg.mask + 1;
    var up := BptrAlign(Origin(s.cfg, c), s.next, s.cfg.mask);
    CloseStopAfter(s.cfg, s.chain, a.done, |s.chain| - 1, s.next);
    BptrAlignLeast(Origin(s.cfg, c), s.next, s.cfg.mask);
    assert Close(s).base == Min(up, c.limit);
  }

  /** The address a client holds for live object k; the growing object is the last. */
  function AddressOf(s: State, a: Stack, k: nat): int
    requires k <= |a.done|
  {
    if k < |a.done| then a.done[k].addr else s.base
  }

  function HomeOf(s: State, a: Stack, k: nat): int
    requires k <= |a.done|
  {
    if k < |a.done| then a.done[k].home else |s.chain| - 1
  }

  /** The test of `obstack_free` for the case that needs no chunk released. */
  predicate FastTest(s: State, obj: int)
    requires s.chain != []
  {
    Last(s.chain).addr < obj < Last(s.chain).limit
  }

  lemma Home(s: State, a: Stack, k: nat)
    requires Inv(s, a) && k <= |a.done|
    ensures 0 <= HomeOf(s, a, k) < |s.chain|
    ensures var c := s.chain[HomeOf(s, a, k)]; c.addr < First(s.cfg, c) <= AddressOf(s, a, k) <= c.limit
  {
    Placed(s, a);
  }

  /** The fast path is taken exactly for the addresses of objects of the current
      chunk that do not lie at its very end. */
  lemma FastTestExact(s: State, a: Stack, k: nat)
    requires Inv(s, a) && k <= |a.done|
    ensures FastTest(s, AddressOf(s, a, k))
       <==> HomeOf(s, a, k) == |s.chain| - 1 && AddressOf(s, a, k) < Last(s.chain).limit
  {
    Home(s, a, k);
    assert HomeOf(s, a, k) < |s.chain| - 1 ==> Disjoint(s.chain[HomeOf(s, a, k)], s.chain[|s.chain| - 1]);
  }

  /** t is s with the chunks above h released and a restart at obj. */
  ghost predicate Freed(s: State, obj: int, h: nat, t: State)
    requires h < |s.chain|
  {
    && t.cfg == s.cfg && t.chain == s.chain[..h + 1] && t.base == t.next == obj
    && t.maybeEmpty == (s.maybeEmpty || h + 1 < |s.chain|)
    && (forall i | 0 <= i <= h :: Kept(s.mem, t.mem, s.chain[i].addr, s.chain[i].limit))
    && (forall a :: a in t.mem ==> a in s.mem)
    && (forall i | h < i < |s.chain| :: Gone(t.mem, s.chain[i].addr, s.chain[i].limit))
  }

  /** Nothing in [lo, hi) is allocated. */
  ghost predicate Gone(mem: Memory, lo: int, hi: int) {
    forall a :: lo <= a < hi ==> a !in mem
  }

  /** Freeing an address inside chunk h releases exactly the chunks above h. */
  lemma {:induction false} FreeToIs(s: State, obj: int, h: nat)
    requires ChainOK(s.cfg, s.chain, s.mem)
    requires h < |s.chain| && InChunk(s.chain[h], obj)
    ensures Inside(s.chain, obj)
    ensures Freed(s, obj, h, FreeTo(s, obj))
    decreases |s.chain|
  {
    var n := |s.chain| - 1;
    if h < n {
      assert Disjoint(s.chain[h], s.chain[n]);
      PopOK(s);
      FreeToIs(PopChunk(s), obj, h);
      PopFreed(s, obj, h, FreeTo(s, obj));
    } else {
      assert s.chain[..h + 1] == s.chain;
    }
  }

  lemma PopFreed(s: State, obj: int, h: nat, t: State)
    requires ChainOK(s.cfg, s.chain, s.mem) && h < |s.chain| - 1
    requires Freed(PopChunk(s), obj, h, t)
    ensures Freed(s, obj, h, t)
  {
    var p, n := PopChunk(s), |s.chain| - 1;
    hide First, Disjoint, ChunkOK;
    PopOK(s);
    forall i | 0 <= i <= h
      ensures Kept(s.mem, t.mem, s.chain[i].addr, s.chain[i].limit)
    {
      assert Kept(s.mem, p.mem, s.chain[i].addr, s.chain[i].limit);
      assert Kept(p.mem, t.mem, p.chain[i].addr, p.chain[i].limit);
    }
    forall i | h < i < |s.chain|
      ensures Gone(t.mem, s.chain[i].addr, s.chain[i].limit)
    {
      assert i < n ==> Gone(t.mem, p.chain[i].addr, p.chain[i].limit);
    }
  }

  lemma PopOK(s: State)
    requires ChainOK(s.cfg, s.chain, s.mem) && |s.chain| > 1
    ensures var p := PopChunk(s);
            && ChainOK(p.cfg, p.chain, p.mem)
            && forall i | 0 <= i < |p.chain| :: Kept(s.mem, p.mem, s.chain[i].addr, s.chain[i].limit)
  {
    var n, p := |s.chain| - 1, PopChunk(s);
    forall i | 0 <= i < n
      ensures ChunkOK(p.cfg, p.chain[i], p.mem) && Kept(s.mem, p.mem, s.chain[i].addr, s.chain[i].limit)
    {
      assert ChunkOK(s.cfg, s.chain[i], s.mem) && Disjoint(s.chain[i], s.chain[n]);
    }
    assert forall i, j | 0 <= i < j < |p.chain| ::
        Disjoint(s.chain[i], s.chain[j]) ==> Disjoint(p.chain[i], p.chain[j]);
  }

  /** After a release the remaining chunks are sound and the bounds hold again. */
  lemma FreeBounded(s: State, obj: int, h: nat)
    requires Bounded(s)
    requires h < |s.chain| && First(s.cfg, s.chain[h]) <= obj <= s.chain[h].limit
    ensures Inside(s.chain, obj) && Bounded(FreeTo(s, obj))
  {
    FreeToIs(s, obj, h);
    FreedBounded(s, obj, h, FreeTo(s, obj));
  }

  lemma FreedBounded(s: State, obj: int, h: nat, t: State)
    requires Bounded(s)
    requires h < |s.chain| && First(s.cfg, s.chain[h]) <= obj <= s.chain[h].limit
    requires Freed(s, obj, h, t)
    ensures Bounded(t)
  {
    forall i | 0 <= i < |t.chain|
      ensures ChunkOK(t.cfg, t.chain[i], t.mem)
    {
      assert ChunkOK(s.cfg, s.chain[i], s.mem);
    }
    assert forall i, j | 0 <= i < j < |t.chain| ::
        Disjoint(s.chain[i], s.chain[j]) ==> Disjoint(t.chain[i], t.chain[j]);
  }

  /** The objects before object k stay laid out when the chunks above its own go,
      and object k's address is where the next object starts. */
  lemma FreeLayout(s: State, a: Stack, k: nat)
    requires Inv(s, a) && k <= |a.done|
    ensures var h := HomeOf(s, a, k);
            && 0 <= h < |s.chain|
            && Laid(s.cfg, s.chain[..h + 1], a.done[..k])
            && (k > 0 ==> Last(a.done[..k]).home <= h)
            && AddressOf(s, a, k) == StartAfter(s.cfg, s.chain[..h + 1], a.done[..k], h)
  {
    var h := HomeOf(s, a, k);
    Home(s, a, k);
    hide First, ChainOK, AllHold, Holds, EmptyNoted;
    if k < |a.done| {
      LaidAt(s.cfg, s.chain, a.done, k);
    } else {
      assert a.done[..k] == a.done;
      assert a.done != [] ==> Last(a.done).home <= h;
    }
    hide StartAfter, Laid;
    LaidTruncate(s.cfg, s.chain, a.done[..k], h);
  }

  lemma FreeKeepsObjects(s: State, a: Stack, k: nat, t: State)
    requires Inv(s, a) && k <= |a.done| && 0 <= HomeOf(s, a, k) < |s.chain|
    requires Freed(s, AddressOf(s, a, k), HomeOf(s, a, k), t)
    ensures AllHold(t.mem, a.done[..k])
  {
    Placed(s, a);
    forall i | 0 <= i < k
      ensures Kept(s.mem, t.mem, a.done[i].addr, a.done[i].End())
    {
      if k < |a.done| {
        LaidOrder(s.cfg, s.chain, a.done, i, k);
      }
      assert Kept(s.mem, t.mem, s.chain[a.done[i].home].addr, s.chain[a.done[i].home].limit);
    }
    ObjectsKept(s.mem, t.mem, a.done[..k]);
  }

  /** Freeing object k keeps the objects before it, drops everything from it on,
      and makes its address the next base, whichever chunks had to be released. */
  lemma FreeRefines(s: State, a: Stack, k: nat)
    requires Inv(s, a) && k <= |a.done|
    ensures Inside(s.chain, AddressOf(s, a, k))
    ensures Inv(FreeTo(s, AddressOf(s, a, k)), Stack(a.done[..k], []))
  {
    var h, obj := HomeOf(s, a, k), AddressOf(s, a, k);
    Home(s, a, k);
    FreeToIs(s, obj, h);
    var t := FreeTo(s, obj);
    FreedBounded(s, obj, h, t);
    FreeLayout(s, a, k);
    FreeKeepsObjects(s, a, k, t);
    FreedRefines(s, a, k, t);
  }

  lemma FreedRefines(s: State, a: Stack, k: nat, t: State)
    requires EmptyNoted(s, a.done) && k <= |a.done| && 0 <= HomeOf(s, a, k) < |s.chain|
    requires Freed(s, AddressOf(s, a, k), HomeOf(s, a, k), t) && Bounded(t)
    requires var h := HomeOf(s, a, k);
             && Laid(s.cfg, s.chain[..h + 1], a.done[..k])
             && (k > 0 ==> Last(a.done[..k]).home <= h)
             && AddressOf(s, a, k) == StartAfter(s.cfg, s.chain[..h + 1], a.done[..k], h)
    requires AllHold(t.mem, a.done[..k])
    ensures Inv(t, Stack(a.done[..k], []))
  {
  }

  /** `obstack_empty_p` holds exactly when there is one chunk, nothing is growing
      and every live object has size zero. */
  lemma {:induction false} EmptyPExact(s: State, a: Stack)
    requires Inv(s, a)
    ensures EmptyP(s) <==>
            |s.chain| == 1 && a.growing == [] && forall i | 0 <= i < |a.done| :: a.done[i].bytes == []
  {
    Placed(s, a);
    if |s.chain| == 1 && forall i | 0 <= i < |a.done| :: a.done[i].bytes == [] {
      AllEmptyAtFirst(s.cfg, s.chain, a.done);
    }
  }

  lemma {:induction false} AllEmptyAtFirst(cfg: Config, chain: seq<Chunk>, done: seq<Object>)
    requires Laid(cfg, chain, done) && |chain| == 1 && First(cfg, chain[0]) <= chain[0].limit
    requires forall i | 0 <= i < |done| :: done[i].bytes == []
    ensures StartAfter(cfg, chain, done, 0) == First(cfg, chain[0])
    decreases |done|
  {
    if done != [] {
      AllEmptyAtFirst(cfg, chain, Front(done));
      var o, c := Last(done), chain[0];
      assert done[|done| - 1].bytes == [];
      BptrAlignFixed(Origin(cfg, c), Contents(cfg, c), cfg.mask);
    }
  }
}

/** What each obstack call does, written out byte by byte and field by field, and
    what the flag and the allocated memory say after whole runs. */
module ObstackEffects {
  import opened Align
  import opened FlatMemory
  import opened Prelude
  import opened ObstackModel
  import opened ObstackLayout
  import opened ObstackRefinement
  import opened ObstackRuns

  // ---------- Bytes ----------

  /** Longer by n bytes, or cut short when n is negative. */
  predicate Resized(before: seq<Byte>, after: seq<Byte>, n: int) {
    |after| == |before| + n && forall i | 0 <= i < |before| && i < |after| :: after[i] == before[i]
  }

  /** One finished object more, and nothing growing. */
  predicate OneMore(a: Stack, b: Stack) {
    b.growing == [] && b.done != [] && Front(b.done) == a.done
  }

  /** What the growing part of a call makes of the growing string. */
  lemma Growing(s: State, a: Stack, e: Event)
    requires Inv(s, a) && StepOK(s, e) && !e.op.Free?
    ensures var b := Grown(s, a, e);
            b.done == a.done &&
            match e.op
            case Grow(bytes) => b.growing == a.growing + bytes
            case Grow0(bytes) => b.growing == a.growing + (bytes + [0])
            case OneGrow(datum) => b.growing == a.growing + [datum]
            case PtrGrow(rep) => b.growing == a.growing + rep && |rep| == s.cfg.ptrBytes
            case IntGrow(rep) => b.growing == a.growing + rep && |rep| == s.cfg.intBytes
            case Blank(n) => Resized(a.growing, b.growing, n)
            case OneGrowFast(datum) => b.growing == a.growing + [datum]
            case BlankFast(n) => Resized(a.growing, b.growing, n)
            case Alloc(n) => Resized(a.growing, b.growing, n)
            case Copy(bytes) => b.growing == a.growing + bytes
            case Copy0(bytes) => b.growing == a.growing + (bytes + [0])
            case _ => b.growing == a.growing
  {
    hide First, Laid, StartAfter, AllHold, Holds, ChunkOK, Disjoint, Serves, Reserve;
  }

  lemma Tracked(w: Live, e: Event)
    requires CanStep(w, e) && !e.op.Free?
    ensures var g, b := Grown(w.s, w.a, e), Next(w, e).a;
            if e.op.Finish? || e.op.Alloc? || e.op.Copy? || e.op.Copy0? then
              b.growing == [] && b.done != [] && Front(b.done) == g.done && Last(b.done).bytes == g.growing
            else b == g
  {
    hide Inv, StepOK, Enlarge, Grown;
  }

  /** The effect of every call on the growing string and the finished objects. */
  lemma BytesAfter(w: Live, e: Event)
    requires CanStep(w, e)
    ensures var a, b := w.a, Next(w, e).a;
            match e.op
            case MakeRoom(_) => b == a
            case Grow(bytes) => b == Stack(a.done, a.growing + bytes)
            case Grow0(bytes) => b == Stack(a.done, a.growing + (bytes + [0]))
            case OneGrow(datum) => b == Stack(a.done, a.growing + [datum])
            case PtrGrow(rep) => b == Stack(a.done, a.growing + rep) && |rep| == w.s.cfg.ptrBytes
            case IntGrow(rep) => b == Stack(a.done, a.growing + rep) && |rep| == w.s.cfg.intBytes
            case Blank(n) => b.done == a.done && Resized(a.growing, b.growing, n)
            case OneGrowFast(datum) => b == Stack(a.done, a.growing + [datum])
            case BlankFast(n) => b.done == a.done && Resized(a.growing, b.growing, n)
            case Finish => OneMore(a, b) && Last(b.done).bytes == a.growing
            case Alloc(n) => OneMore(a, b) && Resized(a.growing, Last(b.done).bytes, n)
            case Copy(bytes) => OneMore(a, b) && Last(b.done).bytes == a.growing + bytes
            case Copy0(bytes) => OneMore(a, b) && Last(b.done).bytes == a.growing + (bytes + [0])
            case Free(_, k) => k <= |a.done| && b == Stack(a.done[..k], [])
  {
    hide Inv, StepOK, Grown, Enlarge, Resized;
    if !e.op.Free? {
      Growing(w.s, w.a, e);
      Tracked(w, e);
    }
  }

  /** The calls that finish an object return its address, and only they return one. */
  lemma PointerReturned(w: Live, e: Event)
    requires CanStep(w, e)
    ensures var v := Next(w, e);
            if e.op.Finish? || e.op.Alloc? || e.op.Copy? || e.op.Copy0? then
              && v.a.done != [] && Returned(w.s, e) == Some(Last(v.a.done).addr)
              && Last(v.a.done).home == |v.s.chain| - 1
            else Returned(w.s, e) == None
  {
    hide First, Laid, StartAfter, AllHold, Holds, ChainOK, Serves;
  }

  // ---------- Places ----------

  /** Objects of a chunk begin at the first aligned address behind its header of
      two pointers. */
  lemma FirstExact(cfg: Config, c: Chunk)
    ensures IsLeastOnGrid(if cfg.narrow then c.addr else 0, c.addr + 2 * cfg.ptrBytes, cfg.mask + 1, First(cfg, c))
  {
    BptrAlignLeast(if cfg.narrow then c.addr else 0, Contents(cfg, c), cfg.mask);
  }

  /** p is where an object may start after `end`: at the next aligned address of
      the chunk or, if there is none before the chunk's end, at that end. */
  ghost predicate NextStart(cfg: Config, c: Chunk, end: int, p: int) {
    var origin, n := if cfg.narrow then c.addr else 0, cfg.mask + 1;
    && end <= p <= c.limit
    && (p == c.limit || OnGrid(origin, p, n))
    && forall q | end <= q < p :: !OnGrid(origin, q, n)
  }

  lemma CloseNextStart(s: State, a: Stack)
    requires Inv(s, a)
    ensures Close(s).base == Close(s).next && NextStart(s.cfg, Last(s.chain), s.next, Close(s).base)
  {
    var c, n := Last(s.chain), s.cfg.mask + 1;
    CloseStopAfter(s.cfg, s.chain, a.done, |s.chain| - 1, s.next);
    BptrAlignLeast(Origin(s.cfg, c), s.next, s.cfg.mask);
    hide BptrAlign, AndNot, IsMask;
  }

  /** What a finishing call leaves: the object's chunk is current, and the next
      object starts behind it. */
  lemma FinishPlaces(w: Live, e: Event)
    requires CanStep(w, e) && (e.op.Finish? || e.op.Alloc? || e.op.Copy? || e.op.Copy0?)
    ensures var v := Next(w, e);
            && v.a.done != [] && v.s.chain != [] && v.s.base == v.s.next
            && NextStart(v.s.cfg, Last(v.s.chain), Last(v.a.done).End(), v.s.base)
  {
    hide Laid, StartAfter, AllHold, Holds, NextStart, First, ChainOK, Reserve;
    var t, b := Enlarge(w.s, e), Grown(w.s, w.a, e);
    EnlargeRefines(w.s, w.a, e);
    CloseNextStart(t, b);
    assert Next(w, e).s == Close(t) && Next(w, e).a == Closed(t, b);
  }

  /** A free restarts at the object's address, in its chunk, which becomes the last. */
  lemma FreePlaces(w: Live, e: Event)
    requires CanStep(w, e) && e.op.Free?
    ensures var t, k := Next(w, e).s, e.op.which;
            && k <= |w.a.done|
            && t.base == t.next == e.op.obj == (if k < |w.a.done| then w.a.done[k].addr else w.s.base)
            && (k < |w.a.done| ==>
                  w.a.done[k].home < |w.s.chain| && t.chain == w.s.chain[..w.a.done[k].home + 1])
            && (k == |w.a.done| ==> t.chain == w.s.chain)
  {
    hide Laid, StartAfter, AllHold, Holds, First, FreeTo, ChunkOK, Disjoint;
    FreeStep(w.s, e);
    Home(w.s, w.a, e.op.which);
    FreeToIs(w.s, e.op.obj, HomeOf(w.s, w.a, e.op.which));
  }

  /** How many bytes a call asks for. */
  lemma AsksFor(s: State, e: Event)
    requires StepOK(s, e)
    ensures e.op.Demand() == match e.op
              case MakeRoom(n) => n
              case Grow(bytes) => |bytes|
              case Grow0(bytes) => |bytes| + 1
              case OneGrow(_) => 1
              case PtrGrow(_) => s.cfg.ptrBytes
              case IntGrow(_) => s.cfg.intBytes
              case Blank(n) => n
              case OneGrowFast(_) => 1
              case BlankFast(n) => n
              case Alloc(n) => n
              case Copy(bytes) => |bytes|
              case Copy0(bytes) => |bytes| + 1
              case _ => 0
  {
  }

  /** The chain once a grant is taken: the old chunk is given back if the grant
      says so, the flag is clear and the growing object was alone in that chunk. */
  function ChainWith(s: State, g: Grant): (chain: seq<Chunk>)
    requires s.chain != []
    ensures chain != [] && Last(chain) == g.chunk
  {
    var dropped := g.drop && !s.maybeEmpty && s.base == First(s.cfg, Last(s.chain));
    (if dropped then Front(s.chain) else s.chain) + [g.chunk]
  }

  /** Where the growing part of a call leaves the growing object. */
  lemma EnlargePlaces(s: State, e: Event)
    requires StepOK(s, e) && !e.op.Free?
    ensures s.chain != []
    ensures var t, needs := Enlarge(s, e), e.op.Demand();
            var fits := needs <= Last(s.chain).limit - s.next;
            && t.cfg == s.cfg
            && t.chain == (if fits then s.chain else ChainWith(s, e.grant))
            && t.base == (if fits then s.base else First(s.cfg, e.grant.chunk))
            && (t.maybeEmpty <==> fits && s.maybeEmpty)
            && t.next - t.base == s.next - s.base + (if e.op.MakeRoom? then 0 else needs)
            && needs <= Last(t.chain).limit - (if e.op.MakeRoom? then t.next else t.next - needs)
  {
    hide First, Covers, Disjoint, Op.Appended, Kept;
    ReserveBounded(s, e.op.Demand(), e.grant);
    NothingAppended(e.op);
  }

  lemma NothingAppended(op: Op)
    ensures op.Skipped() != 0 || op.MakeRoom? ==> op.Appended() == []
  {
  }

  /** A call takes a chunk exactly when it asks for more bytes than are left; the
      object it grows or finishes is then at that chunk's first aligned address,
      and else where it was. */
  lemma ChunkIffNeeded(w: Live, e: Event)
    requires CanStep(w, e) && !e.op.Free?
    ensures w.s.chain != []
    ensures var s, v := w.s, Next(w, e);
            var fits := e.op.Demand() <= Last(s.chain).limit - s.next;
            && v.s.cfg == s.cfg && v.s.chain == (if fits then s.chain else ChainWith(s, e.grant))
            && var start := if fits then s.base else First(s.cfg, e.grant.chunk);
               if e.op.Finishes() then v.a.done != [] && Last(v.a.done).addr == start else v.s.base == start
    ensures e.op.MakeRoom? ==> var t := Next(w, e).s; t.chain != [] && e.op.length <= Last(t.chain).limit - t.next
  {
    hide First, Laid, StartAfter, AllHold, Holds, Enlarge, StepOK, Grown, Inv, ChainWith, Bounded;
    EnlargePlaces(w.s, e);
  }

  // ---------- The flag ----------

  /** An empty object was finished, or a chunk was released. */
  predicate Marks(w: Traced, v: Traced) {
    (|v.a.done| > |w.a.done| && Last(v.a.done).bytes == []) || |v.s.chain| < |w.s.chain|
  }

  /** A chunk was granted and is now the current one. */
  predicate Takes(w: Traced, v: Traced) {
    |v.s.chain| >= |w.s.chain| > 0 && Last(v.s.chain) != Last(w.s.chain)
  }

  lemma FlagAfter(w: Live, e: Event)
    requires CanStep(w, e)
    ensures var v := Next(w, e); v.s.maybeEmpty <==> Marks(w, v) || (w.s.maybeEmpty && !Takes(w, v))
  {
    if e.op.Free? {
      FlagAfterFree(w, e);
    } else {
      FlagAfterGrow(w, e);
    }
  }

  lemma FlagAfterGrow(w: Live, e: Event)
    requires CanStep(w, e) && !e.op.Free?
    ensures var v := Next(w, e); v.s.maybeEmpty <==> Marks(w, v) || (w.s.maybeEmpty && !Takes(w, v))
  {
    hide First, Laid, StartAfter, AllHold, Holds, Enlarge, StepOK, Grown;
    var t, b := Enlarge(w.s, e), Grown(w.s, w.a, e);
    EnlargePlaces(w.s, e);
    EnlargeRefines(w.s, w.a, e);
    Growing(w.s, w.a, e);
    if Room(w.s) < e.op.Demand() {
      GrantIsNew(w.s, e);
    }
    assert e.op.Finishes() ==> (Close(t).maybeEmpty <==> t.maybeEmpty || b.growing == []);
  }

  lemma FlagAfterFree(w: Live, e: Event)
    requires CanStep(w, e) && e.op.Free?
    ensures var v := Next(w, e); v.s.maybeEmpty <==> Marks(w, v) || (w.s.maybeEmpty && !Takes(w, v))
  {
    hide Laid, StartAfter, AllHold, Holds, First, FreeTo, ChunkOK, Disjoint;
    FreeStep(w.s, e);
    Home(w.s, w.a, e.op.which);
    FreeToIs(w.s, e.op.obj, HomeOf(w.s, w.a, e.op.which));
  }

  lemma GrantIsNew(s: State, e: Event)
    requires StepOK(s, e) && !e.op.Free? && Room(s) < e.op.Demand()
    ensures e.grant.chunk != Last(s.chain)
  {
  }

  /** The states a run goes through. */
  ghost function States(w: Live, run: seq<Event>): seq<Traced>
    requires RunOK(w, run)
    decreases |run|
  {
    if run == [] then [w] else [w] + States(Next(w, run[0]), run[1..])
  }

  /** Entry k is the state after k calls. */
  lemma {:induction false} StatesAre(w: Live, run: seq<Event>, k: nat)
    requires RunOK(w, run) && k <= |run|
    ensures |States(w, run)| == |run| + 1
    ensures RunOK(w, run[..k]) && States(w, run)[k] == Run(w, run[..k])
    decreases |run|
  {
    hide Next, CanStep, Inv;
    if run != [] {
      StatesAre(Next(w, run[0]), run[1..], if k > 0 then k - 1 else 0);
      if k > 0 {
        assert run[..k][1..] == run[1..][..k - 1];
      }
    }
  }

  predicate MarksAt(ss: seq<Traced>, i: int) {
    0 <= i < |ss| - 1 && Marks(ss[i], ss[i + 1])
  }

  predicate TakesAt(ss: seq<Traced>, i: int) {
    0 <= i < |ss| - 1 && Takes(ss[i], ss[i + 1])
  }

  /** No chunk was granted from step k on. */
  ghost predicate SameChunk(ss: seq<Traced>, k: int) {
    forall j | k <= j :: !TakesAt(ss, j)
  }

  ghost predicate MarkedSince(ss: seq<Traced>) {
    exists i | 0 <= i :: MarksAt(ss, i) && SameChunk(ss, i + 1)
  }

  /** After any run the flag is set exactly when, since the current chunk was
      granted, an empty object was finished or a free released a chunk; or when it
      was set before the run and no chunk was granted. */
  lemma {:induction false} FlagHistory(w: Live, run: seq<Event>)
    requires RunOK(w, run)
    ensures Run(w, run).s.maybeEmpty
       <==> MarkedSince(States(w, run)) || (w.s.maybeEmpty && SameChunk(States(w, run), 0))
    decreases |run|
  {
    hide Next, CanStep, Inv;
    if run != [] {
      var v, rest := Next(w, run[0]), run[1..];
      FlagAfter(w, run[0]);
      FlagHistory(v, rest);
      StatesAre(v, rest, 0);
      FlagShift(w, States(v, rest));
    }
  }

  lemma ShiftAt(w: Traced, ss: seq<Traced>, j: int)
    requires ss != [] && j > 0
    ensures TakesAt([w] + ss, j) <==> TakesAt(ss, j - 1)
    ensures MarksAt([w] + ss, j) <==> MarksAt(ss, j - 1)
  {
    hide Marks, Takes;
  }

  lemma SameShift(w: Traced, ss: seq<Traced>, k: nat)
    requires ss != []
    ensures SameChunk([w] + ss, k + 1) <==> SameChunk(ss, k)
  {
    hide TakesAt;
    forall j | k <= j
      ensures TakesAt([w] + ss, j + 1) <==> TakesAt(ss, j)
    {
      ShiftAt(w, ss, j + 1);
    }
    if SameChunk(ss, k) {
      forall j | k + 1 <= j
        ensures !TakesAt([w] + ss, j)
      {
        assert !TakesAt(ss, j - 1);
        ShiftAt(w, ss, j);
      }
    }
  }

  lemma FlagShift(w: Traced, ss: seq<Traced>)
    requires ss != []
    ensures SameChunk([w] + ss, 0) <==> !Takes(w, ss[0]) && SameChunk(ss, 0)
    ensures MarkedSince([w] + ss) <==> (Marks(w, ss[0]) && SameChunk(ss, 0)) || MarkedSince(ss)
  {
    var all := [w] + ss;
    assert TakesAt(all, 0) <==> Takes(w, ss[0]);
    assert MarksAt(all, 0) <==> Marks(w, ss[0]);
    hide TakesAt, MarksAt, Takes, Marks;
    SameShift(w, ss, 0);
    assert SameChunk(all, 0) <==> !TakesAt(all, 0) && SameChunk(all, 1);
    if MarkedSince(all) {
      var i :| 0 <= i && MarksAt(all, i) && SameChunk(all, i + 1);
      if i > 0 {
        ShiftAt(w, ss, i);
        SameShift(w, ss, i);
        assert MarksAt(ss, i - 1) && SameChunk(ss, i);
      }
    }
    if MarkedSince(ss) {
      var i :| 0 <= i && MarksAt(ss, i) && SameChunk(ss, i + 1);
      ShiftAt(w, ss, i + 1);
      SameShift(w, ss, i + 1);
      assert MarksAt(all, i + 1) && SameChunk(all, i + 2);
    }
  }

  /** In a new obstack the flag is clear, so after any run from there it is set
      exactly if there was such a finish or free. */
  lemma FlagExact(cfg: Config, g: Grant, run: seq<Event>)
    requires ChunkOK(cfg, g.chunk, g.fill) && RunOK(Begun(cfg, g), run)
    ensures Run(Begun(cfg, g), run).s.maybeEmpty <==> MarkedSince(States(Begun(cfg, g), run))
  {
    FlagHistory(Begun(cfg, g), run);
  }

  // ---------- Allocated memory ----------

  predicate InContents(cfg: Config, chain: seq<Chunk>, a: int) {
    exists i | 0 <= i < |chain| :: chain[i].addr + 2 * cfg.ptrBytes <= a < chain[i].limit
  }

  /** What is allocated is what the chunks of the chain hold behind their headers. */
  ghost predicate Owned(s: State) {
    forall a :: a in s.mem <==> InContents(s.cfg, s.chain, a)
  }

  lemma ContentsSnoc(cfg: Config, chain: seq<Chunk>, c: Chunk, a: int)
    ensures InContents(cfg, chain + [c], a)
       <==> InContents(cfg, chain, a) || c.addr + 2 * cfg.ptrBytes <= a < c.limit
  {
    var all := chain + [c];
    assert all[|chain|] == c;
    if i :| 0 <= i < |chain| && chain[i].addr + 2 * cfg.ptrBytes <= a < chain[i].limit {
      assert all[i] == chain[i];
    }
  }

  /** Without the last chunk, the addresses in its extent are gone, and no other. */
  lemma ContentsFront(cfg: Config, chain: seq<Chunk>, mem: Memory, a: int)
    requires ChainOK(cfg, chain, mem)
    ensures InContents(cfg, Front(chain), a)
       <==> InContents(cfg, chain, a) && !(Last(chain).addr <= a < Last(chain).limit)
  {
    hide ChunkOK;
    assert Front(chain) + [Last(chain)] == chain;
    ContentsSnoc(cfg, Front(chain), Last(chain), a);
    if i :| 0 <= i < |Front(chain)| && chain[i].addr + 2 * cfg.ptrBytes <= a < chain[i].limit {
      assert Disjoint(chain[i], chain[|chain| - 1]);
    }
  }

  lemma MoveOwned(s: State, g: Grant, moved: seq<Byte>)
    requires Bounded(s) && Owned(s) && |moved| == s.next - s.base && Serves(g, s, 0)
    ensures Owned(MoveTo(s, g, moved))
  {
    var t := MoveTo(s, g, moved);
    var dropped := g.drop && OldChunkUnused(s);
    forall a
      ensures a in t.mem <==> InContents(t.cfg, t.chain, a)
    {
      ContentsFront(s.cfg, s.chain, s.mem, a);
      ContentsSnoc(s.cfg, if dropped then Front(s.chain) else s.chain, g.chunk, a);
      assert a in t.mem <==> a in g.fill || (a in s.mem && !(dropped && Last(s.chain).addr <= a < Last(s.chain).limit));
      hide InContents, ChainOK;
    }
  }

  lemma PopOwned(s: State)
    requires ChainOK(s.cfg, s.chain, s.mem) && Owned(s)
    ensures Owned(PopChunk(s))
  {
    forall a
      ensures a in PopChunk(s).mem <==> InContents(s.cfg, Front(s.chain), a)
    {
      ContentsFront(s.cfg, s.chain, s.mem, a);
      hide InContents, ChainOK;
    }
  }

  lemma EnlargeOwned(s: State, e: Event)
    requires StepOK(s, e) && !e.op.Free? && Owned(s)
    ensures Owned(Enlarge(s, e))
  {
    assert s.chain != [] && ChunkOK(s.cfg, Last(s.chain), s.mem);
    hide First, InContents, ChainOK, Op.Appended;
    if Room(s) < e.op.Demand() {
      MoveOwned(s, e.grant, Read(s.mem, s.base, s.next - s.base));
    }
  }

  lemma {:induction false} FreeOwned(s: State, obj: int)
    requires ChainOK(s.cfg, s.chain, s.mem) && Owned(s) && Inside(s.chain, obj)
    ensures Owned(FreeTo(s, obj))
    decreases |s.chain|
  {
    if !InChunk(Last(s.chain), obj) {
      PopOwned(s);
      PopOK(s);
      FreeOwned(PopChunk(s), obj);
    }
  }

  lemma StepOwned(w: Live, e: Event)
    requires CanStep(w, e) && Owned(w.s)
    ensures Owned(Next(w, e).s)
  {
    hide First, InContents, ChainOK, Laid, StartAfter, AllHold, Holds, Enlarge, FreeTo;
    if e.op.Free? {
      FreeStep(w.s, e);
      FreeOwned(w.s, e.op.obj);
    } else {
      EnlargeOwned(w.s, e);
    }
  }

  /** Through any run, exactly the chunks of the chain are allocated: what is given
      back is gone, nothing else goes, and nothing leaks. */
  lemma {:induction false} MemoryOwned(w: Live, run: seq<Event>)
    requires RunOK(w, run) && Owned(w.s)
    ensures Owned(Run(w, run).s)
    decreases |run|
  {
    hide Next, CanStep, Owned, Inv;
    if run != [] {
      StepOwned(w, run[0]);
      MemoryOwned(Next(w, run[0]), run[1..]);
    }
  }

  /** A call that takes no chunk writes only behind what was growing. */
  lemma WritesBehind(w: Live, e: Event, a: int)
    requires CanStep(w, e) && !e.op.Free? && a in w.s.mem
    requires w.s.chain != [] && e.op.Demand() <= Last(w.s.chain).limit - w.s.next
    requires a < w.s.next || w.s.next + e.op.Demand() <= a || e.op.Skipped() != 0
    ensures a in Next(w, e).s.mem && Next(w, e).s.mem[a] == w.s.mem[a]
  {
    hide First, Laid, StartAfter, AllHold, Holds, ChainOK, Serves;
  }
}

/** Properties of whole runs of an obstack. */
module ObstackTheorems {
  import opened Align
  import opened FlatMemory
  import opened Prelude
  import opened ObstackModel
  import opened ObstackLayout
  import opened ObstackRefinement
  import opened ObstackRuns

  /** The run frees none of the first n live objects. */
  predicate Spares(run: seq<Event>, n: nat)
    decreases |run|
  {
    run == [] || ((run[0].op.Free? ==> n <= run[0].op.which) && Spares(run[1..], n))
  }

  /** In its chunk, and aligned by the mode in use: relative to that chunk when
      pointer differences are narrow, and otherwise relative to address 0. */
  predicate AlignedAt(s: State, o: Object) {
    && o.home < |s.chain|
    && InChunk(s.chain[o.home], o.addr)
    && OnGrid(if s.cfg.narrow then s.chain[o.home].addr else 0, o.addr, s.cfg.mask + 1)
  }

  /** The bounds hold, objects lie in their chunks behind the two pointers of the
      chunk's header, nothing overlaps, live bytes are where their addresses say,
      objects are aligned, and a chunk that may be given back holds no live object. */
  ghost predicate Safe(s: State, done: seq<Object>) {
    && s.chain != []
    && Last(s.chain).addr + 2 * s.cfg.ptrBytes <= s.base <= s.next <= Last(s.chain).limit
    && (forall i | 0 <= i < |done| ::
          && done[i].home < |s.chain|
          && s.chain[done[i].home].addr + 2 * s.cfg.ptrBytes <= done[i].addr
          && done[i].End() <= s.chain[done[i].home].limit)
    && AllHold(s.mem, done)
    && (forall i, j | 0 <= i < j < |done| ::
          done[i].End() <= done[j].addr || done[j].End() <= done[i].addr)
    && (forall i | 0 <= i < |done| :: done[i].End() <= s.base || s.next <= done[i].addr)
    && (forall i | 0 <= i < |done| && done[i].bytes != [] :: AlignedAt(s, done[i]))
    && (OldChunkUnused(s) ==> forall i | 0 <= i < |done| :: done[i].home < |s.chain| - 1)
  }

  lemma SafeNow(s: State, a: Stack)
    requires Inv(s, a)
    ensures Safe(s, a.done)
  {
    NoOverlap(s, a);
    Placed(s, a);
    forall i | 0 <= i < |a.done| && a.done[i].bytes != []
      ensures AlignedAt(s, a.done[i])
    {
      Aligned(s, a, i);
    }
    DropSafe(s, a);
  }

  /** Every state a run can reach from a new obstack is safe. */
  lemma ReachableSafe(cfg: Config, g: Grant, run: seq<Event>)
    requires ChunkOK(cfg, g.chunk, g.fill) && RunOK(Begun(cfg, g), run)
    ensures Safe(Run(Begun(cfg, g), run).s, Run(Begun(cfg, g), run).a.done)
  {
    hide Inv, Run, RunOK, Safe, Begun;
    var v := Run(Begun(cfg, g), run);
    SafeNow(v.s, v.a);
  }

  lemma StepSpares(w: Live, e: Event, n: nat)
    requires CanStep(w, e) && n <= |w.a.done| && (e.op.Free? ==> n <= e.op.which)
    ensures n <= |Next(w, e).a.done| && Next(w, e).a.done[..n] == w.a.done[..n]
  {
    hide Inv, Bounded, Laid, StartAfter;
  }

  /** Through any run, objects that are not freed keep address, bytes and place. */
  lemma {:induction false} ObjectsSurvive(w: Live, run: seq<Event>, n: nat)
    requires RunOK(w, run) && n <= |w.a.done| && Spares(run, n)
    ensures n <= |Run(w, run).a.done| && Run(w, run).a.done[..n] == w.a.done[..n]
    ensures AllHold(Run(w, run).s.mem, w.a.done[..n])
    decreases |run|
  {
    hide Step, Track;
    if run != [] {
      StepSpares(w, run[0], n);
      ObjectsSurvive(Next(w, run[0]), run[1..], n);
    }
  }

  /** The chunks up to the one of a live object stay in the chain. */
  lemma EnlargeChain(s: State, a: Stack, e: Event, k: nat)
    requires Inv(s, a) && StepOK(s, e) && !e.op.Free? && k < |a.done|
    ensures a.done[k].home < |s.chain| && a.done[k].home < |Enlarge(s, e).chain|
    ensures Enlarge(s, e).chain[..a.done[k].home + 1] == s.chain[..a.done[k].home + 1]
  {
    hide First, Laid, StartAfter, AllHold, Holds, ChunkOK;
    Home(s, a, k);
    DropSafe(s, a);
    assert Enlarge(s, e).chain == Reserve(s, e.op.Demand(), e.grant).chain;
  }

  lemma FreeChain(s: State, a: Stack, k: nat, w: nat)
    requires Inv(s, a) && k < w <= |a.done|
    ensures Inside(s.chain, AddressOf(s, a, w))
    ensures var t := FreeTo(s, AddressOf(s, a, w));
            && a.done[k].home < |s.chain| && a.done[k].home < |t.chain|
            && t.chain[..a.done[k].home + 1] == s.chain[..a.done[k].home + 1]
  {
    Home(s, a, k);
    Home(s, a, w);
    if w < |a.done| {
      LaidOrder(s.cfg, s.chain, a.done, k, w);
    }
    FreeToIs(s, AddressOf(s, a, w), HomeOf(s, a, w));
  }

  lemma StepChain(w: Live, e: Event, k: nat)
    requires CanStep(w, e) && k < |w.a.done| && (e.op.Free? ==> k < e.op.which)
    ensures w.a.done[k].home < |w.s.chain| && w.a.done[k].home < |Next(w, e).s.chain|
    ensures Next(w, e).s.chain[..w.a.done[k].home + 1] == w.s.chain[..w.a.done[k].home + 1]
  {
    hide Inv, Bounded, Laid, StartAfter;
    if e.op.Free? {
      FreeChain(w.s, w.a, k, e.op.which);
    } else {
      EnlargeChain(w.s, w.a, e, k);
    }
  }

  lemma {:induction false} ChainKept(w: Live, run: seq<Event>, k: nat)
    requires RunOK(w, run) && k < |w.a.done| && Spares(run, k + 1)
    ensures w.a.done[k].home < |w.s.chain| && w.a.done[k].home < |Run(w, run).s.chain|
    ensures Run(w, run).s.chain[..w.a.done[k].home + 1] == w.s.chain[..w.a.done[k].home + 1]
    decreases |run|
  {
    hide Next, Inv;
    if run == [] {
      Home(w.s, w.a, k);
    } else {
      var v := Next(w, run[0]);
      StepSpares(w, run[0], k + 1);
      assert v.a.done[k] == v.a.done[..k + 1][k] == w.a.done[..k + 1][k];
      StepChain(w, run[0], k);
      ChainKept(v, run[1..], k);
    }
  }

  /** Unwinding: after any run that frees nothing older, freeing the first object
      made since brings the stack back to what it was, and its address is where
      the next object starts. */
  lemma UnwindExact(w: Live, run: seq<Event>)
    requires RunOK(w, run) && Spares(run, |w.a.done|)
    ensures var v, n := Run(w, run), |w.a.done|;
            && n <= |v.a.done|
            && Inside(v.s.chain, AddressOf(v.s, v.a, n))
            && Inv(FreeTo(v.s, AddressOf(v.s, v.a, n)), Stack(w.a.done, []))
            && FreeTo(v.s, AddressOf(v.s, v.a, n)).base == AddressOf(v.s, v.a, n)
  {
    var v, n := Run(w, run), |w.a.done|;
    ObjectsSurvive(w, run, n);
    assert v.a.done[..n] == w.a.done[..n] == w.a.done;
    FreeRefines(v.s, v.a, n);
    Home(v.s, v.a, n);
    FreeToIs(v.s, AddressOf(v.s, v.a, n), HomeOf(v.s, v.a, n));
  }

  ghost function FinishNow(w: Live): (v: Live)
  {
    CloseRefines(w.s, w.a);
    Traced(Close(w.s), Closed(w.s, w.a))
  }

  /** Finish, run on, then free the pointer finish returned: the obstack is back
      in the very chunks and at the very address where it stood. */
  lemma FinishThenFree(w: Live, run: seq<Event>)
    requires RunOK(FinishNow(w), run) && Spares(run, |w.a.done| + 1)
    ensures var t := Run(FinishNow(w), run).s;
            && Inside(t.chain, w.s.base)
            && FreeTo(t, w.s.base).chain == w.s.chain
            && FreeTo(t, w.s.base).base == FreeTo(t, w.s.base).next == w.s.base
            && Inv(FreeTo(t, w.s.base), Stack(w.a.done, []))
  {
    hide Next, Inv, Run, RunOK, FreeTo, FinishNow, CanStep;
    var v := Run(FinishNow(w), run);
    AfterFinish(w, run);
    ChainNotEmpty(w);
    FreeReturns(v.s, v.a, |w.a.done|, w.s.chain, w.s.base, w.a.done);
  }

  lemma ChainNotEmpty(w: Live)
    ensures w.s.chain != []
  {
  }

  lemma FreeReturns(t: State, b: Stack, n: nat, chain: seq<Chunk>, base: int, done: seq<Object>)
    requires Inv(t, b) && n < |b.done| && b.done[..n] == done && b.done[n].addr == base
    requires chain != [] && b.done[n].home == |chain| - 1
    requires |chain| <= |t.chain| && t.chain[..|chain|] == chain
    ensures Inside(t.chain, base)
    ensures FreeTo(t, base).chain == chain && FreeTo(t, base).base == FreeTo(t, base).next == base
    ensures Inv(FreeTo(t, base), Stack(done, []))
  {
    hide Laid, StartAfter, First, FreeTo;
    Home(t, b, n);
    FreeRefines(t, b, n);
    FreeToIs(t, base, |chain| - 1);
  }

  /** The object just finished, and the chunks up to its own, outlast the run. */
  lemma AfterFinish(w: Live, run: seq<Event>)
    requires RunOK(FinishNow(w), run) && Spares(run, |w.a.done| + 1)
    ensures var v, n := Run(FinishNow(w), run), |w.a.done|;
            && n < |v.a.done| && v.a.done[..n] == w.a.done
            && v.a.done[n] == Object(w.s.base, w.a.growing, |w.s.chain| - 1)
            && |w.s.chain| <= |v.s.chain| && v.s.chain[..|w.s.chain|] == w.s.chain
  {
    hide Next, Inv, Run, RunOK, Bounded;
    var n, u := |w.a.done|, FinishNow(w);
    var b := Run(u, run).a;
    ObjectsSurvive(u, run, n + 1);
    assert b.done[n] == b.done[..n + 1][n] == u.a.done[n];
    assert b.done[..n] == b.done[..n + 1][..n] == w.a.done;
    ChainKept(u, run, n);
  }

  /** The run neither finishes nor frees. */
  predicate OnlyGrows(run: seq<Event>)
    decreases |run|
  {
    run == [] || (!run[0].op.Free? && !run[0].op.Finishes() && OnlyGrows(run[1..]))
  }

  /** What is known of the growing string: the bytes that were written to it. */
  type Pattern = seq<Option<Byte>>

  function Known(bytes: seq<Byte>): Pattern {
    seq(|bytes|, i requires 0 <= i < |bytes| => Some(bytes[i]))
  }

  function Unknown(n: nat): Pattern {
    seq(n, _ => None)
  }

  ghost predicate Fits(bytes: seq<Byte>, pattern: Pattern) {
    |bytes| == |pattern| && forall i | 0 <= i < |bytes| :: pattern[i].Some? ==> pattern[i].value == bytes[i]
  }

  /** A call writes its bytes behind what is there, skips over bytes it does not
      write, or cuts the end off. */
  function Extended(pattern: Pattern, op: Op): Pattern {
    if op.Skipped() >= 0 then pattern + Known(op.Appended()) + Unknown(op.Skipped())
    else pattern[..Max(0, |pattern| + op.Skipped())]
  }

  function GrownPattern(run: seq<Event>, pattern: Pattern): Pattern
    decreases |run|
  {
    if run == [] then pattern else GrownPattern(run[1..], Extended(pattern, run[0].op))
  }

  /** The growing part of one call keeps to the pattern. */
  lemma GrownFits(s: State, a: Stack, e: Event, pattern: Pattern)
    requires Inv(s, a) && StepOK(s, e) && !e.op.Free? && Fits(a.growing, pattern)
    ensures Grown(s, a, e).done == a.done && Fits(Grown(s, a, e).growing, Extended(pattern, e.op))
  {
    hide First, Laid, StartAfter, AllHold, Holds, ChunkOK, Disjoint;
    assert e.op.Skipped() != 0 ==> e.op.Appended() == [];
    assert Grown(s, a, e).growing == a.growing + e.op.Appended() || e.op.Skipped() != 0;
  }

  /** However often the growing object moved, every byte written to it is at its
      place, and its length is what was written and skipped, less what was cut. */
  lemma {:induction false} GrowthFits(w: Live, run: seq<Event>, pattern: Pattern)
    requires RunOK(w, run) && OnlyGrows(run) && Fits(w.a.growing, pattern)
    ensures Run(w, run).a.done == w.a.done
    ensures Fits(Run(w, run).a.growing, GrownPattern(run, pattern))
    decreases |run|
  {
    hide Step, Inv, Fits, Extended, Grown;
    if run != [] {
      GrownFits(w.s, w.a, run[0], pattern);
      GrowthFits(Next(w, run[0]), run[1..], Extended(pattern, run[0].op));
    }
  }

  /** No call of the run skips or cuts. */
  predicate WritesAll(run: seq<Event>)
    decreases |run|
  {
    run == [] || (run[0].op.Skipped() == 0 && WritesAll(run[1..]))
  }

  function AllAppended(run: seq<Event>): seq<Byte>
    decreases |run|
  {
    if run == [] then [] else run[0].op.Appended() + AllAppended(run[1..])
  }

  lemma ExtendedKnown(bytes: seq<Byte>, op: Op)
    requires op.Skipped() == 0
    ensures Extended(Known(bytes), op) == Known(bytes + op.Appended())
  {
  }

  lemma {:induction false} PatternKnown(run: seq<Event>, bytes: seq<Byte>)
    requires WritesAll(run)
    ensures GrownPattern(run, Known(bytes)) == Known(bytes + AllAppended(run))
    decreases |run|
  {
    hide Known, Extended, Op.Appended, Op.Skipped;
    if run == [] {
      assert bytes + [] == bytes;
    } else {
      var more := bytes + run[0].op.Appended();
      ExtendedKnown(bytes, run[0].op);
      PatternKnown(run[1..], more);
      assert more + AllAppended(run[1..]) == bytes + AllAppended(run);
    }
  }

  /** If nothing was skipped or cut, the growing object is the concatenation of
      what was appended. */
  lemma GrowthConcatenates(w: Live, run: seq<Event>)
    requires RunOK(w, run) && OnlyGrows(run) && WritesAll(run)
    ensures Run(w, run).a == Stack(w.a.done, w.a.growing + AllAppended(run))
  {
    hide RunOK, Run, Inv;
    GrowthFits(w, run, Known(w.a.growing));
    PatternKnown(run, w.a.growing);
    assert Run(w, run).a.growing == w.a.growing + AllAppended(run);
  }

  /** A finishing call after such a run returns the address of an object of exactly
      the bytes written and skipped since the last finish, which it holds. */
  lemma FinishYieldsGrowth(w: Live, run: seq<Event>, e: Event)
    requires RunOK(w, run) && OnlyGrows(run)
    requires CanStep(Run(w, run), e) && e.op.Finishes()
    ensures var v, u := Run(w, run), Next(Run(w, run), e);
            var pattern := Extended(GrownPattern(run, Known(w.a.growing)), e.op);
            && u.a.growing == [] && u.a.done != [] && Front(u.a.done) == w.a.done
            && Returned(v.s, e) == Some(Last(u.a.done).addr)
            && Fits(Last(u.a.done).bytes, pattern)
            && Holds(u.s.mem, Last(u.a.done).addr, Last(u.a.done).bytes)
  {
    hide RunOK, Run, First, Laid, StartAfter, ChunkOK;
    GrowthFits(w, run, Known(w.a.growing));
    var v := Run(w, run);
    GrownFits(v.s, v.a, e, GrownPattern(run, Known(w.a.growing)));
  }

  function FastGrows(bytes: seq<Byte>, g: Grant): seq<Event> {
    if bytes == [] then [] else [Event(OneGrowFast(bytes[0]), g)] + FastGrows(bytes[1..], g)
  }

  /** In the room at hand an unchecked grow stays in bounds and is one store. */
  lemma FastStep(w: Live, datum: Byte, g: Grant)
    requires Room(w.s) >= 1
    ensures CanStep(w, Event(OneGrowFast(datum), g))
    ensures Next(w, Event(OneGrowFast(datum), g))
         == Traced(Put(w.s, [datum]), w.a.(growing := w.a.growing + [datum]))
  {
  }

  lemma RunCons(w: Live, e: Event, rest: seq<Event>)
    requires CanStep(w, e) && RunOK(Next(w, e), rest)
    ensures RunOK(w, [e] + rest) && Run(w, [e] + rest) == Run(Next(w, e), rest)
  {
    assert ([e] + rest)[1..] == rest;
  }

  /** Within the room at hand, unchecked single-byte grows stay in bounds and
      together do what one store of all the bytes does. */
  lemma {:induction false} FastGrowsArePut(w: Live, bytes: seq<Byte>, g: Grant)
    requires |bytes| <= Room(w.s)
    ensures RunOK(w, FastGrows(bytes, g))
    ensures Run(w, FastGrows(bytes, g)).s == Put(w.s, bytes)
    decreases |bytes|
  {
    if bytes == [] {
      PutNothing(w.s);
    } else {
      var e, rest := Event(OneGrowFast(bytes[0]), g), bytes[1..];
      FastStep(w, bytes[0], g);
      FastGrowsArePut(Next(w, e), rest, g);
      PutTwice(w.s, [bytes[0]], rest);
      assert [bytes[0]] + rest == bytes;
      RunCons(w, e, FastGrows(rest, g));
    }
  }

  /** `obstack_make_room` followed by fast grows is one `obstack_grow`. */
  lemma MakeRoomThenFast(w: Live, bytes: seq<Byte>, g: Grant)
    requires CanStep(w, Event(Grow(bytes), g))
    ensures var run := [Event(MakeRoom(|bytes|), g)] + FastGrows(bytes, g);
            RunOK(w, run) && Run(w, run).s == Next(w, Event(Grow(bytes), g)).s
  {
    var e := Event(MakeRoom(|bytes|), g);
    MakeRoomStep(w, bytes, g);
    FastGrowsArePut(Next(w, e), bytes, g);
    RunCons(w, e, FastGrows(bytes, g));
  }

  lemma MakeRoomStep(w: Live, bytes: seq<Byte>, g: Grant)
    requires CanStep(w, Event(Grow(bytes), g))
    ensures CanStep(w, Event(MakeRoom(|bytes|), g))
    ensures var r := Next(w, Event(MakeRoom(|bytes|), g)).s;
            |bytes| <= Room(r) && Next(w, Event(Grow(bytes), g)).s == Put(r, bytes)
  {
    hide Inv, First, Laid, StartAfter, AllHold, Holds, ChunkOK;
    ReserveBounded(w.s, |bytes|, g);
    PutNothing(Reserve(w.s, |bytes|, g));
  }
}

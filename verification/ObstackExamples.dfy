/** Runs on which finish leaves the base unaligned and `obstack_empty_p` differs
    from what its name suggests. */
module ObstackExamples {
  import opened Align
  import opened ObstackModel
  import opened ObstackLayout
  import opened ObstackRefinement
  import opened ObstackRuns
  import opened ObstackTheorems

  const BY_FOUR := Config(1, 1, false, 3)

  const BY_ONE := Config(1, 1, false, 0)

  const SIX := Grant(Chunk(1, 6), map[3 := 0, 4 := 0, 5 := 0], false)

  const FIVE := Grant(Chunk(1, 5), map[3 := 0, 4 := 0], false)

  const TEN := Grant(Chunk(10, 15), map[12 := 0, 13 := 0, 14 := 0], true)

  lemma AlignByOne(p: nat)
    ensures BptrAlign(0, p, 0) == p
  {
    AndNotMask(p, 0);
  }

  lemma ByFourFirst()
    ensures First(BY_FOUR, SIX.chunk) == 4 && BptrAlign(0, 5, 3) == 8
  {
    assert AndNot(6, 3) == 4 && AndNot(8, 3) == 8;
  }

  lemma ByFourStart()
    ensures ChunkOK(BY_FOUR, SIX.chunk, SIX.fill)
    ensures var s := Begun(BY_FOUR, SIX).s; s.cfg == BY_FOUR && s.chain == [SIX.chunk] && s.base == s.next == 4
  {
    ByFourFirst();
  }

  lemma ByFourGrow(w: Live, e: Event)
    requires w.s.cfg == BY_FOUR && w.s.chain == [SIX.chunk] && w.s.base == w.s.next == 4
    requires e.op == OneGrow(0)
    ensures CanStep(w, e)
    ensures var s := Next(w, e).s; s.cfg == BY_FOUR && s.chain == [SIX.chunk] && s.base == 4 && s.next == 5
  {
    hide AndNot, IsMask, BptrAlign, Laid;
    AppendStep(w.s, e);
  }

  lemma ByFourFinish(w: Live, e: Event)
    requires w.s.cfg == BY_FOUR && w.s.chain == [SIX.chunk] && w.s.base == 4 && w.s.next == 5
    requires BptrAlign(0, 5, 3) == 8 && e.op == Finish
    ensures CanStep(w, e) && Next(w, e).s.base == 6
  {
    hide AndNot, IsMask, BptrAlign, Laid;
    FinishStep(w.s, e);
  }

  /** One byte grown, then finished: the base is at the chunk's end, unaligned. */
  lemma FinishUnaligned()
    ensures ChunkOK(BY_FOUR, SIX.chunk, SIX.fill)
    ensures var w, run := Begun(BY_FOUR, SIX), [Event(OneGrow(0), SIX), Event(Finish, SIX)];
            RunOK(w, run) && Run(w, run).s.base == 6 && !OnGrid(0, 6, BY_FOUR.mask + 1)
  {
    ByFourFirst();
    ByFourStart();
    hide Next, CanStep, Inv, First, Begun, Run, RunOK;
    var w, e, f := Begun(BY_FOUR, SIX), Event(OneGrow(0), SIX), Event(Finish, SIX);
    ByFourGrow(w, e);
    ByFourFinish(Next(w, e), f);
    RunOne(Next(w, e), f);
    RunCons(w, e, [f]);
    assert [e] + [f] == [e, f];
  }

  /** An object of size zero is live, and the obstack counts as empty. */
  lemma EmptyThoughLive()
    ensures ChunkOK(BY_ONE, FIVE.chunk, FIVE.fill)
    ensures var v := FinishNow(Begun(BY_ONE, FIVE));
            EmptyP(v.s) && |v.a.done| == 1
  {
    AlignByOne(3);
    assert First(BY_ONE, FIVE.chunk) == 3;
  }

  /** A one-chunk state with nothing growing and the base at the chunk's start. */
  ghost predicate AtStart(w: Live) {
    w.s.cfg == BY_ONE && w.s.chain == [FIVE.chunk] && w.s.base == w.s.next == 3
  }

  lemma ByOneFinish(w: Live, e: Event)
    requires AtStart(w) && w.a == Stack([], []) && e.op == Finish
    ensures CanStep(w, e) && AtStart(Next(w, e)) && Next(w, e).s.maybeEmpty
    ensures Next(w, e).a == Stack([Object(3, [], 0)], [])
  {
    AlignByOne(3);
    hide AndNot, IsMask, BptrAlign, Laid;
    FinishStep(w.s, e);
  }

  lemma ByOneFree(w: Live, e: Event)
    requires AtStart(w) && w.s.maybeEmpty && w.a == Stack([Object(3, [], 0)], []) && e.op == Free(3, 0)
    ensures CanStep(w, e) && AtStart(Next(w, e)) && Next(w, e).s.maybeEmpty
    ensures Next(w, e).a == Stack([], [])
  {
    hide AndNot, IsMask, BptrAlign, Laid;
    assert First(w.s.cfg, w.s.chain[0]) <= 3 <= w.s.chain[0].limit;
    FreeStep(w.s, e);
  }

  lemma ByOneGrow(w: Live, e: Event)
    requires AtStart(w) && w.s.maybeEmpty && w.a == Stack([], []) && e == Event(Grow([0, 0, 0]), TEN)
    ensures CanStep(w, e)
    ensures var v := Next(w, e);
            v.s.cfg == BY_ONE && v.s.chain == [FIVE.chunk, TEN.chunk] && v.s.base == 12 && v.a.done == []
  {
    AlignByOne(12);
    hide AndNot, IsMask, BptrAlign, Laid;
    assert First(BY_ONE, TEN.chunk) == 12;
    AppendStep(w.s, e);
  }

  lemma ByOneFreeGrowing(w: Live, e: Event)
    requires w.s.cfg == BY_ONE && w.s.chain == [FIVE.chunk, TEN.chunk] && w.s.base == 12 && w.a.done == []
    requires e.op == Free(12, 0)
    ensures CanStep(w, e)
    ensures Next(w, e).s.chain == w.s.chain && Next(w, e).a == Stack([], [])
  {
    hide AndNot, IsMask, BptrAlign, Laid;
    assert First(w.s.cfg, w.s.chain[1]) <= 12 <= w.s.chain[1].limit;
    FreeStep(w.s, e);
  }

  /** Nothing is live or growing, and the obstack does not count as empty: the
      first chunk was kept for an empty object that has since been freed. */
  lemma NotEmptyThoughNothingLive()
    ensures ChunkOK(BY_ONE, FIVE.chunk, FIVE.fill)
    ensures var w := Begun(BY_ONE, FIVE);
            var run := [Event(Finish, FIVE), Event(Free(3, 0), FIVE),
                        Event(Grow([0, 0, 0]), TEN), Event(Free(12, 0), TEN)];
            RunOK(w, run) && Run(w, run).a == Stack([], []) && !EmptyP(Run(w, run).s)
  {
    ByOneStart();
    hide Next, CanStep, Inv, First, Begun, AtStart, Run, RunOK;
    var w := Begun(BY_ONE, FIVE);
    var e1, e2 := Event(Finish, FIVE), Event(Free(3, 0), FIVE);
    var e3, e4 := Event(Grow([0, 0, 0]), TEN), Event(Free(12, 0), TEN);
    ByOneFinish(w, e1);
    var w1 := Next(w, e1);
    ByOneFree(w1, e2);
    var w2 := Next(w1, e2);
    ByOneGrow(w2, e3);
    var w3 := Next(w2, e3);
    ByOneFreeGrowing(w3, e4);
    RunOne(w3, e4);
    RunCons(w2, e3, [e4]);
    RunCons(w1, e2, [e3] + [e4]);
    RunCons(w, e1, [e2] + ([e3] + [e4]));
    assert [e1] + ([e2] + ([e3] + [e4])) == [e1, e2, e3, e4];
  }

  lemma RunOne(w: Live, e: Event)
    requires CanStep(w, e)
    ensures RunOK(w, [e]) && Run(w, [e]) == Next(w, e)
  {
    hide CanStep, Next;
  }

  lemma ByOneStart()
    ensures ChunkOK(BY_ONE, FIVE.chunk, FIVE.fill)
    ensures AtStart(Begun(BY_ONE, FIVE)) && Begun(BY_ONE, FIVE).a == Stack([], [])
  {
    AlignByOne(3);
    assert First(BY_ONE, FIVE.chunk) == 3;
  }
}

/** Where the live objects of an obstack lie.

    Every object starts at the first aligned byte of its chunk or, when its
    predecessor is in the same chunk, at the next aligned address after that
    predecessor, held back to the end of the chunk. */
module ObstackLayout {
  import opened Align
  import opened Prelude
  import opened ObstackModel

  /** A finished object: its address, its bytes and the index of its chunk. */
  datatype Object = Object(addr: int, bytes: seq<Byte>, home: nat)
  {
    function End(): int {
      addr + |bytes|
    }
  }

  function Origin(cfg: Config, c: Chunk): nat {
    if cfg.narrow then c.addr else 0
  }

  /** Where the object following `done` starts when chunk `h` is current. */
  function StartAfter(cfg: Config, chain: seq<Chunk>, done: seq<Object>, h: nat): int
    requires h < |chain|
    requires done != [] && Last(done).home == h ==> chain[h].addr <= Last(done).End()
  {
    if done == [] || Last(done).home < h then First(cfg, chain[h])
    else if Last(done).home == h then
      Min(BptrAlign(Origin(cfg, chain[h]), Last(done).End(), cfg.mask), chain[h].limit)
    else chain[h].limit
  }

  predicate Laid(cfg: Config, chain: seq<Chunk>, done: seq<Object>)
    ensures Laid(cfg, chain, done) && done != [] ==>
              Last(done).home < |chain| && chain[Last(done).home].addr <= Last(done).End()
    decreases |done|
  {
    done == [] ||
    var o, before := Last(done), Front(done);
    && Laid(cfg, chain, before)
    && o.home < |chain|
    && (before != [] ==> Last(before).home <= o.home)
    && o.addr == StartAfter(cfg, chain, before, o.home)
    && chain[o.home].addr <= o.addr
    && o.End() <= chain[o.home].limit
  }

  lemma LaidSnoc(cfg: Config, chain: seq<Chunk>, done: seq<Object>, o: Object)
    requires Laid(cfg, chain, done)
    requires o.home < |chain| && (done != [] ==> Last(done).home <= o.home)
    requires o.addr == StartAfter(cfg, chain, done, o.home)
    requires chain[o.home].addr <= o.addr && o.End() <= chain[o.home].limit
    ensures Laid(cfg, chain, done + [o])
  {
    assert Front(done + [o]) == done && Last(done + [o]) == o;
  }

  /** Each prefix of a laid-out sequence is laid out. */
  lemma {:induction false} LaidPrefix(cfg: Config, chain: seq<Chunk>, done: seq<Object>, k: nat)
    requires Laid(cfg, chain, done) && k <= |done|
    ensures Laid(cfg, chain, done[..k])
    decreases |done|
  {
    if k < |done| {
      LaidPrefix(cfg, chain, Front(done), k);
      assert Front(done)[..k] == done[..k];
    } else {
      assert done[..k] == done;
    }
  }

  /** The layout depends only on the chunks that hold objects. */
  lemma {:induction false} LaidSameChunks(cfg: Config, chain: seq<Chunk>, chain': seq<Chunk>, done: seq<Object>)
    requires Laid(cfg, chain, done)
    requires forall i | 0 <= i < |done| ::
               done[i].home < |chain| && done[i].home < |chain'| && chain'[done[i].home] == chain[done[i].home]
    ensures Laid(cfg, chain', done)
    decreases |done|
  {
    if done != [] {
      var before := Front(done);
      LaidSameChunks(cfg, chain, chain', before);
      assert done[|done| - 1] == Last(done);
      assert before != [] ==> Last(before) == done[|done| - 2];
    }
  }

  /** Each object of a layout starts where the objects before it say. */
  lemma LaidAt(cfg: Config, chain: seq<Chunk>, done: seq<Object>, k: nat)
    requires Laid(cfg, chain, done) && k < |done|
    ensures Laid(cfg, chain, done[..k]) && done[k].home < |chain|
    ensures k > 0 ==> Last(done[..k]).home <= done[k].home
    ensures done[k].addr == StartAfter(cfg, chain, done[..k], done[k].home)
  {
    LaidPrefix(cfg, chain, done, k);
    LaidPrefix(cfg, chain, done, k + 1);
    assert Front(done[..k + 1]) == done[..k] && Last(done[..k + 1]) == done[k];
  }

  lemma {:induction false} LaidHomes(cfg: Config, chain: seq<Chunk>, done: seq<Object>)
    requires Laid(cfg, chain, done) && done != []
    ensures forall i | 0 <= i < |done| :: done[i].home <= Last(done).home < |chain|
    decreases |done|
  {
    var before := Front(done);
    if before != [] {
      LaidHomes(cfg, chain, before);
    }
    assert forall i | 0 <= i < |done| - 1 :: done[i] == before[i];
  }

  /** A layout, and the start after it, survive the release of higher chunks. */
  lemma LaidTruncate(cfg: Config, chain: seq<Chunk>, done: seq<Object>, h: nat)
    requires Laid(cfg, chain, done) && h < |chain| && (done != [] ==> Last(done).home <= h)
    ensures Laid(cfg, chain[..h + 1], done)
    ensures StartAfter(cfg, chain[..h + 1], done, h) == StartAfter(cfg, chain, done, h)
  {
    if done != [] {
      LaidHomes(cfg, chain, done);
      LaidSameChunks(cfg, chain, chain[..h + 1], done);
    }
  }

  /** A starting point lies in its chunk, above everything already in that chunk. */
  lemma {:induction false} StartBounds(cfg: Config, chain: seq<Chunk>, done: seq<Object>, h: nat)
    requires Laid(cfg, chain, done) && h < |chain|
    requires done != [] ==> Last(done).home <= h
    requires forall i | 0 <= i < |chain| :: First(cfg, chain[i]) <= chain[i].limit
    ensures First(cfg, chain[h]) <= StartAfter(cfg, chain, done, h) <= chain[h].limit
    ensures chain[h].addr + 2 * cfg.ptrBytes <= StartAfter(cfg, chain, done, h)
    ensures forall i | 0 <= i < |done| ::
              && done[i].home <= h && First(cfg, chain[done[i].home]) <= done[i].addr
              && done[i].End() <= chain[done[i].home].limit
              && (done[i].home == h ==> done[i].End() <= StartAfter(cfg, chain, done, h))
    decreases |done|
  {
    if done != [] {
      var o, before := Last(done), Front(done);
      StartBounds(cfg, chain, before, o.home);
      if o.home == h {
        AlignBounds(Origin(cfg, chain[h]), o.End(), cfg.mask);
      }
      forall i | 0 <= i < |done|
        ensures done[i].home <= h && First(cfg, chain[done[i].home]) <= done[i].addr
        ensures done[i].End() <= chain[done[i].home].limit
        ensures done[i].home == h ==> done[i].End() <= StartAfter(cfg, chain, done, h)
      {
        if i < |done| - 1 {
          assert done[i] == before[i];
        }
      }
    }
  }

  /** A starting point is aligned unless it was held back to the end of its chunk. */
  lemma StartOnGrid(cfg: Config, chain: seq<Chunk>, done: seq<Object>, h: nat)
    requires Laid(cfg, chain, done) && h < |chain|
    requires done != [] ==> Last(done).home <= h
    ensures var p := StartAfter(cfg, chain, done, h);
            p == chain[h].limit || OnGrid(Origin(cfg, chain[h]), p, cfg.mask + 1)
  {
    hide IsMask, AndNot;
    var c := chain[h];
    if done == [] || Last(done).home < h {
      BptrAlignOnGrid(Origin(cfg, c), Contents(cfg, c), cfg.mask);
    } else {
      BptrAlignOnGrid(Origin(cfg, c), Last(done).End(), cfg.mask);
    }
  }

  lemma LaidOnGrid(cfg: Config, chain: seq<Chunk>, done: seq<Object>, i: nat)
    requires Laid(cfg, chain, done) && i < |done| && done[i].bytes != []
    ensures done[i].home < |chain|
    ensures OnGrid(Origin(cfg, chain[done[i].home]), done[i].addr, cfg.mask + 1)
  {
    LaidPrefix(cfg, chain, done, i + 1);
    var upTo := done[..i + 1];
    assert Last(upTo) == done[i];
    StartOnGrid(cfg, chain, Front(upTo), done[i].home);
  }

  /** The objects of a layout, in order, occupy increasing parts of their chunks. */
  lemma LaidOrder(cfg: Config, chain: seq<Chunk>, done: seq<Object>, i: nat, j: nat)
    requires Laid(cfg, chain, done) && i < j < |done|
    requires forall i | 0 <= i < |chain| :: First(cfg, chain[i]) <= chain[i].limit
    ensures done[i].home <= done[j].home < |chain|
    ensures done[i].home == done[j].home ==> done[i].End() <= done[j].addr
  {
    hide First, StartAfter;
    LaidPrefix(cfg, chain, done, j + 1);
    var upTo := done[..j + 1];
    assert Last(upTo) == done[j] && Front(upTo) == done[..j];
    StartBounds(cfg, chain, Front(upTo), done[j].home);
    assert Front(upTo)[i] == done[i];
  }

  /** `obstack_finish` aligns relative to the object's own base; that is the
      layout's alignment because bases are on the grid or at the chunk's end. */
  lemma CloseStop(cfg: Config, c: Chunk, base: int, next: int)
    requires c.addr <= base <= next <= c.limit
    requires base == c.limit || OnGrid(Origin(cfg, c), base, cfg.mask + 1)
    ensures Min(PtrAlign(cfg.narrow, base, next, cfg.mask), c.limit)
         == Min(BptrAlign(Origin(cfg, c), next, cfg.mask), c.limit)
    ensures next <= Min(PtrAlign(cfg.narrow, base, next, cfg.mask), c.limit)
  {
    hide IsMask, AndNot, OnGrid, BptrAlign;
    AlignBounds(Origin(cfg, c), next, cfg.mask);
    if cfg.narrow {
      if base == c.limit {
        AlignBounds(base, next, cfg.mask);
      } else {
        BptrAlignRebase(c.addr, base, next, cfg.mask);
      }
    }
  }

  lemma CloseStopAfter(cfg: Config, chain: seq<Chunk>, done: seq<Object>, h: nat, next: int)
    requires Laid(cfg, chain, done) && h < |chain|
    requires done != [] ==> Last(done).home <= h
    requires chain[h].addr <= StartAfter(cfg, chain, done, h) <= next <= chain[h].limit
    ensures var base, c := StartAfter(cfg, chain, done, h), chain[h];
            var stop := Min(PtrAlign(cfg.narrow, base, next, cfg.mask), c.limit);
            stop == Min(BptrAlign(Origin(cfg, c), next, cfg.mask), c.limit) && next <= stop
  {
    hide IsMask, AndNot, OnGrid, BptrAlign;
    StartOnGrid(cfg, chain, done, h);
    CloseStop(cfg, chain[h], StartAfter(cfg, chain, done, h), next);
  }
}

/** The control structure of an obstack, updated in place. */
module ObstackStruct {
  import opened FlatMemory
  import opened Prelude
  import opened ObstackModel
  import opened ObstackRuns

  /** `struct obstack`, with the chunk headers it reaches through `chunk` and
      `prev` (the oldest first) and the memory it works on. The two members of
      the union `temp` share one field. */
  class Obstack {
    const cfg: Config
    var chunk: int
    var objectBase: int
    var nextFree: int
    var chunkLimit: int
    var temp: int
    var maybeEmptyObject: bool
    var headers: seq<Chunk>
    var mem: Memory

    /** The fields `chunk` and `chunk_limit` describe the last chunk. */
    ghost predicate Valid()
      reads this
    {
      headers != [] && chunk == Last(headers).addr && chunkLimit == Last(headers).limit
    }

    function View(): State
      reads this
    {
      State(cfg, headers, objectBase, nextFree, maybeEmptyObject, mem)
    }

    constructor Begin(cfg: Config, g: Grant)
      ensures Valid() && View() == Fresh(cfg, g).s
    {
      this.cfg := cfg;
      chunk := g.chunk.addr;
      chunkLimit := g.chunk.limit;
      objectBase := First(cfg, g.chunk);
      nextFree := First(cfg, g.chunk);
      temp := 0;
      maybeEmptyObject := false;
      headers := [g.chunk];
      mem := g.fill;
    }

    /** Contract of `_obstack_newchunk`; `temp` survives the call. */
    method NewChunk(length: int, g: Grant)
      requires Valid() && Bounded(View()) && length >= 0 && Serves(g, View(), length)
      modifies this
      ensures Valid() && View() == ObstackModel.NewChunk(old(View()), length, g)
      ensures temp == old(temp)
    {
      var s := ObstackModel.NewChunk(View(), length, g);
      headers, mem := s.chain, s.mem;
      chunk, chunkLimit := g.chunk.addr, g.chunk.limit;
      objectBase, nextFree, maybeEmptyObject := s.base, s.next, false;
    }

    /** Contract of the function `obstack_free`. */
    method FreeFunction(obj: int)
      requires Valid() && Inside(headers, obj)
      modifies this
      ensures Valid() && View() == FreeTo(old(View()), obj)
      ensures temp == old(temp)
    {
      var s := FreeTo(View(), obj);
      FreeToKeepsChunk(View(), obj);
      headers, mem := s.chain, s.mem;
      chunk, chunkLimit := Last(headers).addr, Last(headers).limit;
      objectBase, nextFree, maybeEmptyObject := obj, obj, s.maybeEmpty;
    }

    /** `memcpy` of the bytes to `next_free`, and the advance over them. */
    method CopyIn(where: seq<Byte>, length: int)
      requires Valid() && Bounded(View()) && |where| == length <= Room(View())
      modifies `nextFree, `mem
      ensures View() == Put(old(View()), where)
    {
      assert ChunkOK(cfg, Last(headers), mem);
      mem := Write(mem, nextFree, where);
      nextFree := nextFree + length;
    }

    /** `obstack_1grow_fast`, shared by both families. */
    method OneGrowFast(achar: Byte)
      requires Valid() && Bounded(View()) && Room(View()) >= 1
      modifies `nextFree, `mem
      ensures View() == Put(old(View()), [achar])
    {
      assert ChunkOK(cfg, Last(headers), mem);
      mem := Write(mem, nextFree, [achar]);
      nextFree := nextFree + 1;
    }

    /** `obstack_blank_fast`, shared by both families. */
    method BlankFast(n: int)
      modifies `nextFree
      ensures View() == old(View()).(next := old(nextFree) + n)
    {
      nextFree := nextFree + n;
    }
  }

  lemma {:induction false} FreeToKeepsChunk(s: State, obj: int)
    requires Inside(s.chain, obj)
    ensures FreeTo(s, obj).chain != [] && InChunk(Last(FreeTo(s, obj).chain), obj)
    ensures FreeTo(s, obj).cfg == s.cfg && FreeTo(s, obj).base == FreeTo(s, obj).next == obj
    decreases |s.chain|
  {
    if !InChunk(Last(s.chain), obj) {
      FreeToKeepsChunk(PopChunk(s), obj);
    }
  }
}

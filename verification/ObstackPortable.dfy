/** The portable family of obstack macros, one method each. A macro takes the
    allocator's answer, should it need a chunk, as its last argument. Each does one
    step of the specification. */
module ObstackPortable {
  import opened Align
  import opened Prelude
  import opened ObstackModel
  import opened ObstackRuns
  import opened ObstackStruct

  method MakeRoom(o: Obstack, length: int, g: Grant)
    requires o.Valid() && StepOK(o.View(), Event(Op.MakeRoom(length), g))
    modifies o
    ensures o.Valid() && o.View() == Step(old(o.View()), Event(Op.MakeRoom(length), g))
  {
    AppendStep(o.View(), Event(Op.MakeRoom(length), g));
    o.temp := length;
    if o.nextFree + o.temp > o.chunkLimit {
      o.NewChunk(o.temp, g);
    }
  }

  method Grow(o: Obstack, where: seq<Byte>, g: Grant)
    requires o.Valid() && StepOK(o.View(), Event(Op.Grow(where), g))
    modifies o
    ensures o.Valid() && o.View() == Step(old(o.View()), Event(Op.Grow(where), g))
  {
    AppendStep(o.View(), Event(Op.Grow(where), g));
    o.temp := |where|;
    if o.nextFree + o.temp > o.chunkLimit {
      o.NewChunk(o.temp, g);
    }
    o.CopyIn(where, o.temp);
  }

  method Grow0(o: Obstack, where: seq<Byte>, g: Grant)
    requires o.Valid() && StepOK(o.View(), Event(Op.Grow0(where), g))
    modifies o
    ensures o.Valid() && o.View() == Step(old(o.View()), Event(Op.Grow0(where), g))
  {
    AppendStep(o.View(), Event(Op.Grow0(where), g));
    o.temp := |where|;
    if o.nextFree + o.temp + 1 > o.chunkLimit {
      o.NewChunk(o.temp + 1, g);
    }
    hide Step, StepOK, Reserve, First;
    PutTwice(o.View(), where, [0]);
    o.CopyIn(where, o.temp);
    o.OneGrowFast(0);
  }

  method OneGrow(o: Obstack, datum: Byte, g: Grant)
    requires o.Valid() && StepOK(o.View(), Event(Op.OneGrow(datum), g))
    modifies o
    ensures o.Valid() && o.View() == Step(old(o.View()), Event(Op.OneGrow(datum), g))
    ensures o.temp == old(o.temp)
  {
    AppendStep(o.View(), Event(Op.OneGrow(datum), g));
    if o.nextFree + 1 > o.chunkLimit {
      o.NewChunk(1, g);
    }
    o.OneGrowFast(datum);
  }

  method PtrGrowFast(o: Obstack, rep: seq<Byte>)
    requires o.Valid() && Bounded(o.View()) && |rep| == o.cfg.ptrBytes <= Room(o.View())
    modifies o`nextFree, o`mem
    ensures o.View() == Put(old(o.View()), rep)
  {
    assert ChunkOK(o.cfg, Last(o.headers), o.mem);
    o.nextFree := o.nextFree + o.cfg.ptrBytes;
    o.mem := Write(o.mem, o.nextFree - o.cfg.ptrBytes, rep);
  }

  method PtrGrow(o: Obstack, rep: seq<Byte>, g: Grant)
    requires o.Valid() && StepOK(o.View(), Event(Op.PtrGrow(rep), g))
    modifies o
    ensures o.Valid() && o.View() == Step(old(o.View()), Event(Op.PtrGrow(rep), g))
    ensures o.temp == old(o.temp)
  {
    AppendStep(o.View(), Event(Op.PtrGrow(rep), g));
    if o.nextFree + o.cfg.ptrBytes > o.chunkLimit {
      o.NewChunk(o.cfg.ptrBytes, g);
    }
    PtrGrowFast(o, rep);
  }

  method IntGrowFast(o: Obstack, rep: seq<Byte>)
    requires o.Valid() && Bounded(o.View()) && |rep| == o.cfg.intBytes <= Room(o.View())
    modifies o`nextFree, o`mem
    ensures o.View() == Put(old(o.View()), rep)
  {
    assert ChunkOK(o.cfg, Last(o.headers), o.mem);
    o.nextFree := o.nextFree + o.cfg.intBytes;
    o.mem := Write(o.mem, o.nextFree - o.cfg.intBytes, rep);
  }

  method IntGrow(o: Obstack, rep: seq<Byte>, g: Grant)
    requires o.Valid() && StepOK(o.View(), Event(Op.IntGrow(rep), g))
    modifies o
    ensures o.Valid() && o.View() == Step(old(o.View()), Event(Op.IntGrow(rep), g))
    ensures o.temp == old(o.temp)
  {
    AppendStep(o.View(), Event(Op.IntGrow(rep), g));
    if o.nextFree + o.cfg.intBytes > o.chunkLimit {
      o.NewChunk(o.cfg.intBytes, g);
    }
    IntGrowFast(o, rep);
  }

  method Blank(o: Obstack, length: int, g: Grant)
    requires o.Valid() && StepOK(o.View(), Event(Op.Blank(length), g))
    modifies o
    ensures o.Valid() && o.View() == Step(old(o.View()), Event(Op.Blank(length), g))
  {
    ExtendStep(o.View(), Event(Op.Blank(length), g));
    o.temp := length;
    if o.chunkLimit - o.nextFree < o.temp {
      o.NewChunk(o.temp, g);
    }
    o.BlankFast(o.temp);
  }

  method Finish(o: Obstack, ghost g: Grant) returns (value: int)
    requires o.Valid() && StepOK(o.View(), Event(Op.Finish, g))
    modifies o
    ensures o.Valid() && o.View() == Step(old(o.View()), Event(Op.Finish, g))
    ensures Some(value) == Returned(old(o.View()), Event(Op.Finish, g)) && value == old(o.objectBase)
    ensures o.maybeEmptyObject <==> old(o.maybeEmptyObject || o.nextFree == o.objectBase)
  {
    FinishStep(o.View(), Event(Op.Finish, g));
    if o.nextFree == o.objectBase {
      o.maybeEmptyObject := true;
    }
    o.temp := o.objectBase;
    o.nextFree := PtrAlign(o.cfg.narrow, o.objectBase, o.nextFree, o.cfg.mask);
    if o.nextFree - o.chunk > o.chunkLimit - o.chunk {
      o.nextFree := o.chunkLimit;
    }
    o.objectBase := o.nextFree;
    value := o.temp;
  }

  method Alloc(o: Obstack, length: int, g: Grant) returns (value: int)
    requires o.Valid() && StepOK(o.View(), Event(Op.Alloc(length), g))
    modifies o
    ensures o.Valid() && o.View() == Step(old(o.View()), Event(Op.Alloc(length), g))
    ensures Some(value) == Returned(old(o.View()), Event(Op.Alloc(length), g))
  {
    GrowThenFinish(o.View(), Event(Op.Alloc(length), g), Event(Op.Blank(length), g));
    Blank(o, length, g);
    value := Finish(o, g);
  }

  method Copy(o: Obstack, where: seq<Byte>, g: Grant) returns (value: int)
    requires o.Valid() && StepOK(o.View(), Event(Op.Copy(where), g))
    modifies o
    ensures o.Valid() && o.View() == Step(old(o.View()), Event(Op.Copy(where), g))
    ensures Some(value) == Returned(old(o.View()), Event(Op.Copy(where), g))
  {
    GrowThenFinish(o.View(), Event(Op.Copy(where), g), Event(Op.Grow(where), g));
    Grow(o, where, g);
    value := Finish(o, g);
  }

  method Copy0(o: Obstack, where: seq<Byte>, g: Grant) returns (value: int)
    requires o.Valid() && StepOK(o.View(), Event(Op.Copy0(where), g))
    modifies o
    ensures o.Valid() && o.View() == Step(old(o.View()), Event(Op.Copy0(where), g))
    ensures Some(value) == Returned(old(o.View()), Event(Op.Copy0(where), g))
  {
    GrowThenFinish(o.View(), Event(Op.Copy0(where), g), Event(Op.Grow0(where), g));
    Grow0(o, where, g);
    value := Finish(o, g);
  }

  method Free(o: Obstack, obj: int, ghost which: nat, ghost g: Grant)
    requires o.Valid() && StepOK(o.View(), Event(Op.Free(obj, which), g))
    modifies o
    ensures o.Valid() && o.View() == Step(old(o.View()), Event(Op.Free(obj, which), g))
  {
    FreeStep(o.View(), Event(Op.Free(obj, which), g));
    o.temp := obj - o.chunk;
    if o.temp > 0 && o.temp < o.chunkLimit - o.chunk {
      o.objectBase := o.temp + o.chunk;
      o.nextFree := o.objectBase;
    } else {
      o.FreeFunction(o.temp + o.chunk);
    }
  }

  /** Perform one call. */
  method Do(o: Obstack, e: Event) returns (value: Option<int>)
    requires o.Valid() && StepOK(o.View(), e)
    modifies o
    ensures o.Valid() && o.View() == Step(old(o.View()), e) && value == Returned(old(o.View()), e)
  {
    hide Step, StepOK, Enlarge;
    value := None;
    var g := e.grant;
    match e.op {
      case MakeRoom(n) => MakeRoom(o, n, g);
      case Grow(bytes) => Grow(o, bytes, g);
      case Grow0(bytes) => Grow0(o, bytes, g);
      case OneGrow(datum) => OneGrow(o, datum, g);
      case PtrGrow(rep) => PtrGrow(o, rep, g);
      case IntGrow(rep) => IntGrow(o, rep, g);
      case Blank(n) => Blank(o, n, g);
      case OneGrowFast(datum) => UncheckedStep(o.View(), e); o.OneGrowFast(datum);
      case BlankFast(n) => UncheckedStep(o.View(), e); o.BlankFast(n);
      case Finish => var p := Finish(o, g); value := Some(p);
      case Alloc(n) => var p := Alloc(o, n, g); value := Some(p);
      case Copy(bytes) => var p := Copy(o, bytes, g); value := Some(p);
      case Copy0(bytes) => var p := Copy0(o, bytes, g); value := Some(p);
      case Free(obj, which) => Free(o, obj, which, g);
    }
  }

  /** Perform a run of calls, collecting the pointers returned. */
  method RunAll(o: Obstack, run: seq<Event>, ghost w: Live) returns (values: seq<Option<int>>)
    requires o.Valid() && o.View() == w.s && RunOK(w, run)
    modifies o
    ensures o.Valid() && o.View() == Run(w, run).s && values == Returns(w, run)
  {
    hide Step, StepOK, Track, Returned, NamesLive, Bounded;
    values := [];
    ghost var v := w;
    for i := 0 to |run|
      invariant o.Valid() && o.View() == v.s && RunOK(v, run[i..])
      invariant Run(v, run[i..]) == Run(w, run)
      invariant values + Returns(v, run[i..]) == Returns(w, run)
    {
      var value := Do(o, run[i]);
      assert run[i..][1..] == run[i + 1..];
      values := values + [value];
      v := Next(v, run[i]);
    }
  }
}

/** Whole runs of obstack operations. */
module ObstackRuns {
  import opened FlatMemory
  import opened Prelude
  import opened ObstackModel
  import opened ObstackRefinement

  /** One call. `Free` carries the address given and, for the history, which live
      object the caller means: objects of size zero can share an address. */
  datatype Op =
    | MakeRoom(length: int)
    | Grow(bytes: seq<Byte>)
    | Grow0(bytes: seq<Byte>)
    | OneGrow(datum: Byte)
    | PtrGrow(rep: seq<Byte>)
    | IntGrow(rep: seq<Byte>)
    | Blank(length: int)
    | OneGrowFast(datum: Byte)
    | BlankFast(length: int)
    | Finish
    | Alloc(length: int)
    | Copy(bytes: seq<Byte>)
    | Copy0(bytes: seq<Byte>)
    | Free(obj: int, which: nat)
  {
    /** The bytes the call appends. */
    function Appended(): seq<Byte> {
      match this
      case Grow(bytes) => bytes
      case Grow0(bytes) => bytes + [0]
      case OneGrow(datum) => [datum]
      case PtrGrow(rep) => rep
      case IntGrow(rep) => rep
      case OneGrowFast(datum) => [datum]
      case Copy(bytes) => bytes
      case Copy0(bytes) => bytes + [0]
      case _ => []
    }

    /** How far the call raises next_free over bytes it does not write. */
    function Skipped(): int {
      if Blank? || BlankFast? || Alloc? then length else 0
    }

    /** The room the call asks for. */
    function Demand(): int {
      if MakeRoom? then length else |Appended()| + Skipped()
    }

    predicate Unchecked() {
      OneGrowFast? || BlankFast?
    }

    predicate Finishes() {
      Finish? || Alloc? || Copy? || Copy0?
    }
  }

  /** A call with the allocator's answer, used only if the call needs a chunk. */
  datatype Event = Event(op: Op, grant: Grant)

  /** The demands of the header on a call. */
  ghost predicate StepOK(s: State, e: Event) {
    var op := e.op;
    && Bounded(s)
    && (op.Free? ==> exists h :: 0 <= h < |s.chain| && First(s.cfg, s.chain[h]) <= op.obj <= s.chain[h].limit)
    && (op.PtrGrow? ==> |op.rep| == s.cfg.ptrBytes)
    && (op.IntGrow? ==> |op.rep| == s.cfg.intBytes)
    && -(s.next - s.base) <= op.Skipped()
    && (op.Unchecked() ==> op.Demand() <= Room(s))
    && (Room(s) < op.Demand() && !op.Free? ==> Serves(e.grant, s, op.Demand()))
  }

  /** The state after the growing part of a call, before any finish. */
  ghost function Enlarge(s: State, e: Event): (t: State)
    requires StepOK(s, e) && !e.op.Free?
    ensures Bounded(t)
  {
    var op := e.op;
    ReserveBounded(s, op.Demand(), e.grant);
    var r := Reserve(s, op.Demand(), e.grant);
    if op.Skipped() != 0 then Extend(s, op.Skipped(), e.grant)
    else
      PutBounded(r, op.Appended());
      Put(r, op.Appended())
  }

  ghost function Step(s: State, e: Event): (t: State)
    requires StepOK(s, e)
    ensures Bounded(t)
  {
    if e.op.Free? then
      var h :| 0 <= h < |s.chain| && First(s.cfg, s.chain[h]) <= e.op.obj <= s.chain[h].limit;
      FreeBounded(s, e.op.obj, h);
      FreeTo(s, e.op.obj)
    else if e.op.Finishes() then
      CloseBounded(Enlarge(s, e));
      Close(Enlarge(s, e))
    else Enlarge(s, e)
  }

  /** The pointer a call returns: the base of the object it finishes. */
  ghost function Returned(s: State, e: Event): Option<int>
    requires StepOK(s, e)
  {
    if e.op.Finishes() then Some(Enlarge(s, e).base) else None
  }

  /** A call that writes bytes, in terms of room and one store. */
  lemma AppendStep(s: State, e: Event)
    requires StepOK(s, e) && e.op.Skipped() == 0 && !e.op.Free? && !e.op.Finishes()
    ensures var n, r := e.op.Demand(), Reserve(s, e.op.Demand(), e.grant);
            && Bounded(r) && n <= Room(r) && Covers(r.mem, r.next, r.next + |e.op.Appended()|)
            && Step(s, e) == (if e.op.MakeRoom? then r else Put(r, e.op.Appended()))
  {
    var r := Reserve(s, e.op.Demand(), e.grant);
    ReserveBounded(s, e.op.Demand(), e.grant);
    if e.op.MakeRoom? {
      PutNothing(r);
    }
    assert ChunkOK(r.cfg, Last(r.chain), r.mem);
  }

  /** A call that raises next_free, in terms of room. */
  lemma ExtendStep(s: State, e: Event)
    requires StepOK(s, e) && (e.op.Blank? || e.op.BlankFast?)
    ensures var r := Reserve(s, e.op.length, e.grant);
            Step(s, e) == r.(next := r.next + e.op.length)
  {
    hide First, Covers, Disjoint, NewChunk, Serves;
    ReserveBounded(s, e.op.length, e.grant);
    if e.op.length == 0 {
      PutNothing(Reserve(s, 0, e.grant));
    }
  }

  /** The unchecked calls never ask for a chunk. */
  lemma UncheckedStep(s: State, e: Event)
    requires StepOK(s, e) && e.op.Unchecked()
    ensures e.op.OneGrowFast? ==> Bounded(s) && 1 <= Room(s) && Step(s, e) == Put(s, [e.op.datum])
    ensures e.op.BlankFast? ==> Step(s, e) == s.(next := s.next + e.op.length)
    ensures Returned(s, e) == None
  {
    PutNothing(s);
  }

  lemma FinishStep(s: State, e: Event)
    requires StepOK(s, e) && e.op.Finish?
    ensures Step(s, e) == Close(s) && Returned(s, e) == Some(s.base)
  {
    PutNothing(s);
  }

  lemma FreeStep(s: State, e: Event)
    requires StepOK(s, e) && e.op.Free?
    ensures Inside(s.chain, e.op.obj) && Step(s, e) == FreeTo(s, e.op.obj)
  {
    var h :| 0 <= h < |s.chain| && First(s.cfg, s.chain[h]) <= e.op.obj <= s.chain[h].limit;
    FreeBounded(s, e.op.obj, h);
  }

  /** The growing call inside `obstack_alloc`, `obstack_copy` and `obstack_copy0`. */
  function GrowingPart(op: Op): Op
    requires op.Alloc? || op.Copy? || op.Copy0?
  {
    match op
    case Alloc(n) => Blank(n)
    case Copy(bytes) => Grow(bytes)
    case Copy0(bytes) => Grow0(bytes)
  }

  lemma GrowingStep(s: State, e: Event, f: Event)
    requires StepOK(s, e) && (e.op.Alloc? || e.op.Copy? || e.op.Copy0?)
    requires f == Event(GrowingPart(e.op), e.grant)
    ensures StepOK(s, f) && Step(s, f) == Enlarge(s, e) && Step(s, e) == Close(Step(s, f))
    ensures Returned(s, e) == Some(Step(s, f).base)
  {
    assert f.op.Appended() == e.op.Appended() && f.op.Skipped() == e.op.Skipped();
    hide First, Covers, Disjoint, Op.Appended, Op.Skipped;
    assert StepOK(s, f);
  }

  /** Allocating and copying are a growing call followed by a finish. */
  lemma GrowThenFinish(s: State, e: Event, f: Event)
    requires StepOK(s, e) && (e.op.Alloc? || e.op.Copy? || e.op.Copy0?)
    requires f == Event(GrowingPart(e.op), e.grant)
    ensures StepOK(s, f) && StepOK(Step(s, f), Event(Finish, e.grant))
    ensures Step(s, e) == Step(Step(s, f), Event(Finish, e.grant))
    ensures Returned(s, e) == Returned(Step(s, f), Event(Finish, e.grant))
  {
    hide Step, Returned, Enlarge, First, ChainOK;
    GrowingStep(s, e, f);
    FinishStep(Step(s, f), Event(Finish, e.grant));
  }

  lemma PutNothing(s: State)
    requires Bounded(s)
    ensures Put(s, []) == s
  {
  }

  /** A new obstack over the chunk granted: nothing finished, nothing growing. */
  function Fresh(cfg: Config, g: Grant): Traced {
    var start := First(cfg, g.chunk);
    Traced(State(cfg, [g.chunk], start, start, false, g.fill), Stack([], []))
  }

  lemma FreshRefines(cfg: Config, g: Grant)
    requires ChunkOK(cfg, g.chunk, g.fill)
    ensures Inv(Fresh(cfg, g).s, Fresh(cfg, g).a)
  {
  }

  /** The live object named by a free is live and has the address given. */
  predicate NamesLive(s: State, a: Stack, op: Op) {
    op.Free? ==> op.which <= |a.done| && op.obj == AddressOf(s, a, op.which)
  }

  /** What a call does to the stack of byte strings. */
  ghost function Track(s: State, a: Stack, e: Event): (b: Stack)
    requires Inv(s, a) && StepOK(s, e) && NamesLive(s, a, e.op)
  {
    var op := e.op;
    if op.Free? then Stack(a.done[..op.which], [])
    else if op.Finishes() then Closed(Enlarge(s, e), Grown(s, a, e))
    else Grown(s, a, e)
  }

  ghost function Grown(s: State, a: Stack, e: Event): Stack
    requires Inv(s, a) && StepOK(s, e) && !e.op.Free?
  {
    var op := e.op;
    if op.Skipped() != 0 then Blanked(s, a, op.Skipped(), e.grant)
    else a.(growing := a.growing + op.Appended())
  }

  lemma EnlargeRefines(s: State, a: Stack, e: Event)
    requires Inv(s, a) && StepOK(s, e) && !e.op.Free?
    ensures Inv(Enlarge(s, e), Grown(s, a, e))
  {
    var op := e.op;
    if op.Skipped() != 0 {
      assert op.Demand() == op.Skipped();
      ExtendRefines(s, a, op.Skipped(), e.grant);
    } else {
      ReserveRefines(s, a, op.Demand(), e.grant);
      PutRefines(Reserve(s, op.Demand(), e.grant), a, op.Appended());
    }
  }

  /** Every call keeps the invariant and acts on the abstract stack as stated. */
  lemma StepRefines(s: State, a: Stack, e: Event)
    requires Inv(s, a) && StepOK(s, e) && NamesLive(s, a, e.op)
    ensures Inv(Step(s, e), Track(s, a, e))
  {
    if e.op.Free? {
      FreeRefines(s, a, e.op.which);
    } else {
      EnlargeRefines(s, a, e);
      if e.op.Finishes() {
        CloseRefines(Enlarge(s, e), Grown(s, a, e));
      }
    }
  }

  /** A state together with the stack of byte strings it stands for. */
  datatype Traced = Traced(s: State, a: Stack)

  type Live = w: Traced | Inv(w.s, w.a) ghost witness Fresh(SMALL_CONFIG, SMALL_GRANT)

  const SMALL_CONFIG := Config(1, 1, false, 0)

  ghost const SMALL_GRANT := Grant(Chunk(1, 3), map[], false)

  /** `_obstack_begin`: the first chunk has room for its header and alignment. */
  ghost function Begun(cfg: Config, g: Grant): Live
    requires ChunkOK(cfg, g.chunk, g.fill)
  {
    FreshRefines(cfg, g);
    Fresh(cfg, g)
  }

  /** A call the header allows: frees name live objects. */
  ghost predicate CanStep(w: Live, e: Event) {
    StepOK(w.s, e) && NamesLive(w.s, w.a, e.op)
  }

  ghost function Next(w: Live, e: Event): Live
    requires CanStep(w, e)
  {
    StepRefines(w.s, w.a, e);
    Traced(Step(w.s, e), Track(w.s, w.a, e))
  }

  ghost predicate RunOK(w: Live, run: seq<Event>)
    decreases |run|
  {
    run == [] || (CanStep(w, run[0]) && RunOK(Next(w, run[0]), run[1..]))
  }

  /** Every run from a state standing for a stack ends in such a state. */
  ghost function Run(w: Live, run: seq<Event>): (v: Live)
    requires RunOK(w, run)
    decreases |run|
  {
    if run == [] then w else Run(Next(w, run[0]), run[1..])
  }

  /** The pointers the calls of a run return. */
  ghost function Returns(w: Live, run: seq<Event>): seq<Option<int>>
    requires RunOK(w, run)
    decreases |run|
  {
    if run == [] then [] else [Returned(w.s, run[0])] + Returns(Next(w, run[0]), run[1..])
  }
}

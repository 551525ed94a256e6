/** The two macro families do the same. */
module ObstackBisimilar {
  import opened Prelude
  import opened ObstackModel
  import opened ObstackRuns
  import opened ObstackStruct
  import opened ObstackTheorems
  import ObstackGnu
  import ObstackPortable

  /** From equal states the same run leaves equal states in every field but
      `temp`, and returns equal pointers. */
  method Bisimilar(gnu: Obstack, portable: Obstack, run: seq<Event>, ghost w: Live)
    returns (values: seq<Option<int>>, values': seq<Option<int>>)
    requires gnu != portable && gnu.Valid() && portable.Valid()
    requires gnu.View() == w.s == portable.View() && RunOK(w, run)
    modifies gnu, portable
    ensures gnu.Valid() && portable.Valid()
    ensures gnu.View() == portable.View() == Run(w, run).s
    ensures gnu.chunk == portable.chunk && gnu.chunkLimit == portable.chunkLimit
    ensures values == values' == Returns(w, run)
    ensures gnu.temp == old(gnu.temp)
  {
    values := ObstackGnu.RunAll(gnu, run, w);
    values' := ObstackPortable.RunAll(portable, run, w);
  }

  /** Begin an obstack of each family on the same grant and run both: all theorems
      about runs from a new obstack hold of the objects' fields. */
  method FromNew(cfg: Config, g: Grant, run: seq<Event>)
    returns (gnu: Obstack, portable: Obstack, values: seq<Option<int>>, values': seq<Option<int>>)
    requires ChunkOK(cfg, g.chunk, g.fill) && RunOK(Begun(cfg, g), run)
    ensures fresh(gnu) && fresh(portable) && gnu.Valid() && portable.Valid()
    ensures gnu.View() == portable.View() == Run(Begun(cfg, g), run).s
    ensures Safe(gnu.View(), Run(Begun(cfg, g), run).a.done)
    ensures values == values' == Returns(Begun(cfg, g), run)
  {
    gnu := new Obstack.Begin(cfg, g);
    portable := new Obstack.Begin(cfg, g);
    values, values' := Bisimilar(gnu, portable, run, Begun(cfg, g));
    ReachableSafe(cfg, g, run);
  }
}

/** Argz vectors: NUL-separated strings in one buffer, and their iterator.
    A pointer into a vector is an offset from its start; None is null. */
module Argz {
  import opened Prelude

  /** What the header asks of a vector: if not empty, it ends in a NUL. */
  predicate IsArgz(argz: seq<Byte>) {
    argz != [] ==> Last(argz) == 0
  }

  /** `strchr (p, '\\0')`: the first NUL at or after p. */
  function StrEnd(argz: seq<Byte>, p: nat): (q: nat)
    requires IsArgz(argz) && p < |argz|
    ensures p <= q < |argz| && argz[q] == 0
    ensures forall i | p <= i < q :: argz[i] != 0
    decreases |argz| - p
  {
    if argz[p] == 0 then p else StrEnd(argz, p + 1)
  }

  /** `__argz_next`, and `argz_next`, which just calls it. */
  method ArgzNext(argz: seq<Byte>, entry: Option<nat>) returns (next: Option<nat>)
    requires IsArgz(argz)
    ensures next == Following(argz, entry)
  {
    var cursor := entry;
    if cursor.Some? {
      if cursor.value < |argz| {
        cursor := Some(StrEnd(argz, cursor.value) + 1);
      }
      next := if cursor.value >= |argz| then None else cursor;
    } else {
      next := if |argz| > 0 then Some(0) else None;
    }
  }

  /** The entry after a given one, and the first entry after null. */
  function Following(argz: seq<Byte>, entry: Option<nat>): (next: Option<nat>)
    requires IsArgz(argz)
    ensures next.Some? ==> next.value < |argz| && (entry.Some? ==> entry.value < next.value)
  {
    var from := match entry
      case None => 0
      case Some(e) => if e < |argz| then StrEnd(argz, e) + 1 else e;
    if from < |argz| then Some(from) else None
  }

  /** An entry starts at the front and after each NUL but the last. */
  predicate IsStart(argz: seq<Byte>, p: int) {
    0 <= p < |argz| && (p == 0 || argz[p - 1] == 0)
  }

  /** The iterator goes from each entry start, or from anywhere inside an entry,
      to the next entry start, skipping none. */
  lemma FollowingIsNextStart(argz: seq<Byte>, e: nat)
    requires IsArgz(argz)
    ensures match Following(argz, Some(e))
            case Some(n) => IsStart(argz, n) && forall p | e < p < n :: !IsStart(argz, p)
            case None => forall p | e < p :: !IsStart(argz, p)
  {
  }

  /** The entries visited when the loop variable holds `entry`. */
  function Visits(argz: seq<Byte>, entry: Option<nat>): seq<nat>
    requires IsArgz(argz)
    decreases entry.Some?, |argz| - (if entry.Some? then entry.value else 0)
  {
    if entry.None? then [] else [entry.value] + Visits(argz, Following(argz, entry))
  }

  /** `while ((entry = argz_next (argz, argz_len, entry)))` from null. */
  method WhileStyle(argz: seq<Byte>) returns (visited: seq<nat>)
    requires IsArgz(argz)
    ensures visited == Visits(argz, Following(argz, None))
  {
    visited := [];
    var entry: Option<nat> := None;
    entry := ArgzNext(argz, entry);
    while entry.Some?
      invariant visited + Visits(argz, entry) == Visits(argz, Following(argz, None))
      decreases entry.Some?, |argz| - (if entry.Some? then entry.value else 0)
    {
      visited := visited + [entry.value];
      entry := ArgzNext(argz, entry);
    }
  }

  /** `for (entry = argz; entry; entry = argz_next (argz, argz_len, entry))`;
      `isNull` says that the vector pointer itself is null. */
  method ForStyle(argz: seq<Byte>, isNull: bool) returns (visited: seq<nat>)
    requires IsArgz(argz) && (isNull ==> argz == [])
    ensures visited == Visits(argz, if isNull then None else Some(0))
  {
    visited := [];
    var entry: Option<nat> := if isNull then None else Some(0);
    while entry.Some?
      invariant visited + Visits(argz, entry) == Visits(argz, if isNull then None else Some(0))
      decreases entry.Some?, |argz| - (if entry.Some? then entry.value else 0)
    {
      visited := visited + [entry.value];
      entry := ArgzNext(argz, entry);
    }
  }

  /** The two documented loops visit the same entries exactly when the vector is
      not empty or its pointer is null; else the second visits one entry too many. */
  lemma StylesAgree(argz: seq<Byte>, isNull: bool)
    requires IsArgz(argz) && (isNull ==> argz == [])
    ensures Visits(argz, if isNull then None else Some(0)) == Visits(argz, Following(argz, None))
       <==> argz != [] || isNull
    ensures argz == [] && !isNull ==>
              Visits(argz, Some(0)) == [0] && Visits(argz, Following(argz, None)) == []
  {
    if argz == [] && !isNull {
      assert Following(argz, Some(0)) == None;
    }
  }

  // ---------- Visits partition the buffer ----------

  /** The bytes of the entry starting at p, with its NUL. */
  function EntryAt(argz: seq<Byte>, p: nat): seq<Byte>
    requires IsArgz(argz) && p < |argz|
  {
    argz[p..StrEnd(argz, p) + 1]
  }

  predicate Within(argz: seq<Byte>, starts: seq<nat>) {
    forall i | 0 <= i < |starts| :: starts[i] < |argz|
  }

  function Joined(argz: seq<Byte>, starts: seq<nat>): seq<Byte>
    requires IsArgz(argz) && Within(argz, starts)
  {
    if starts == [] then [] else EntryAt(argz, starts[0]) + Joined(argz, starts[1..])
  }

  function Nuls(bytes: seq<Byte>): nat {
    if bytes == [] then 0 else (if bytes[0] == 0 then 1 else 0) + Nuls(bytes[1..])
  }

  lemma {:induction false} EntryNuls(argz: seq<Byte>, p: nat)
    requires IsArgz(argz) && p < |argz|
    ensures Nuls(argz[p..]) == 1 + Nuls(argz[StrEnd(argz, p) + 1..])
    decreases |argz| - p
  {
    assert argz[p..][1..] == argz[p + 1..];
    if argz[p] != 0 {
      EntryNuls(argz, p + 1);
    }
  }

  /** From an entry start on, the visits are the starts there are, in order. */
  lemma {:induction false} VisitsAreStarts(argz: seq<Byte>, p: nat)
    requires IsArgz(argz) && IsStart(argz, p)
    ensures var vs := Visits(argz, Some(p));
            && (forall i | 0 <= i < |vs| :: IsStart(argz, vs[i]) && p <= vs[i])
            && (forall i, j | 0 <= i < j < |vs| :: vs[i] < vs[j])
            && (forall q | p <= q && IsStart(argz, q) :: q in vs)
    decreases |argz| - p
  {
    FollowingIsNextStart(argz, p);
    var next := Following(argz, Some(p));
    if next.Some? {
      VisitsAreStarts(argz, next.value);
    }
  }

  lemma VisitsStep(argz: seq<Byte>, p: nat)
    requires IsArgz(argz) && p < |argz|
    ensures var next := StrEnd(argz, p) + 1;
            Visits(argz, Some(p)) == [p] + (if next < |argz| then Visits(argz, Some(next)) else [])
  {
  }

  /** There is one visit for each NUL. */
  lemma {:induction false} VisitsCount(argz: seq<Byte>, p: nat)
    requires IsArgz(argz) && p < |argz|
    ensures |Visits(argz, Some(p))| == Nuls(argz[p..])
    decreases |argz| - p
  {
    var next := StrEnd(argz, p) + 1;
    VisitsStep(argz, p);
    EntryNuls(argz, p);
    if next < |argz| {
      VisitsCount(argz, next);
    }
  }

  lemma {:induction false} VisitsWithin(argz: seq<Byte>, p: nat)
    requires IsArgz(argz) && p < |argz|
    ensures Within(argz, Visits(argz, Some(p)))
    decreases |argz| - p
  {
    var next := StrEnd(argz, p) + 1;
    VisitsStep(argz, p);
    if next < |argz| {
      VisitsWithin(argz, next);
    }
  }

  /** The entries put together are the rest of the buffer. */
  lemma {:induction false} VisitsJoin(argz: seq<Byte>, p: nat)
    requires IsArgz(argz) && p < |argz|
    requires Within(argz, Visits(argz, Some(p)))
    ensures Joined(argz, Visits(argz, Some(p))) == argz[p..]
    decreases |argz| - p
  {
    hide Visits, Following;
    var next := StrEnd(argz, p) + 1;
    VisitsStep(argz, p);
    SplitEntry(argz, p);
    if next < |argz| {
      VisitsWithin(argz, next);
      VisitsJoin(argz, next);
      JoinedCons(argz, p, Visits(argz, Some(next)));
    } else {
      JoinedCons(argz, p, []);
    }
  }

  lemma SplitEntry(argz: seq<Byte>, p: nat)
    requires IsArgz(argz) && p < |argz|
    ensures EntryAt(argz, p) + argz[StrEnd(argz, p) + 1..] == argz[p..]
  {
  }

  lemma JoinedCons(argz: seq<Byte>, p: nat, starts: seq<nat>)
    requires IsArgz(argz) && p < |argz| && Within(argz, starts)
    ensures Joined(argz, [p] + starts) == EntryAt(argz, p) + Joined(argz, starts)
  {
    assert ([p] + starts)[1..] == starts;
  }

  /** Iterating a vector visits every entry start once, in order; the entries
      with their NULs are the buffer; there are as many as NULs. */
  lemma VisitsPartition(argz: seq<Byte>)
    requires IsArgz(argz)
    ensures var vs := Visits(argz, Following(argz, None));
            && (forall i | 0 <= i < |vs| :: IsStart(argz, vs[i]))
            && (forall i, j | 0 <= i < j < |vs| :: vs[i] < vs[j])
            && (forall q | IsStart(argz, q) :: q in vs)
            && Joined(argz, vs) == argz
            && |vs| == Nuls(argz)
  {
    if argz != [] {
      VisitsAreStarts(argz, 0);
      VisitsWithin(argz, 0);
      VisitsJoin(argz, 0);
      VisitsCount(argz, 0);
      assert argz[0..] == argz;
    }
  }

  // ---------- Building a vector and reading it back ----------

  /** The vector of a list of strings, each followed by a NUL. */
  function Create(strings: seq<seq<Byte>>): seq<Byte> {
    if strings == [] then [] else strings[0] + [0] + Create(strings[1..])
  }

  /** The strings at the entries visited. */
  function Strings(argz: seq<Byte>, starts: seq<nat>): seq<seq<Byte>>
    requires IsArgz(argz) && Within(argz, starts)
  {
    if starts == [] then []
    else [argz[starts[0]..StrEnd(argz, starts[0])]] + Strings(argz, starts[1..])
  }

  lemma {:induction false} CreateIsArgz(strings: seq<seq<Byte>>)
    ensures IsArgz(Create(strings)) && (Create(strings) == [] <==> strings == [])
  {
    if strings != [] {
      CreateIsArgz(strings[1..]);
    }
  }

  /** A string without NULs ends at the NUL that follows it. */
  lemma StrEndOfFirst(argz: seq<Byte>, p: nat, s: seq<Byte>)
    requires IsArgz(argz) && p + |s| < |argz| && argz[p..p + |s|] == s && argz[p + |s|] == 0
    requires 0 !in s
    ensures StrEnd(argz, p) == p + |s|
  {
    forall i | p <= i < p + |s|
      ensures argz[i] != 0
    {
      assert argz[i] == s[i - p] && s[i - p] in s;
    }
  }

  lemma {:induction false} ReadBackFrom(argz: seq<Byte>, p: nat, strings: seq<seq<Byte>>)
    requires IsArgz(argz) && p < |argz| && argz[p..] == Create(strings) && strings != []
    requires forall i | 0 <= i < |strings| :: 0 !in strings[i]
    requires Within(argz, Visits(argz, Some(p)))
    ensures Strings(argz, Visits(argz, Some(p))) == strings
    decreases |strings|
  {
    hide Visits, Following, StrEnd, Strings, Create;
    var s, rest := strings[0], strings[1..];
    var next := p + |s| + 1;
    SplitFirst(argz, p, strings);
    StrEndOfFirst(argz, p, s);
    VisitsStep(argz, p);
    CreateIsArgz(rest);
    if rest != [] {
      VisitsWithin(argz, next);
      ReadBackFrom(argz, next, rest);
      StringsCons(argz, p, Visits(argz, Some(next)));
    } else {
      StringsCons(argz, p, []);
    }
    assert [argz[p..next - 1]] + rest == strings;
  }

  lemma StringsCons(argz: seq<Byte>, p: nat, starts: seq<nat>)
    requires IsArgz(argz) && p < |argz| && Within(argz, starts)
    ensures Strings(argz, [p] + starts) == [argz[p..StrEnd(argz, p)]] + Strings(argz, starts)
    ensures starts == [] ==> Strings(argz, starts) == []
  {
    assert ([p] + starts)[1..] == starts;
  }

  lemma SplitFirst(argz: seq<Byte>, p: nat, strings: seq<seq<Byte>>)
    requires p <= |argz| && strings != [] && argz[p..] == Create(strings)
    ensures var s, next := strings[0], p + |strings[0]| + 1;
            && next <= |argz| && argz[p..p + |s|] == s && argz[p + |s|] == 0
            && argz[next..] == Create(strings[1..])
  {
    var s := strings[0];
    var tail := argz[p..];
    assert tail[..|s|] == s && tail[|s|] == 0 && tail[|s| + 1..] == Create(strings[1..]);
    assert argz[p..p + |s|] == tail[..|s|] && argz[p + |s|] == tail[|s|];
    assert argz[p + |s| + 1..] == tail[|s| + 1..];
  }

  /** At p there is the string s with a NUL behind it. */
  predicate EntryIs(argz: seq<Byte>, p: nat, s: seq<Byte>) {
    p + |s| < |argz| && argz[p..p + |s|] == s && argz[p + |s|] == 0
  }

  lemma {:induction false} StringsAt(argz: seq<Byte>, starts: seq<nat>)
    requires IsArgz(argz) && Within(argz, starts)
    ensures |Strings(argz, starts)| == |starts|
    ensures forall i | 0 <= i < |starts| :: EntryIs(argz, starts[i], Strings(argz, starts)[i])
    decreases |starts|
  {
    if starts != [] {
      hide EntryIs;
      var rest := starts[1..];
      StringsAt(argz, rest);
      FirstEntry(argz, starts[0]);
      forall i | 0 <= i < |starts|
        ensures EntryIs(argz, starts[i], Strings(argz, starts)[i])
      {
        assert i > 0 ==> starts[i] == rest[i - 1] && Strings(argz, starts)[i] == Strings(argz, rest)[i - 1];
      }
    }
  }

  lemma FirstEntry(argz: seq<Byte>, p: nat)
    requires IsArgz(argz) && p < |argz|
    ensures EntryIs(argz, p, argz[p..StrEnd(argz, p)])
  {
  }

  /** Strings without NULs, put in a vector and iterated, come back in order: each
      entry visited is that string's bytes with a NUL behind them. */
  lemma RoundTrip(strings: seq<seq<Byte>>)
    requires forall i | 0 <= i < |strings| :: 0 !in strings[i]
    ensures IsArgz(Create(strings))
    ensures var argz := Create(strings);
            var vs := Visits(argz, Following(argz, None));
            && Within(argz, vs)
            && Strings(argz, vs) == strings
            && |vs| == |strings|
            && forall i | 0 <= i < |vs| :: EntryIs(argz, vs[i], strings[i])
  {
    CreateIsArgz(strings);
    if strings != [] {
      var argz := Create(strings);
      assert argz[0..] == argz;
      VisitsWithin(argz, 0);
      ReadBackFrom(argz, 0, strings);
      hide Create, Visits, Strings, EntryIs;
      StringsAt(argz, Visits(argz, Some(0)));
    }
  }
}

/** Cancellation that may also strike between the steps of a push or a pop. There
    the expansions of the macros part, and it is proved exactly when.

    The steps are those of a frame: it is armed, the type is set, the body runs, the
    type is put back, `execute` is stored, and the handler is called if it is nonzero.
    There is a strike point after each step, under the type then in force. */
module CleanupStrikes {
  import opened Prelude
  import opened Cleanup

  /** Where cancellation may strike besides work points: nowhere, between the
      steps of a push or pop under asynchronous type, or between them always. */
  datatype Reach = Bodies | AsyncSteps | AllSteps
  {
    predicate Opens(ct: CancelType) {
      AllSteps? || (AsyncSteps? && ct.Asynchronous?)
    }
  }

  /** A frame that calls the handler when it is destroyed, or a registered jump
      buffer. The header leaves open whether register_cancel_defer puts the buffer
      on its list only after it has changed the type, and whether
      unregister_cancel_restore takes it off before it has put the type back. */
  datatype Form = Frames | Jumps(onLast: bool, offFirst: bool)

  predicate Struck(reach: Reach, t: Thread) {
    reach.Opens(t.cancelType) && t.left == 0
  }

  /** A strike point passed. */
  function Pass(reach: Reach, t: Thread): Thread {
    if reach.Opens(t.cancelType) then t.(left := t.left - 1) else t
  }

  function CallIf(b: bool, h: Handler, t: Thread): Thread {
    if b then t.Call(h) else t
  }

  /** A push. A frame is armed before the first strike point; a buffer is on the
      list by then, except if a deferring push puts it there last. */
  function PushIn(form: Form, reach: Reach, h: Handler, defer: bool, t: Thread): Outcome {
    var armed := form.Frames? || !(defer && form.onLast);
    if Struck(reach, t) then Unwinding(CallIf(armed, h, t))
    else if !defer then Finished(Pass(reach, t))
    else
      var d := Pass(reach, t).(cancelType := Deferred);
      if Struck(reach, d) then Unwinding(CallIf(armed, h, d)) else Finished(Pass(reach, d))
  }

  /** A pop by a thread that finished the body; `saved` is the type from before the
      push. Until `execute` is stored a frame is armed, while a restoring pop may
      have taken the buffer off its list. After that a frame holds `execute`, and
      any buffer is off. */
  function PopIn(form: Form, reach: Reach, h: Handler, restore: bool, execute: int,
                 saved: CancelType, u: Thread): Outcome
  {
    var armed := form.Frames? || !(restore && form.offFirst);
    if Struck(reach, u) then Unwinding(CallIf(armed, h, u))
    else
      var v := Restored(reach, restore, saved, u);
      if restore && Struck(reach, v) then Unwinding(CallIf(armed, h, v))
      else
        var x := if restore then Pass(reach, v) else v;
        if Struck(reach, x) then Unwinding(CallIf(form.Frames? && execute != 0, h, x))
        else Finished(CallIf(execute != 0, h, Pass(reach, x)))
  }

  /** The end of the body passed and, by a restoring pop, the type put back. */
  function Restored(reach: Reach, restore: bool, saved: CancelType, u: Thread): Thread {
    if restore then Pass(reach, u).(cancelType := saved) else Pass(reach, u)
  }

  /** The meaning of a body in one form. */
  function ExecIn(form: Form, reach: Reach, p: Body, t: Thread): Outcome {
    match p
    case End => Finished(t)
    case Work(id, rest) =>
      if t.left == 0 then Unwinding(t)
      else ExecIn(form, reach, rest, t.(left := t.left - 1, trace := t.trace + [Did(id)]))
    case SetType(to, rest) => ExecIn(form, reach, rest, t.(cancelType := to))
    case Exit(_) => Unwinding(t)
    case Block(h, defer, inner, execute, rest) =>
      match PushIn(form, reach, h, defer, t)
      case Unwinding(i) => Unwinding(i)
      case Finished(i) =>
        match ExecIn(form, reach, inner, i)
        case Unwinding(u) => Unwinding(u.Call(h))
        case Finished(u) =>
          match PopIn(form, reach, h, defer, execute, t.cancelType, u)
          case Unwinding(x) => Unwinding(x)
          case Finished(x) => ExecIn(form, reach, rest, x)
  }

  /** When cancellation strikes in bodies only, every form has the meaning proved
      equal to the handler stack. */
  lemma {:induction false} StrikesInBodies(form: Form, p: Body, t: Thread)
    ensures ExecIn(form, Bodies, p, t) == Exec(p, t)
    decreases p
  {
    match p
    case End =>
    case Work(id, rest) =>
      StrikesInBodies(form, rest, t.(left := t.left - 1, trace := t.trace + [Did(id)]));
    case SetType(to, rest) => StrikesInBodies(form, rest, t.(cancelType := to));
    case Exit(rest) =>
    case Block(h, defer, inner, execute, rest) =>
      var i := PushIn(form, Bodies, h, defer, t).thread;
      StrikesInBodies(form, inner, i);
      var o := Exec(inner, i);
      if o.Finished? {
        StrikesInBodies(form, rest, PopIn(form, Bodies, h, defer, execute, t.cancelType, o.thread).thread);
      }
  }

  // ---------- The run that is not struck ----------

  function TypeInPop(defer: bool, saved: CancelType, ended: CancelType): CancelType {
    if defer then saved else ended
  }

  /** The type a body ends under when it is not struck; None if it exits. */
  function Leaves(p: Body, ct: CancelType): Option<CancelType> {
    match p
    case End => Some(ct)
    case Work(_, rest) => Leaves(rest, ct)
    case SetType(to, rest) => Leaves(rest, to)
    case Exit(_) => None
    case Block(_, defer, inner, _, rest) =>
      match Leaves(inner, if defer then Deferred else ct)
      case None => None
      case Some(ended) => Leaves(rest, TypeInPop(defer, ct, ended))
  }

  /** A push at which a strike tells the forms apart. (If Deferred is open to
      strikes, so is every type.) */
  predicate PushTelling(reach: Reach, jumps: Form, defer: bool, under: CancelType) {
    reach.Opens(under) && jumps.Jumps? && defer && jumps.onLast
  }

  /** A pop at which a strike tells the forms apart, after a body that ended under
      one type; `under` is the type once a restoring pop has put it back. */
  predicate Telling(reach: Reach, jumps: Form, defer: bool, execute: int, ended: CancelType, under: CancelType) {
    && jumps.Jumps?
    && (|| (reach.Opens(under) && execute != 0)
        || ((reach.Opens(ended) || reach.Opens(under)) && defer && jumps.offFirst))
  }

  /** The body, not struck, reaches such a push or pop. */
  predicate Exposed(reach: Reach, jumps: Form, p: Body, ct: CancelType) {
    match p
    case End => false
    case Work(_, rest) => Exposed(reach, jumps, rest, ct)
    case SetType(to, rest) => Exposed(reach, jumps, rest, to)
    case Exit(_) => false
    case Block(_, defer, inner, execute, rest) =>
      var inside := if defer then Deferred else ct;
      || PushTelling(reach, jumps, defer, ct)
      || Exposed(reach, jumps, inner, inside)
      || match Leaves(inner, inside)
         case None => false
         case Some(ended) =>
           var under := TypeInPop(defer, ct, ended);
           Telling(reach, jumps, defer, execute, ended, under) || Exposed(reach, jumps, rest, under)
  }

  function PointUnder(reach: Reach, ct: CancelType): nat {
    if reach.Opens(ct) then 1 else 0
  }

  function PushPoints(reach: Reach, defer: bool, under: CancelType): nat {
    PointUnder(reach, under) + if defer then PointUnder(reach, Deferred) else 0
  }

  function PopPoints(reach: Reach, defer: bool, ended: CancelType, under: CancelType): nat {
    PointUnder(reach, ended) + PointUnder(reach, under) * if defer then 2 else 1
  }

  /** How many strike points the body passes when it is not struck. */
  function Points(reach: Reach, p: Body, ct: CancelType): nat {
    match p
    case End => 0
    case Work(_, rest) => 1 + Points(reach, rest, ct)
    case SetType(to, rest) => Points(reach, rest, to)
    case Exit(_) => 0
    case Block(_, defer, inner, _, rest) =>
      var inside := if defer then Deferred else ct;
      PushPoints(reach, defer, ct) + Points(reach, inner, inside) +
      match Leaves(inner, inside)
      case None => 0
      case Some(ended) =>
        var under := TypeInPop(defer, ct, ended);
        PopPoints(reach, defer, ended, under) + Points(reach, rest, under)
  }

  /** How many strike points lie before one that tells the forms apart. */
  function TellingPoint(reach: Reach, jumps: Form, p: Body, ct: CancelType): nat
    requires Exposed(reach, jumps, p, ct)
  {
    match p
    case Work(_, rest) => 1 + TellingPoint(reach, jumps, rest, ct)
    case SetType(to, rest) => TellingPoint(reach, jumps, rest, to)
    case Block(_, defer, inner, execute, rest) =>
      var inside := if defer then Deferred else ct;
      if PushTelling(reach, jumps, defer, ct) then 0
      else if Exposed(reach, jumps, inner, inside) then
        PushPoints(reach, defer, ct) + TellingPoint(reach, jumps, inner, inside)
      else
        var ended := Leaves(inner, inside).value;
        var under := TypeInPop(defer, ct, ended);
        PushPoints(reach, defer, ct) + Points(reach, inner, inside) +
        if !Telling(reach, jumps, defer, execute, ended, under) then
          PopPoints(reach, defer, ended, under) + TellingPoint(reach, jumps, rest, under)
        else TellingInPop(reach, jumps, defer, ended)
  }

  /** How many strike points of a pop lie before the one that tells. */
  function TellingInPop(reach: Reach, jumps: Form, defer: bool, ended: CancelType): nat
    requires jumps.Jumps?
  {
    if defer && jumps.offFirst then 0 else PointUnder(reach, ended) + if defer then 1 else 0
  }

  /** A body that ends without a strike ends as the run that is not struck. */
  lemma {:induction false} FinishesAsUnstruck(form: Form, reach: Reach, p: Body, t: Thread)
    requires ExecIn(form, reach, p, t).Finished?
    ensures Leaves(p, t.cancelType) == Some(ExecIn(form, reach, p, t).thread.cancelType)
    decreases p
  {
    match p
    case End =>
    case Work(id, rest) =>
      FinishesAsUnstruck(form, reach, rest, t.(left := t.left - 1, trace := t.trace + [Did(id)]));
    case SetType(to, rest) => FinishesAsUnstruck(form, reach, rest, t.(cancelType := to));
    case Block(h, defer, inner, execute, rest) =>
      var i := PushIn(form, reach, h, defer, t).thread;
      FinishesAsUnstruck(form, reach, inner, i);
      var u := ExecIn(form, reach, inner, i).thread;
      FinishesAsUnstruck(form, reach, rest, PopIn(form, reach, h, defer, execute, t.cancelType, u).thread);
  }

  /** A push with enough strike points to come is not struck. */
  lemma PushUnstruck(form: Form, reach: Reach, h: Handler, defer: bool, t: Thread)
    requires PushPoints(reach, defer, t.cancelType) <= t.left
    ensures PushIn(form, reach, h, defer, t)
         == Finished(t.(left := t.left - PushPoints(reach, defer, t.cancelType),
                        cancelType := if defer then Deferred else t.cancelType))
  {
  }

  /** A pop with enough strike points to come is not struck. */
  lemma PopUnstruck(form: Form, reach: Reach, h: Handler, defer: bool, execute: int, saved: CancelType, u: Thread)
    requires PopPoints(reach, defer, u.cancelType, TypeInPop(defer, saved, u.cancelType)) <= u.left
    ensures var o := PopIn(form, reach, h, defer, execute, saved, u);
            && o.Finished? && o == PopIn(Frames, reach, h, defer, execute, saved, u)
            && o.thread.cancelType == TypeInPop(defer, saved, u.cancelType)
            && o.thread.left == u.left - PopPoints(reach, defer, u.cancelType, o.thread.cancelType)
  {
  }

  /** A push that tells the forms apart does so by one handler call. */
  lemma PushTells(reach: Reach, jumps: Form, h: Handler, defer: bool, t: Thread)
    requires PushTelling(reach, jumps, defer, t.cancelType) && t.left == 0
    ensures PushIn(Frames, reach, h, defer, t) == Unwinding(t.Call(h))
    ensures PushIn(jumps, reach, h, defer, t) == Unwinding(t)
  {
  }

  /** A pop that tells the forms apart does so by one handler call. */
  lemma PopTells(reach: Reach, jumps: Form, h: Handler, defer: bool, execute: int, saved: CancelType, u: Thread)
    requires Telling(reach, jumps, defer, execute, u.cancelType, TypeInPop(defer, saved, u.cancelType))
    requires u.left == TellingInPop(reach, jumps, defer, u.cancelType)
    ensures var f := PopIn(Frames, reach, h, defer, execute, saved, u);
            var j := PopIn(jumps, reach, h, defer, execute, saved, u);
            f.Unwinding? && j.Unwinding? && |f.thread.trace| == |j.thread.trace| + 1
  {
  }

  /** With as many strike points to come as the body passes, it is not struck, and
      all forms do the same. */
  lemma {:induction false} Unstruck(form: Form, reach: Reach, p: Body, t: Thread)
    requires Points(reach, p, t.cancelType) <= t.left && Leaves(p, t.cancelType).Some?
    ensures ExecIn(form, reach, p, t) == ExecIn(Frames, reach, p, t)
    ensures ExecIn(form, reach, p, t).Finished?
    ensures var u := ExecIn(form, reach, p, t).thread;
            u.left == t.left - Points(reach, p, t.cancelType) && Some(u.cancelType) == Leaves(p, t.cancelType)
    decreases p
  {
    hide PushIn, PopIn, TypeInPop, PushPoints, PopPoints;
    match p
    case End =>
    case Work(id, rest) =>
      Unstruck(form, reach, rest, t.(left := t.left - 1, trace := t.trace + [Did(id)]));
    case SetType(to, rest) => Unstruck(form, reach, rest, t.(cancelType := to));
    case Block(h, defer, inner, execute, rest) =>
      PushUnstruck(form, reach, h, defer, t);
      PushUnstruck(Frames, reach, h, defer, t);
      var i := PushIn(form, reach, h, defer, t).thread;
      Unstruck(form, reach, inner, i);
      var u := ExecIn(form, reach, inner, i).thread;
      PopUnstruck(form, reach, h, defer, execute, t.cancelType, u);
      Unstruck(form, reach, rest, PopIn(form, reach, h, defer, execute, t.cancelType, u).thread);
  }

  /** Unless the body is exposed, a strike at any point, or none, leaves the forms
      with the same outcome. */
  lemma {:induction false} FormsAgree(reach: Reach, jumps: Form, p: Body, t: Thread)
    requires !Exposed(reach, jumps, p, t.cancelType)
    ensures ExecIn(Frames, reach, p, t) == ExecIn(jumps, reach, p, t)
    decreases p
  {
    match p
    case End =>
    case Work(id, rest) =>
      FormsAgree(reach, jumps, rest, t.(left := t.left - 1, trace := t.trace + [Did(id)]));
    case SetType(to, rest) => FormsAgree(reach, jumps, rest, t.(cancelType := to));
    case Exit(rest) =>
    case Block(h, defer, inner, execute, rest) =>
      var i := PushIn(Frames, reach, h, defer, t);
      assert i == PushIn(jumps, reach, h, defer, t);
      if i.Finished? {
        FormsAgree(reach, jumps, inner, i.thread);
        var o := ExecIn(Frames, reach, inner, i.thread);
        if o.Finished? {
          FinishesAsUnstruck(Frames, reach, inner, i.thread);
          var x := PopIn(Frames, reach, h, defer, execute, t.cancelType, o.thread);
          if x.Finished? {
            FormsAgree(reach, jumps, rest, x.thread);
          }
        }
      }
  }

  /** A strike at the telling point makes the frames call one handler more. */
  lemma {:induction false} FormsDiffer(reach: Reach, jumps: Form, p: Body, t: Thread)
    requires Exposed(reach, jumps, p, t.cancelType)
    requires t.left == TellingPoint(reach, jumps, p, t.cancelType)
    ensures ExecIn(Frames, reach, p, t).Unwinding? && ExecIn(jumps, reach, p, t).Unwinding?
    ensures |ExecIn(Frames, reach, p, t).thread.trace| == |ExecIn(jumps, reach, p, t).thread.trace| + 1
    decreases p, 1
  {
    if p.Block? {
      FormsDifferInBlock(reach, jumps, p, t);
    } else {
      match p
      case Work(id, rest) =>
        FormsDiffer(reach, jumps, rest, t.(left := t.left - 1, trace := t.trace + [Did(id)]));
      case SetType(to, rest) => FormsDiffer(reach, jumps, rest, t.(cancelType := to));
    }
  }

  lemma {:induction false} FormsDifferInBlock(reach: Reach, jumps: Form, p: Body, t: Thread)
    requires p.Block? && Exposed(reach, jumps, p, t.cancelType)
    requires t.left == TellingPoint(reach, jumps, p, t.cancelType)
    ensures ExecIn(Frames, reach, p, t).Unwinding? && ExecIn(jumps, reach, p, t).Unwinding?
    ensures |ExecIn(Frames, reach, p, t).thread.trace| == |ExecIn(jumps, reach, p, t).thread.trace| + 1
    decreases p, 0
  {
    hide PushIn, PopIn, TypeInPop, PushPoints, PopPoints, Telling, TellingInPop;
    var Block(h, defer, inner, execute, rest) := p;
    if PushTelling(reach, jumps, defer, t.cancelType) {
      PushTells(reach, jumps, h, defer, t);
      return;
    }
    PushUnstruck(Frames, reach, h, defer, t);
    PushUnstruck(jumps, reach, h, defer, t);
    var i := PushIn(Frames, reach, h, defer, t).thread;
    if Exposed(reach, jumps, inner, i.cancelType) {
      FormsDiffer(reach, jumps, inner, i);
    } else {
      Unstruck(Frames, reach, inner, i);
      Unstruck(jumps, reach, inner, i);
      var u := ExecIn(Frames, reach, inner, i).thread;
      var under := TypeInPop(defer, t.cancelType, u.cancelType);
      if Telling(reach, jumps, defer, execute, u.cancelType, under) {
        PopTells(reach, jumps, h, defer, execute, t.cancelType, u);
      } else {
        PopUnstruck(Frames, reach, h, defer, execute, t.cancelType, u);
        PopUnstruck(jumps, reach, h, defer, execute, t.cancelType, u);
        FormsDiffer(reach, jumps, rest, PopIn(Frames, reach, h, defer, execute, t.cancelType, u).thread);
      }
    }
  }

  /** For every program: the forms agree at every strike exactly when the run that
      is not struck reaches no strike point, open under the type then in force, at
      which a frame is armed or holds a nonzero `execute` while the buffer is off
      its list. */
  lemma StrikesAgreeExactly(reach: Reach, jumps: Form, p: Body, t: Thread)
    ensures (forall n: int :: ExecIn(Frames, reach, p, t.(left := n)) == ExecIn(jumps, reach, p, t.(left := n)))
       <==> !Exposed(reach, jumps, p, t.cancelType)
  {
    if Exposed(reach, jumps, p, t.cancelType) {
      var n: int := TellingPoint(reach, jumps, p, t.cancelType);
      FormsDiffer(reach, jumps, p, t.(left := n));
      assert ExecIn(Frames, reach, p, t.(left := n)) != ExecIn(jumps, reach, p, t.(left := n));
    } else {
      forall n: int
        ensures ExecIn(Frames, reach, p, t.(left := n)) == ExecIn(jumps, reach, p, t.(left := n))
      {
        FormsAgree(reach, jumps, p, t.(left := n));
      }
    }
  }

  // ---------- If the buffer is listed while a frame would be armed ----------

  /** On the handler stack, the run of the code comes to a pop that calls its
      handler under a type open to strikes. */
  predicate PopsOpen(reach: Reach, code: seq<Instr>, m: Machine)
    decreases |code|
  {
    code != [] && (CallsOpen(reach, code[0], m) ||
                   (Advance(code[0], m).Ok? && PopsOpen(reach, code[1..], Advance(code[0], m).m)))
  }

  predicate CallsOpen(reach: Reach, i: Instr, m: Machine) {
    i.Pop? && m.stack != [] && i.execute != 0 &&
    reach.Opens(if i.restore then Last(m.stack).saved else m.thread.cancelType)
  }

  lemma {:induction false} PopsOpenSplit(reach: Reach, code: seq<Instr>, more: seq<Instr>, m: Machine)
    ensures PopsOpen(reach, code + more, m)
       <==> PopsOpen(reach, code, m)
            || (Execute(code, m).Ok? && PopsOpen(reach, more, Execute(code, m).m))
    decreases |code|
  {
    if code == [] {
      assert code + more == more;
    } else {
      assert (code + more)[1..] == code[1..] + more;
      if Advance(code[0], m).Ok? {
        PopsOpenSplit(reach, code[1..], more, Advance(code[0], m).m);
      }
    }
  }

  /** A thread that is never struck goes through a body as `Leaves` says. */
  lemma {:induction false} NeverStruck(p: Body, t: Thread)
    requires t.left < 0
    ensures Exec(p, t).Finished? <==> Leaves(p, t.cancelType).Some?
    ensures Exec(p, t).Finished? ==>
              Leaves(p, t.cancelType) == Some(Exec(p, t).thread.cancelType) && Exec(p, t).thread.left < 0
    decreases p
  {
    match p
    case End =>
    case Work(id, rest) => NeverStruck(rest, t.(left := t.left - 1, trace := t.trace + [Did(id)]));
    case SetType(to, rest) => NeverStruck(rest, t.(cancelType := to));
    case Exit(_) =>
    case Block(h, defer, inner, execute, rest) =>
      var i := if defer then t.(cancelType := Deferred) else t;
      NeverStruck(inner, i);
      if Exec(inner, i).Finished? {
        var u := Exec(inner, i).thread;
        var v := if defer then u.(cancelType := t.cancelType) else u;
        NeverStruck(rest, if execute != 0 then v.Call(h) else v);
      }
  }

  /** On the handler stack too. */
  lemma NeverStruckOnStack(p: Body, m: Machine)
    requires m.thread.left < 0
    ensures var r := Execute(Text(p), m);
            && (r.Ok? <==> Leaves(p, m.thread.cancelType).Some?)
            && (r.Ok? ==> && Leaves(p, m.thread.cancelType) == Some(r.m.thread.cancelType)
                          && r.m.thread.left < 0 && r.m.stack == m.stack)
  {
    NeverStruck(p, m.thread);
    assert Text(p) + [] == Text(p);
    BodyMatchesStack(p, m, []);
    hide Unwind, Exec, Text, Leaves;
  }

  lemma PopsOpenCons(reach: Reach, i: Instr, more: seq<Instr>, m: Machine)
    ensures PopsOpen(reach, [i] + more, m)
       <==> CallsOpen(reach, i, m) || (Advance(i, m).Ok? && PopsOpen(reach, more, Advance(i, m).m))
  {
    assert ([i] + more)[1..] == more;
  }

  lemma {:induction false} ExposedIsPopsOpen(reach: Reach, p: Body, m: Machine)
    requires m.thread.left < 0
    ensures Exposed(reach, Jumps(false, false), p, m.thread.cancelType) <==> PopsOpen(reach, Text(p), m)
    decreases p, 1
  {
    match p
    case End =>
    case Work(id, rest) =>
      PopsOpenCons(reach, DoWork(id), Text(rest), m);
      ExposedIsPopsOpen(reach, rest, Advance(DoWork(id), m).m);
    case SetType(to, rest) =>
      PopsOpenCons(reach, ChangeType(to), Text(rest), m);
      ExposedIsPopsOpen(reach, rest, Advance(ChangeType(to), m).m);
    case Exit(rest) =>
    case Block(h, defer, inner, execute, rest) =>
      BlockExposedIsPopsOpen(reach, p, m);
  }

  lemma {:induction false} BlockExposedIsPopsOpen(reach: Reach, p: Body, m: Machine)
    requires p.Block? && m.thread.left < 0
    ensures Exposed(reach, Jumps(false, false), p, m.thread.cancelType) <==> PopsOpen(reach, Text(p), m)
    decreases p, 0
  {
    var Block(h, defer, inner, execute, rest) := p;
    var m1 := Advance(Push(h, defer), m).m;
    var after := [Pop(execute, defer)] + Text(rest);
    assert Text(p) == [Push(h, defer)] + (Text(inner) + after);
    hide PopsOpen, Execute, Unwind, Text;
    PopsOpenCons(reach, Push(h, defer), Text(inner) + after, m);
    PopsOpenSplit(reach, Text(inner), after, m1);
    ExposedIsPopsOpen(reach, inner, m1);
    NeverStruckOnStack(inner, m1);
    if Execute(Text(inner), m1).Ok? {
      var n := Execute(Text(inner), m1).m;
      PopsOpenCons(reach, Pop(execute, defer), Text(rest), n);
      ExposedIsPopsOpen(reach, rest, Advance(Pop(execute, defer), n).m);
    }
  }

  /** If a buffer is on its list whenever a frame would be armed, a strike tells the
      forms apart exactly when, on the handler stack and without a strike, the
      program comes to a pop that calls its handler under a type open to strikes. */
  lemma OnlyExecuteTells(reach: Reach, p: Body, t: Thread)
    ensures (exists n: int :: ExecIn(Frames, reach, p, t.(left := n))
                           != ExecIn(Jumps(false, false), reach, p, t.(left := n)))
       <==> PopsOpen(reach, Text(p), Start(t.(left := -1)))
  {
    StrikesAgreeExactly(reach, Jumps(false, false), p, t);
    ExposedIsPopsOpen(reach, p, Start(t.(left := -1)));
  }

  /** Inputs on which the forms part: a pop with nonzero `execute`, struck before
      its handler call; a restoring pop, struck once the type is back, and one struck
      under the type the body set; a deferring push, struck before the type is changed. */
  lemma StrikesTellApart(h: Handler, execute: int, onLast: bool, offFirst: bool)
    ensures var t := Thread(Asynchronous, 2, []);
            var p := Block(h, false, End, 1, End);
            && ExecIn(Frames, AsyncSteps, p, t) == Unwinding(t.(left := 0).Call(h))
            && ExecIn(Jumps(onLast, offFirst), AsyncSteps, p, t) == Unwinding(t.(left := 0))
    ensures var t := Thread(Asynchronous, 1, []);
            var p := Block(h, true, End, 0, End);
            && ExecIn(Frames, AsyncSteps, p, t) == Unwinding(t.(left := 0).Call(h))
            && ExecIn(Jumps(false, offFirst), AsyncSteps, p, t)
               == Unwinding(if offFirst then t.(left := 0) else t.(left := 0).Call(h))
    ensures var t := Thread(Deferred, 0, []);
            var p := Block(h, true, SetType(Asynchronous, End), execute, End);
            && ExecIn(Frames, AsyncSteps, p, t) == Unwinding(t.(cancelType := Asynchronous).Call(h))
            && ExecIn(Jumps(onLast, true), AsyncSteps, p, t) == Unwinding(t.(cancelType := Asynchronous))
    ensures var t := Thread(Asynchronous, 0, []);
            var p := Block(h, true, End, execute, End);
            && ExecIn(Frames, AsyncSteps, p, t) == Unwinding(t.Call(h))
            && ExecIn(Jumps(true, offFirst), AsyncSteps, p, t) == Unwinding(t)
  {
  }

  /** No statement makes cancellation asynchronous. */
  predicate StaysDeferred(p: Body) {
    match p
    case End => true
    case Work(_, rest) => StaysDeferred(rest)
    case SetType(to, rest) => to.Deferred? && StaysDeferred(rest)
    case Exit(rest) => StaysDeferred(rest)
    case Block(_, _, inner, _, rest) => StaysDeferred(inner) && StaysDeferred(rest)
  }

  /** Then a thread under deferred type is never exposed: strikes that wait for
      asynchronous type find the forms agreeing. */
  lemma {:induction false} DeferredNeverExposed(jumps: Form, p: Body)
    requires StaysDeferred(p)
    ensures !Exposed(AsyncSteps, jumps, p, Deferred)
    ensures Leaves(p, Deferred).Some? ==> Leaves(p, Deferred) == Some(Deferred)
    decreases p
  {
    match p
    case End =>
    case Work(_, rest) => DeferredNeverExposed(jumps, rest);
    case SetType(_, rest) => DeferredNeverExposed(jumps, rest);
    case Exit(_) =>
    case Block(_, _, inner, _, rest) =>
      DeferredNeverExposed(jumps, inner);
      DeferredNeverExposed(jumps, rest);
  }

  // ---------- How often one handler is called ----------

  /** How many blocks of the body push h. */
  function Pushes(p: Body, h: Handler): nat {
    match p
    case End => 0
    case Work(_, rest) => Pushes(rest, h)
    case SetType(_, rest) => Pushes(rest, h)
    case Exit(rest) => Pushes(rest, h)
    case Block(g, _, inner, _, rest) => (if g == h then 1 else 0) + Pushes(inner, h) + Pushes(rest, h)
  }

  function Calls(trace: seq<Event>, h: Handler): nat {
    if trace == [] then 0
    else Calls(Front(trace), h) + if Last(trace).Called? && Last(trace).handler == h then 1 else 0
  }

  lemma CallsAfter(trace: seq<Event>, e: Event, h: Handler)
    ensures Calls(trace + [e], h) == Calls(trace, h) + if e.Called? && e.handler == h then 1 else 0
  {
    assert Front(trace + [e]) == trace && Last(trace + [e]) == e;
  }

  /** What one handler call adds to the calls of h. */
  lemma CallCounts(t: Thread, g: Handler, h: Handler)
    ensures Calls(t.Call(g).trace, h) == Calls(t.trace, h) + if g == h then 1 else 0
  {
    CallsAfter(t.trace, Called(g, t.cancelType), h);
  }

  /** What the push of g adds to the calls of h. */
  lemma PushCalls(form: Form, reach: Reach, g: Handler, defer: bool, t: Thread, h: Handler)
    ensures var i := PushIn(form, reach, g, defer, t);
            Calls(i.thread.trace, h) == Calls(t.trace, h)
              + if g == h && i.Unwinding? && (form.Frames? || !(defer && form.onLast)) then 1 else 0
  {
    CallCounts(t, g, h);
    CallCounts(Pass(reach, t).(cancelType := Deferred), g, h);
    hide Calls;
  }

  /** What the pop of g adds to the calls of h. */
  lemma PopCalls(form: Form, reach: Reach, g: Handler, defer: bool, execute: int, saved: CancelType,
                 u: Thread, h: Handler)
    ensures var o := PopIn(form, reach, g, defer, execute, saved, u);
            && (g != h ==> Calls(o.thread.trace, h) == Calls(u.trace, h))
            && Calls(u.trace, h) <= Calls(o.thread.trace, h) <= Calls(u.trace, h) + 1
            && (g == h && form.Frames? ==>
                  Calls(o.thread.trace, h) == Calls(u.trace, h)
                    + if StruckArmed(reach, defer, saved, u) || execute != 0 then 1 else 0)
  {
    CallCounts(u, g, h);
    CallCounts(Restored(reach, defer, saved, u), g, h);
    CallCounts(Pass(reach, Restored(reach, defer, saved, u)), g, h);
    hide Calls;
  }

  /** A pop struck before `execute` is stored. */
  predicate StruckArmed(reach: Reach, defer: bool, saved: CancelType, u: Thread) {
    Struck(reach, u) || (defer && Struck(reach, Restored(reach, defer, saved, u)))
  }

  /** For every program, in every form, at every strike or none: a handler is
      called at most once for each block that pushes it. */
  lemma {:induction false} CalledAtMostOnce(form: Form, reach: Reach, p: Body, t: Thread, h: Handler)
    ensures Calls(t.trace, h) <= Calls(ExecIn(form, reach, p, t).thread.trace, h) <= Calls(t.trace, h) + Pushes(p, h)
    decreases p, 1
  {
    hide Calls, PushIn, PopIn;
    match p
    case End =>
    case Work(id, rest) =>
      CallsAfter(t.trace, Did(id), h);
      CalledAtMostOnce(form, reach, rest, t.(left := t.left - 1, trace := t.trace + [Did(id)]), h);
    case SetType(to, rest) => CalledAtMostOnce(form, reach, rest, t.(cancelType := to), h);
    case Exit(_) =>
    case Block(_, _, _, _, _) => BlockCalls(form, reach, p, t, h);
  }

  lemma {:induction false} BlockCalls(form: Form, reach: Reach, p: Body, t: Thread, h: Handler)
    requires p.Block?
    ensures Calls(t.trace, h) <= Calls(ExecIn(form, reach, p, t).thread.trace, h) <= Calls(t.trace, h) + Pushes(p, h)
    decreases p, 0
  {
    hide Calls, PushIn, PopIn;
    var Block(g, defer, inner, execute, rest) := p;
    var i := PushIn(form, reach, g, defer, t);
    PushCalls(form, reach, g, defer, t, h);
    if i.Finished? {
      CalledAtMostOnce(form, reach, inner, i.thread, h);
      var o := ExecIn(form, reach, inner, i.thread);
      CallCounts(o.thread, g, h);
      if o.Finished? {
        PopCalls(form, reach, g, defer, execute, t.cancelType, o.thread, h);
        var x := PopIn(form, reach, g, defer, execute, t.cancelType, o.thread);
        if x.Finished? {
          CalledAtMostOnce(form, reach, rest, x.thread, h);
        }
      }
    }
  }

  /** In the frame forms a block calls its own handler once or not at all, besides
      what its body calls, wherever it is left or struck: once if the push or the
      body does not finish, a strike finds the frame armed, or `execute` is nonzero. */
  lemma FrameCallsOnce(reach: Reach, h: Handler, defer: bool, inner: Body, execute: int, t: Thread)
    ensures var i := PushIn(Frames, reach, h, defer, t);
            var o := ExecIn(Frames, reach, inner, i.thread);
            var n := Calls(ExecIn(Frames, reach, Block(h, defer, inner, execute, End), t).thread.trace, h);
            && (i.Unwinding? ==> n == Calls(t.trace, h) + 1)
            && (i.Finished? ==>
                  && n == Calls(o.thread.trace, h)
                        + (if o.Unwinding? || StruckArmed(reach, defer, t.cancelType, o.thread) || execute != 0
                           then 1 else 0)
                  && Calls(t.trace, h) <= Calls(o.thread.trace, h) <= Calls(t.trace, h) + Pushes(inner, h))
  {
    hide Calls, PushIn, PopIn, StruckArmed;
    var i := PushIn(Frames, reach, h, defer, t);
    PushCalls(Frames, reach, h, defer, t, h);
    if i.Finished? {
      CalledAtMostOnce(Frames, reach, inner, i.thread, h);
      var o := ExecIn(Frames, reach, inner, i.thread);
      CallCounts(o.thread, h, h);
      PopCalls(Frames, reach, h, defer, execute, t.cancelType, o.thread, h);
    }
  }
}

/** The three expansions of the cleanup macros: a C++ class, the cleanup
    attribute, and a registered jump buffer. */
module CleanupForms {
  import opened Prelude
  import opened Cleanup
  import opened CleanupStrikes

  /** The calling thread. `registered` is the list of jump buffers, newest last;
      only the third expansion uses it. */
  class ThreadState {
    var cancelType: CancelType
    var left: int
    var trace: seq<Event>
    var registered: seq<UnwindBuf>

    function View(): Thread
      reads this
    {
      Thread(cancelType, left, trace)
    }

    /** Contract of `pthread_setcanceltype`. */
    method SetCancelType(to: CancelType) returns (was: CancelType)
      modifies `cancelType
      ensures cancelType == to && was == old(cancelType)
    {
      was := cancelType;
      cancelType := to;
    }

    method CallHandler(routine: nat, arg: int)
      modifies `trace
      ensures View() == old(View()).Call(Handler(routine, arg))
    {
      trace := trace + [Called(Handler(routine, arg), cancelType)];
    }

    /** A point between the steps of a push or a pop. */
    method StepPoint(reach: Reach) returns (struck: bool)
      modifies `left
      ensures struck == Struck(reach, old(View()))
      ensures View() == if struck then old(View()) else Pass(reach, old(View()))
    {
      struck := reach.Opens(cancelType) && left == 0;
      if !struck && reach.Opens(cancelType) {
        left := left - 1;
      }
    }

    /** A work point: act on a pending cancellation, or do the work. */
    method DoWork(id: nat) returns (cancelled: bool)
      modifies `left, `trace
      ensures cancelled == (old(left) == 0)
      ensures cancelled ==> View() == old(View())
      ensures !cancelled ==> View() == Thread(cancelType, old(left) - 1, old(trace) + [Did(id)])
    {
      cancelled := left == 0;
      if !cancelled {
        left := left - 1;
        trace := trace + [Did(id)];
      }
    }
  }

  // ---------- A class whose destructor calls the handler ----------

  /** `__pthread_cleanup_class` and, without its methods, `__pthread_cleanup_frame`. */
  class CleanupFrame {
    var cancelRoutine: nat
    var cancelArg: int
    var doIt: int
    var cancelType: CancelType

    constructor (fct: nat, arg: int)
      ensures cancelRoutine == fct && cancelArg == arg && doIt == 1
    {
      cancelRoutine, cancelArg, doIt := fct, arg, 1;
    }

    method Destroy(t: ThreadState)
      modifies t`trace
      ensures t.View() == if doIt != 0 then old(t.View()).Call(Handler(cancelRoutine, cancelArg))
                          else old(t.View())
    {
      if doIt != 0 {
        t.CallHandler(cancelRoutine, cancelArg);
      }
    }

    method SetDoIt(newval: int)
      modifies `doIt
      ensures doIt == newval
    {
      doIt := newval;
    }

    method Defer(t: ThreadState)
      modifies `cancelType, t`cancelType
      ensures cancelType == old(t.cancelType) && t.cancelType == Deferred
    {
      cancelType := t.SetCancelType(Deferred);
    }

    method Restore(t: ThreadState)
      modifies t`cancelType
      ensures t.cancelType == cancelType
    {
      var _ := t.SetCancelType(cancelType);
    }
  }

  /** The statements of a pop, up to the end of the frame's scope; the destructor,
      which calls the handler if it is to be called, completes them. */
  method PopClass(t: ThreadState, frame: CleanupFrame, reach: Reach, restore: bool, execute: int)
    returns (unwinding: bool)
    requires frame.doIt == 1
    modifies t`left, t`cancelType, frame`doIt
    ensures var h := Handler(frame.cancelRoutine, frame.cancelArg);
            var o := PopIn(Frames, reach, h, restore, execute, frame.cancelType, old(t.View()));
            unwinding == o.Unwinding? && CallIf(frame.doIt != 0, h, t.View()) == o.thread
  {
    unwinding := t.StepPoint(reach);
    if !unwinding && restore {
      frame.Restore(t);
      unwinding := t.StepPoint(reach);
    }
    if !unwinding {
      frame.SetDoIt(execute);
      unwinding := t.StepPoint(reach);
    }
  }

  /** Run a body with the class: leaving a block by any way destroys its frame. */
  method RunClass(t: ThreadState, reach: Reach, p: Body) returns (unwinding: bool)
    modifies t
    ensures t.View() == ExecIn(Frames, reach, p, old(t.View())).thread
    ensures unwinding <==> ExecIn(Frames, reach, p, old(t.View())).Unwinding?
    decreases p
  {
    match p
    case End => unwinding := false;
    case Work(id, rest) =>
      unwinding := t.DoWork(id);
      if !unwinding {
        unwinding := RunClass(t, reach, rest);
      }
    case SetType(to, rest) =>
      var _ := t.SetCancelType(to);
      unwinding := RunClass(t, reach, rest);
    case Exit(_) => unwinding := true;
    case Block(h, defer, inner, execute, rest) =>
      var frame := new CleanupFrame(h.routine, h.arg);
      unwinding := t.StepPoint(reach);
      if !unwinding && defer {
        frame.Defer(t);
        unwinding := t.StepPoint(reach);
      }
      if !unwinding {
        unwinding := RunClass(t, reach, inner);
      }
      if !unwinding {
        unwinding := PopClass(t, frame, reach, defer, execute);
      }
      frame.Destroy(t);
      if !unwinding {
        unwinding := RunClass(t, reach, rest);
      }
  }

  // ---------- A frame with the cleanup attribute ----------

  /** `__pthread_cleanup_routine`, called whenever the frame goes out of scope. */
  method CleanupRoutine(frame: CleanupFrame, t: ThreadState)
    modifies t`trace
    ensures t.View() == if frame.doIt != 0
                        then old(t.View()).Call(Handler(frame.cancelRoutine, frame.cancelArg))
                        else old(t.View())
  {
    if frame.doIt != 0 {
      t.CallHandler(frame.cancelRoutine, frame.cancelArg);
    }
  }

  /** The statements of a pop, completed by the cleanup routine. */
  method PopAttribute(t: ThreadState, frame: CleanupFrame, reach: Reach, restore: bool, execute: int)
    returns (unwinding: bool)
    requires frame.doIt == 1
    modifies t`left, t`cancelType, frame`doIt
    ensures var h := Handler(frame.cancelRoutine, frame.cancelArg);
            var o := PopIn(Frames, reach, h, restore, execute, frame.cancelType, old(t.View()));
            unwinding == o.Unwinding? && CallIf(frame.doIt != 0, h, t.View()) == o.thread
  {
    unwinding := t.StepPoint(reach);
    if !unwinding && restore {
      var _ := t.SetCancelType(frame.cancelType);
      unwinding := t.StepPoint(reach);
    }
    if !unwinding {
      frame.doIt := execute;
      unwinding := t.StepPoint(reach);
    }
  }

  method RunAttribute(t: ThreadState, reach: Reach, p: Body) returns (unwinding: bool)
    modifies t
    ensures t.View() == ExecIn(Frames, reach, p, old(t.View())).thread
    ensures unwinding <==> ExecIn(Frames, reach, p, old(t.View())).Unwinding?
    decreases p
  {
    match p
    case End => unwinding := false;
    case Work(id, rest) =>
      unwinding := t.DoWork(id);
      if !unwinding {
        unwinding := RunAttribute(t, reach, rest);
      }
    case SetType(to, rest) =>
      var _ := t.SetCancelType(to);
      unwinding := RunAttribute(t, reach, rest);
    case Exit(_) => unwinding := true;
    case Block(h, defer, inner, execute, rest) =>
      var frame := new CleanupFrame(h.routine, h.arg);
      unwinding := t.StepPoint(reach);
      if !unwinding && defer {
        frame.cancelType := t.SetCancelType(Deferred);
        unwinding := t.StepPoint(reach);
      }
      if !unwinding {
        unwinding := RunAttribute(t, reach, inner);
      }
      if !unwinding {
        unwinding := PopAttribute(t, frame, reach, defer, execute);
      }
      CleanupRoutine(frame, t);
      if !unwinding {
        unwinding := RunAttribute(t, reach, rest);
      }
  }

  // ---------- A registered jump buffer ----------

  /** `__pthread_unwind_buf_t`; `saved` stands for its private padding. */
  class UnwindBuf {
    var saved: CancelType

    constructor () {
    }
  }

  /** Where control goes next: on to the next statement, to the jump point of a
      buffer, or out of the thread. */
  datatype Target = Next | Jump(buf: UnwindBuf) | ThreadEnd

  function Newest(registered: seq<UnwindBuf>): Target {
    if registered == [] then ThreadEnd else Jump(Last(registered))
  }

  /** Contract of `__pthread_register_cancel` and its `_defer` variant. Whether the
      latter puts the buffer on the list only after it has changed the type is left
      open. */
  method Register(t: ThreadState, buf: UnwindBuf, defer: bool, reach: Reach, onLast: bool)
    returns (target: Target)
    modifies t`registered, t`cancelType, t`left, buf
    ensures var was := old(t.View());
            var d := Pass(reach, was).(cancelType := Deferred);
            var struck := Struck(reach, was) || (defer && Struck(reach, d));
            && t.View() == (if Struck(reach, was) then was else if struck then d
                            else if defer then Pass(reach, d) else Pass(reach, was))
            && t.registered == (if struck && defer && onLast then old(t.registered) else old(t.registered) + [buf])
            && target == (if struck then Newest(t.registered) else Next)
            && (defer && !struck ==> buf.saved == was.cancelType)
  {
    var late := defer && onLast;
    if !late {
      t.registered := t.registered + [buf];
    }
    var struck := t.StepPoint(reach);
    if !struck && defer {
      buf.saved := t.SetCancelType(Deferred);
      struck := t.StepPoint(reach);
    }
    if struck {
      return Newest(t.registered);
    }
    if late {
      t.registered := t.registered + [buf];
    }
    target := Next;
  }

  /** Contract of `__pthread_unregister_cancel` and its `_restore` variant. Whether
      the latter takes the buffer off the list before it has put the type back is
      left open. */
  method Unregister(t: ThreadState, buf: UnwindBuf, restore: bool, reach: Reach, offFirst: bool)
    returns (target: Target)
    requires t.registered != [] && Last(t.registered) == buf
    modifies t`registered, t`cancelType, t`left
    ensures var was := old(t.View());
            var v := Restored(reach, restore, buf.saved, was);
            var struck := StruckArmed(reach, restore, buf.saved, was);
            && t.View() == (if Struck(reach, was) then was else if struck || !restore then v else Pass(reach, v))
            && t.registered == (if struck && !(restore && offFirst) then old(t.registered)
                                else Front(old(t.registered)))
            && target == (if struck then Newest(t.registered) else Next)
  {
    var early := restore && offFirst;
    if early {
      t.registered := Front(t.registered);
    }
    var struck := t.StepPoint(reach);
    if !struck && restore {
      var _ := t.SetCancelType(buf.saved);
      struck := t.StepPoint(reach);
    }
    if struck {
      return Newest(t.registered);
    }
    if !early {
      t.registered := Front(t.registered);
    }
    target := Next;
  }

  /** Contract of `__pthread_unwind_next`: on to the buffer registered before. */
  method UnwindNext(t: ThreadState, buf: UnwindBuf) returns (target: Target)
    requires t.registered != [] && Last(t.registered) == buf
    modifies t`registered
    ensures t.registered == Front(old(t.registered)) && target == Newest(t.registered)
  {
    t.registered := Front(t.registered);
    target := Newest(t.registered);
  }

  /** Run a body with jump buffers. A jump lands in the block whose buffer is
      its target; that block calls its handler and passes control on. */
  method RunJumps(t: ThreadState, reach: Reach, onLast: bool, offFirst: bool, p: Body)
    returns (target: Target)
    modifies t
    ensures t.View() == ExecIn(Jumps(onLast, offFirst), reach, p, old(t.View())).thread
    ensures t.registered == old(t.registered)
    ensures target == if ExecIn(Jumps(onLast, offFirst), reach, p, old(t.View())).Unwinding?
                      then Newest(old(t.registered)) else Next
    decreases p, 1
  {
    target := Next;
    match p
    case End =>
    case Work(id, rest) =>
      var cancelled := t.DoWork(id);
      if cancelled {
        target := Newest(t.registered);
      } else {
        target := RunJumps(t, reach, onLast, offFirst, rest);
      }
    case SetType(to, rest) =>
      var _ := t.SetCancelType(to);
      target := RunJumps(t, reach, onLast, offFirst, rest);
    case Exit(_) =>
      target := Newest(t.registered);
    case Block(_, _, _, _, _) =>
      target := RunBlockJumps(t, reach, onLast, offFirst, p);
  }

  method RunBlockJumps(t: ThreadState, reach: Reach, onLast: bool, offFirst: bool, p: Body)
    returns (target: Target)
    requires p.Block?
    modifies t
    ensures t.View() == ExecIn(Jumps(onLast, offFirst), reach, p, old(t.View())).thread
    ensures t.registered == old(t.registered)
    ensures target == if ExecIn(Jumps(onLast, offFirst), reach, p, old(t.View())).Unwinding?
                      then Newest(old(t.registered)) else Next
    decreases p, 0
  {
    var cancelBuf := new UnwindBuf();
    var cancelRoutine, cancelArg := p.handler.routine, p.handler.arg;
    target := Register(t, cancelBuf, p.defer, reach, onLast);
    var begun := target == Next;
    if begun {
      target := RunJumps(t, reach, onLast, offFirst, p.inner);
    }
    if begun && target == Next {
      target := Unregister(t, cancelBuf, p.defer, reach, offFirst);
      if target == Next {
        var struck := t.StepPoint(reach);
        if struck {
          target := Newest(t.registered);
        } else if p.execute != 0 {
          t.CallHandler(cancelRoutine, cancelArg);
        }
      }
    }
    if target == Jump(cancelBuf) {
      t.CallHandler(cancelRoutine, cancelArg);
      target := UnwindNext(t, cancelBuf);
    } else if target == Next {
      target := RunJumps(t, reach, onLast, offFirst, p.rest);
    }
  }

  /** The class and the attribute leave equal traces, types and outcomes at every
      strike point, those between the steps of a push or pop included. So does the
      jump buffer, when cancellation strikes in bodies only and wherever the program
      is not exposed; a strike in a body has the meaning of the handler stack. */
  method SameTraces(t1: ThreadState, t2: ThreadState, t3: ThreadState,
                    reach: Reach, onLast: bool, offFirst: bool, p: Body)
    returns (unwinding1: bool, unwinding2: bool, target: Target)
    requires t1 != t2 && t1 != t3 && t2 != t3
    requires t1.View() == t2.View() == t3.View() && t3.registered == []
    modifies t1, t2, t3
    ensures t1.View() == t2.View() && unwinding1 == unwinding2
    ensures reach.Bodies? || !Exposed(reach, Jumps(onLast, offFirst), p, old(t1.cancelType)) ==>
              t1.View() == t3.View() && (unwinding1 <==> target == ThreadEnd)
    ensures reach.Bodies? ==>
              t1.View() == Exec(p, old(t1.View())).thread && unwinding1 == Exec(p, old(t1.View())).Unwinding?
  {
    ghost var t, jumps := t1.View(), Jumps(onLast, offFirst);
    unwinding1 := RunClass(t1, reach, p);
    unwinding2 := RunAttribute(t2, reach, p);
    target := RunJumps(t3, reach, onLast, offFirst, p);
    if reach.Bodies? {
      StrikesInBodies(Frames, p, t);
      StrikesInBodies(jumps, p, t);
    } else if !Exposed(reach, jumps, p, t.cancelType) {
      FormsAgree(reach, jumps, p, t);
    }
  }
}

/** What cleanup handlers do: blocks bracketed by push and pop, in which the
    thread may finish, exit or be cancelled. */
module Cleanup {
  import opened Prelude

  datatype CancelType = Deferred | Asynchronous

  datatype Handler = Handler(routine: nat, arg: int)

  /** A body of statements. `Work` is a point where a pending cancellation is
      acted upon; `defer` marks the push_defer/pop_restore pair. */
  datatype Body =
    | End
    | Work(id: nat, rest: Body)
    | SetType(to: CancelType, rest: Body)
    | Exit(rest: Body)
    | Block(handler: Handler, defer: bool, inner: Body, execute: int, rest: Body)

  /** What can be observed: work done, and handlers called together with the
      cancellation type in force at the call. */
  datatype Event = Did(id: nat) | Called(handler: Handler, under: CancelType)

  /** A thread; cancellation strikes at the work point reached with `left` zero,
      and never when `left` is negative. */
  datatype Thread = Thread(cancelType: CancelType, left: int, trace: seq<Event>)
  {
    function Call(h: Handler): Thread {
      this.(trace := trace + [Called(h, cancelType)])
    }
  }

  datatype Outcome = Finished(thread: Thread) | Unwinding(thread: Thread)

  /** The meaning of a body: where the thread stands when control leaves it. */
  function Exec(p: Body, t: Thread): Outcome {
    match p
    case End => Finished(t)
    case Work(id, rest) =>
      if t.left == 0 then Unwinding(t)
      else Exec(rest, t.(left := t.left - 1, trace := t.trace + [Did(id)]))
    case SetType(to, rest) => Exec(rest, t.(cancelType := to))
    case Exit(_) => Unwinding(t)
    case Block(h, defer, inner, execute, rest) =>
      match Exec(inner, if defer then t.(cancelType := Deferred) else t)
      case Unwinding(u) => Unwinding(u.Call(h))
      case Finished(u) =>
        var v := if defer then u.(cancelType := t.cancelType) else u;
        Exec(rest, if execute != 0 then v.Call(h) else v)
  }

  // ---------- The stack of handlers ----------

  /** The program text of a body, one instruction per statement, push or pop. */
  datatype Instr =
    | DoWork(id: nat)
    | ChangeType(to: CancelType)
    | Quit
    | Push(handler: Handler, defer: bool)
    | Pop(execute: int, restore: bool)

  function Text(p: Body): seq<Instr> {
    match p
    case End => []
    case Work(id, rest) => [DoWork(id)] + Text(rest)
    case SetType(to, rest) => [ChangeType(to)] + Text(rest)
    case Exit(rest) => [Quit] + Text(rest)
    case Block(h, defer, inner, execute, rest) =>
      [Push(h, defer)] + (Text(inner) + ([Pop(execute, defer)] + Text(rest)))
  }

  /** A pushed handler, numbered in order of pushing, with the type then in force. */
  datatype Entry = Entry(serial: nat, handler: Handler, saved: CancelType)

  /** The calling thread's cancellation-cleanup stack, top last, and its record:
      how many pushes there were, which of them ran, and which were discarded. */
  datatype Machine = Machine(thread: Thread, stack: seq<Entry>,
                             pushed: nat, ran: seq<nat>, discarded: seq<nat>)
  {
    function RunTop(): Machine
      requires stack != []
    {
      var e := Last(stack);
      this.(thread := thread.Call(e.handler), stack := Front(stack), ran := ran + [e.serial])
    }
  }

  /** Exit or cancellation pops and runs every handler on the stack. */
  function Unwind(m: Machine): Machine
    decreases |m.stack|
  {
    if m.stack == [] then m else Unwind(m.RunTop())
  }

  /** The calls of all handlers on a stack, from the top down. */
  function TopDown(stack: seq<Entry>, under: CancelType): seq<Event> {
    seq(|stack|, i requires 0 <= i < |stack| => Called(stack[|stack| - 1 - i].handler, under))
  }

  /** Unwinding calls every open handler, innermost first, and no other. */
  lemma {:induction false} UnwindOrder(m: Machine)
    ensures Unwind(m).thread.trace == m.thread.trace + TopDown(m.stack, m.thread.cancelType)
    ensures Unwind(m).stack == []
    decreases |m.stack|
  {
    if m.stack != [] {
      UnwindOrder(m.RunTop());
      assert TopDown(m.stack, m.thread.cancelType)
          == [Called(Last(m.stack).handler, m.thread.cancelType)] + TopDown(Front(m.stack), m.thread.cancelType);
    }
  }

  datatype Result = Ok(m: Machine) | Ended(m: Machine) | Stuck

  function Advance(i: Instr, m: Machine): Result {
    var t := m.thread;
    match i
    case DoWork(id) =>
      if t.left == 0 then Ended(Unwind(m))
      else Ok(m.(thread := t.(left := t.left - 1, trace := t.trace + [Did(id)])))
    case ChangeType(to) => Ok(m.(thread := t.(cancelType := to)))
    case Quit => Ended(Unwind(m))
    case Push(h, defer) =>
      Ok(m.(thread := if defer then t.(cancelType := Deferred) else t,
            stack := m.stack + [Entry(m.pushed, h, t.cancelType)],
            pushed := m.pushed + 1))
    case Pop(execute, restore) =>
      if m.stack == [] then Stuck
      else
        var e := Last(m.stack);
        var n := m.(thread := if restore then t.(cancelType := e.saved) else t);
        Ok(if execute != 0 then n.RunTop()
           else n.(stack := Front(m.stack), discarded := m.discarded + [e.serial]))
  }

  function Execute(code: seq<Instr>, m: Machine): Result
    decreases |code|
  {
    if code == [] then Ok(m)
    else
      match Advance(code[0], m)
      case Ok(n) => Execute(code[1..], n)
      case r => r
  }

  /** Exit, and a work point where cancellation strikes, end the thread after a call
      of every open handler, innermost first; any other work point does its work. */
  lemma ExitOrStrike(i: Instr, k: seq<Instr>, m: Machine)
    requires i.Quit? || i.DoWork?
    ensures var r := Execute([i] + k, m);
            if i.Quit? || m.thread.left == 0 then
              && r.Ended? && r.m.stack == []
              && r.m.thread.trace == m.thread.trace + TopDown(m.stack, m.thread.cancelType)
            else
              var t := Thread(m.thread.cancelType, m.thread.left - 1, m.thread.trace + [Did(i.id)]);
              r == Execute(k, m.(thread := t))
  {
    assert ([i] + k)[1..] == k;
    UnwindOrder(m);
  }

  /** What an outcome of a body means for the handler stack around it. */
  ghost predicate Matches(o: Outcome, code: seq<Instr>, k: seq<Instr>, m: Machine)
  {
    match o
    case Finished(t) =>
      exists n: Machine :: n.thread == t && n.stack == m.stack && Execute(code, m) == Execute(k, n)
    case Unwinding(t) =>
      exists n: Machine :: n.thread == t && n.stack == m.stack && Execute(code, m) == Ended(Unwind(n))
  }

  /** Block structure agrees with the handler stack, whatever code follows and
      whatever handlers are already pushed. */
  lemma {:induction false} BodyMatchesStack(p: Body, m: Machine, k: seq<Instr>)
    ensures Matches(Exec(p, m.thread), Text(p) + k, k, m)
    decreases p, 1
  {
    match p
    case End =>
      assert Text(p) + k == k;
    case Work(id, rest) =>
      assert (Text(p) + k)[1..] == Text(rest) + k;
      if m.thread.left != 0 {
        BodyMatchesStack(rest, Advance(DoWork(id), m).m, k);
      }
    case SetType(to, rest) =>
      assert (Text(p) + k)[1..] == Text(rest) + k;
      BodyMatchesStack(rest, Advance(ChangeType(to), m).m, k);
    case Exit(rest) =>
      assert (Text(p) + k)[0] == Quit;
    case Block(h, defer, inner, execute, rest) =>
      BlockMatchesStack(p, m, k);
  }

  lemma {:induction false} BlockMatchesStack(p: Body, m: Machine, k: seq<Instr>)
    requires p.Block?
    ensures Matches(Exec(p, m.thread), Text(p) + k, k, m)
    decreases p, 0
  {
    var k1 := [Pop(p.execute, p.defer)] + (Text(p.rest) + k);
    var m1 := Advance(Push(p.handler, p.defer), m).m;
    assert (Text(p) + k)[1..] == Text(p.inner) + k1;
    assert Execute(Text(p) + k, m) == Execute(Text(p.inner) + k1, m1);
    BodyMatchesStack(p.inner, m1, k1);
    match Exec(p.inner, m1.thread)
    case Unwinding(u) =>
      var n: Machine :| n.thread == u && n.stack == m1.stack && Execute(Text(p.inner) + k1, m1) == Ended(Unwind(n));
      assert Front(n.stack) == m.stack;
      assert Unwind(n) == Unwind(n.RunTop());
    case Finished(u) =>
      var n: Machine :| n.thread == u && n.stack == m1.stack && Execute(Text(p.inner) + k1, m1) == Execute(k1, n);
      assert Front(n.stack) == m.stack;
      var n1 := Advance(Pop(p.execute, p.defer), n).m;
      assert k1[1..] == Text(p.rest) + k;
      assert Execute(k1, n) == Execute(Text(p.rest) + k, n1);
      BodyMatchesStack(p.rest, n1, k);
  }

  function Start(t: Thread): Machine {
    Machine(t, [], 0, [], [])
  }

  /** Run alone, a body leaves exactly the trace the handler stack prescribes,
      and leaves no handler behind. */
  lemma ProgramMatchesStack(p: Body, t: Thread)
    ensures var r := Execute(Text(p), Start(t));
            match Exec(p, t)
            case Finished(u) => r.Ok? && r.m.thread == u && r.m.stack == []
            case Unwinding(u) => r.Ended? && r.m.thread == u && r.m.stack == []
  {
    assert Text(p) + [] == Text(p);
    BodyMatchesStack(p, Start(t), []);
  }

  // ---------- Each handler at most once ----------

  function Serials(stack: seq<Entry>): seq<nat> {
    if stack == [] then [] else Serials(Front(stack)) + [Last(stack).serial]
  }

  function UpTo(n: nat): seq<nat> {
    if n == 0 then [] else UpTo(n - 1) + [n - 1]
  }

  /** Every push so far is accounted for once: on the stack, run, or discarded. */
  predicate Accounted(m: Machine) {
    multiset(Serials(m.stack)) + multiset(m.ran) + multiset(m.discarded) == multiset(UpTo(m.pushed))
  }

  lemma SerialsSnoc(stack: seq<Entry>)
    requires stack != []
    ensures multiset(Serials(stack)) == multiset(Serials(Front(stack))) + multiset{Last(stack).serial}
  {
  }

  lemma UpToSnoc(n: nat)
    ensures multiset(UpTo(n + 1)) == multiset(UpTo(n)) + multiset{n}
  {
  }

  lemma PushAccounted(m: Machine, n: Machine)
    requires Accounted(m)
    requires n.stack != [] && Front(n.stack) == m.stack && Last(n.stack).serial == m.pushed
    requires n.pushed == m.pushed + 1 && n.ran == m.ran && n.discarded == m.discarded
    ensures Accounted(n)
  {
    SerialsSnoc(n.stack);
    UpToSnoc(m.pushed);
    hide Serials, UpTo;
  }

  lemma PopAccounted(m: Machine, n: Machine)
    requires Accounted(m) && m.stack != []
    requires n.stack == Front(m.stack) && n.pushed == m.pushed
    requires var s := [Last(m.stack).serial];
             || (n.ran == m.ran + s && n.discarded == m.discarded)
             || (n.ran == m.ran && n.discarded == m.discarded + s)
    ensures Accounted(n)
  {
    var s := [Last(m.stack).serial];
    SerialsSnoc(m.stack);
    hide Serials, UpTo;
    assert multiset(n.ran) + multiset(n.discarded) == multiset(m.ran) + multiset(m.discarded) + multiset(s);
  }

  lemma {:induction false} UnwindAccounted(m: Machine)
    requires Accounted(m)
    ensures Accounted(Unwind(m)) && Unwind(m).stack == []
    ensures Unwind(m).pushed == m.pushed && Unwind(m).discarded == m.discarded
    decreases |m.stack|
  {
    if m.stack != [] {
      UnwindAccounted(m.RunTop());
    }
  }

  lemma SameAccounted(m: Machine, n: Machine)
    requires Accounted(m)
    requires n.stack == m.stack && n.pushed == m.pushed && n.ran == m.ran && n.discarded == m.discarded
    ensures Accounted(n)
  {
  }

  lemma AdvanceAccounted(i: Instr, m: Machine)
    requires Accounted(m)
    ensures Advance(i, m).Stuck? || Accounted(Advance(i, m).m)
    ensures Advance(i, m).Ended? ==> Advance(i, m).m.stack == []
  {
    hide Accounted, Unwind;
    match i
    case DoWork(_) =>
      UnwindAccounted(m);
      if m.thread.left != 0 {
        SameAccounted(m, Advance(i, m).m);
      }
    case ChangeType(_) => SameAccounted(m, Advance(i, m).m);
    case Quit => UnwindAccounted(m);
    case Push(_, _) => PushAccounted(m, Advance(i, m).m);
    case Pop(_, _) =>
      if m.stack != [] {
        PopAccounted(m, Advance(i, m).m);
      }
  }

  /** For any code and any point of exit or cancellation, pushes stay accounted
      for, and after an exit none is left open. */
  lemma {:induction false} Conservation(code: seq<Instr>, m: Machine)
    requires Accounted(m)
    ensures Execute(code, m).Stuck? || Accounted(Execute(code, m).m)
    ensures Execute(code, m).Ended? ==> Execute(code, m).m.stack == []
    decreases |code|
  {
    if code != [] {
      AdvanceAccounted(code[0], m);
      if Advance(code[0], m).Ok? {
        Conservation(code[1..], Advance(code[0], m).m);
      }
    }
  }

  lemma {:induction false} UpToOnce(n: nat, k: nat)
    ensures multiset(UpTo(n))[k] == if k < n then 1 else 0
  {
    if n > 0 {
      UpToOnce(n - 1, k);
    }
  }

  /** In a whole program each push's handler runs once or is discarded once by a
      pop with zero `execute`, never both, wherever the thread stops. */
  lemma HandlersOnce(p: Body, t: Thread, k: nat)
    ensures var r := Execute(Text(p), Start(t));
            && !r.Stuck?
            && multiset(r.m.ran)[k] + multiset(r.m.discarded)[k] == if k < r.m.pushed then 1 else 0
  {
    ProgramMatchesStack(p, t);
    Conservation(Text(p), Start(t));
    var r := Execute(Text(p), Start(t));
    UpToOnce(r.m.pushed, k);
    assert multiset(UpTo(r.m.pushed)) == multiset(r.m.ran) + multiset(r.m.discarded);
  }

  // ---------- Cancellation types ----------

  /** On the handler stack, a push_defer/pop_restore pair whose body finishes puts
      back the type from before the push, whatever types and handlers the body
      used, and does so before its own handler runs. */
  lemma DeferRestores(h: Handler, inner: Body, execute: int, m: Machine, k: seq<Instr>)
    requires Exec(inner, m.thread.(cancelType := Deferred)).Finished?
    ensures var u := Exec(inner, m.thread.(cancelType := Deferred)).thread;
            exists n: Machine ::
              && Execute([Push(h, true)] + (Text(inner) + ([Pop(execute, true)] + k)), m) == Execute(k, n)
              && n.stack == m.stack
              && n.thread.cancelType == m.thread.cancelType
              && n.thread.trace == u.trace + (if execute != 0 then [Called(h, m.thread.cancelType)] else [])
  {
    hide Execute, Text, Exec;
    var k1 := [Pop(execute, true)] + k;
    var m1 := Advance(Push(h, true), m).m;
    ExecuteCons(Push(h, true), Text(inner) + k1, m);
    var n := FinishedBody(inner, m1, k1);
    assert Front(n.stack) == m.stack;
    ExecuteCons(Pop(execute, true), k, n);
  }

  lemma ExecuteCons(i: Instr, rest: seq<Instr>, m: Machine)
    requires Advance(i, m).Ok?
    ensures Execute([i] + rest, m) == Execute(rest, Advance(i, m).m)
  {
    assert ([i] + rest)[1..] == rest;
  }

  lemma FinishedBody(p: Body, m: Machine, k: seq<Instr>) returns (n: Machine)
    requires Exec(p, m.thread).Finished?
    ensures n.thread == Exec(p, m.thread).thread && n.stack == m.stack
    ensures Execute(Text(p) + k, m) == Execute(k, n)
  {
    BodyMatchesStack(p, m, k);
    n :| n.thread == Exec(p, m.thread).thread && n.stack == m.stack && Execute(Text(p) + k, m) == Execute(k, n);
  }

  /** Types are changed only inside deferring blocks. */
  predicate TypeKept(p: Body) {
    match p
    case End => true
    case Work(_, rest) => TypeKept(rest)
    case SetType(_, _) => false
    case Exit(rest) => TypeKept(rest)
    case Block(_, defer, inner, _, rest) => (defer || TypeKept(inner)) && TypeKept(rest)
  }

  /** Such a body leaves the cancellation type as it found it. */
  lemma {:induction false} TypeBalanced(p: Body, t: Thread)
    requires TypeKept(p) && Exec(p, t).Finished?
    ensures Exec(p, t).thread.cancelType == t.cancelType
    decreases p
  {
    match p
    case End =>
    case Work(id, rest) =>
      TypeBalanced(rest, t.(left := t.left - 1, trace := t.trace + [Did(id)]));
    case Exit(rest) =>
    case Block(h, defer, inner, execute, rest) =>
      var t1 := if defer then t.(cancelType := Deferred) else t;
      if !defer {
        TypeBalanced(inner, t1);
      }
      var u := Exec(inner, t1).thread;
      var v := if defer then u.(cancelType := t.cancelType) else u;
      TypeBalanced(rest, if execute != 0 then v.Call(h) else v);
  }
}

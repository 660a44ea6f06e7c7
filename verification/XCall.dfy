/**
 Cross-CPU calls (kernel/sched/xcall.c) as a step system.

 Every CPU owns one request slot.  A caller keeps its request on its own kernel
 stack, posts a pointer to it in the target's slot and spins until the target
 has run the function; while it spins it serves its own slot, and a function it
 serves may call again, so each CPU carries a stack of unfinished calls.

 One step is one section the source runs under a slot lock (or the return of
 the called function).  A poll that finds nothing to do changes nothing and is
 not a step.  What the called functions do besides calling is not modelled: a
 running function may call any CPU any number of times and return any value.
 */
module XCall {
  import opened Sequences

  type Cpu = nat
  type Id = nat

  /** An activation on a CPU's kernel stack. */
  datatype Frame =
    | Calling(id: Id, target: Cpu, posted: bool)  // inside ulmk_xcall, spinning
    | Serving(id: Id)                             // inside ulmk_xcall_service, in x->fn
    | Direct(id: Id)                              // ulmk_xcall ran fn(arg) in place

  /** The fields of struct ulmk_xcall that are written after it is built. */
  datatype Request = Request(rc: int, done: bool)

  datatype Event =
    | Called(id: Id, cpu: Cpu, target: Cpu)
    | Ran(id: Id, cpu: Cpu, rc: int)
    | Returned(id: Id, cpu: Cpu, rc: int)

  /** How far a call has got.  Bookkeeping: no step looks at it. */
  datatype Phase = Local | Posted | Taken(at: nat) | Done(rc: int) | Gone(rc: int)
  datatype Book = Book(caller: Cpu, target: Cpu, depth: nat, direct: bool, phase: Phase)

  /**
   `mem` holds the requests whose storage exists: a request appears when
   ulmk_xcall builds it and disappears when ulmk_xcall returns.  `fault` records
   that a CPU followed a pointer to a request that no longer exists or was
   already marked done.
   */
  datatype State = State(
    online: seq<bool>,
    slot: seq<Option<Id>>,
    stack: seq<seq<Frame>>,
    mem: map<Id, Request>,
    fault: bool,
    log: seq<Event>,
    book: seq<Book>)

  datatype Step =
    | GoOnline(cpu: Cpu)
    | Call(cpu: Cpu, target: Cpu)
    | Post(cpu: Cpu)
    | Take(cpu: Cpu)
    | Finish(cpu: Cpu, rc: int)
    | FinishDirect(cpu: Cpu, rc: int)
    | Return(cpu: Cpu)

  function Init(n: nat): State {
    State(seq(n, _ => false), seq(n, _ => None), seq(n, _ => []), map[], false, [], [])
  }

  ghost predicate Shape(s: State) {
    |s.online| == |s.slot| == |s.stack|
  }

  predicate HasTop(s: State, c: Cpu) {
    c < |s.stack| && s.stack[c] != []
  }

  function Top(s: State, c: Cpu): Frame
    requires HasTop(s, c)
  {
    s.stack[c][|s.stack[c]| - 1]
  }

  function Push(s: State, c: Cpu, f: Frame): State
    requires c < |s.stack|
  {
    s.(stack := s.stack[c := s.stack[c] + [f]])
  }

  function Pop(s: State, c: Cpu): State
    requires HasTop(s, c)
  {
    s.(stack := s.stack[c := s.stack[c][..|s.stack[c]| - 1]])
  }

  function Touch(s: State, id: Id): State {
    s.(fault := s.fault || id !in s.mem || s.mem[id].done)
  }

  /** Ordinary kernel code or a served function: the places a call can start from. */
  predicate Computing(s: State, c: Cpu) {
    c < |s.stack| && (s.stack[c] == [] || !Top(s, c).Calling?)
  }

  /** IPI entry outside any call, or one of the two polling loops. */
  predicate Polling(s: State, c: Cpu) {
    c < |s.stack| && (s.stack[c] == [] || Top(s, c).Calling?)
  }

  predicate Enabled(s: State, t: Step)
    requires Shape(s)
  {
    match t
    case GoOnline(c) => c < |s.online| && !s.online[c]
    case Call(c, d) => c < |s.online| && d < |s.online| && s.online[c] && Computing(s, c)
    case Post(c) => HasTop(s, c) && Top(s, c).Calling? && !Top(s, c).posted
                    && Top(s, c).target < |s.slot| && s.slot[Top(s, c).target].None?
    case Take(c) => c < |s.slot| && s.online[c] && Polling(s, c) && s.slot[c].Some?
    case Finish(c, rc) => HasTop(s, c) && Top(s, c).Serving?
    case FinishDirect(c, rc) => HasTop(s, c) && Top(s, c).Direct?
    case Return(c) => HasTop(s, c) && Top(s, c).Calling? && Top(s, c).posted
                      && Top(s, c).id in s.mem && s.mem[Top(s, c).id].done
  }

  function SetPhase(s: State, id: Id, p: Phase): State {
    if id < |s.book| then s.(book := s.book[id := s.book[id].(phase := p)]) else s
  }

  function Next(s: State, t: Step): State
    requires Shape(s) && Enabled(s, t)
  {
    match t
    case GoOnline(c) => s.(online := s.online[c := true])
    case Call(c, d) =>
      var id := |s.book|;
      var direct := d == c || !s.online[d];
      var s1 := s.(log := s.log + [Called(id, c, d)],
                   book := s.book + [Book(c, d, |s.stack[c]|, direct, Local)]);
      if direct then Push(s1, c, Direct(id))
      else Push(s1.(mem := s.mem[id := Request(0, false)]), c, Calling(id, d, false))
    case Post(c) =>
      var f := Top(s, c);
      var s1 := s.(slot := s.slot[f.target := Some(f.id)]);
      SetPhase(Push(Pop(s1, c), c, f.(posted := true)), f.id, Posted)
    case Take(c) =>
      var id := s.slot[c].value;
      var s1 := Touch(s, id).(slot := s.slot[c := None]);
      SetPhase(Push(s1, c, Serving(id)), id, Taken(|s.stack[c]|))
    case Finish(c, rc) =>
      var id := Top(s, c).id;
      var s1 := Touch(Pop(s, c), id);
      SetPhase(s1.(log := s.log + [Ran(id, c, rc)], mem := s.mem[id := Request(rc, true)]), id, Done(rc))
    case FinishDirect(c, rc) =>
      var id := Top(s, c).id;
      SetPhase(Pop(s, c).(log := s.log + [Ran(id, c, rc)] + [Returned(id, c, rc)]), id, Gone(rc))
    case Return(c) =>
      var id := Top(s, c).id;
      var rc := s.mem[id].rc;
      SetPhase(Pop(s, c).(log := s.log + [Returned(id, c, rc)], mem := s.mem - {id}), id, Gone(rc))
  }

  /** The state after a run of steps, each of which must be enabled. */
  ghost predicate Run(s: State, steps: seq<Step>, s': State)
    decreases |steps|
  {
    if steps == [] then s == s'
    else Shape(s) && Enabled(s, steps[0]) && Run(Next(s, steps[0]), steps[1..], s')
  }

  // ---------------------------------------------------------------- events

  /** The events of one call, in order. */
  function Trace(log: seq<Event>, id: Id): seq<Event> {
    if log == [] then []
    else Trace(log[..|log| - 1], id) + (if log[|log| - 1].id == id then [log[|log| - 1]] else [])
  }

  /** A call's whole life: called once, run once on the right CPU, its result returned once. */
  function Life(id: Id, b: Book, rc: int): seq<Event> {
    [Called(id, b.caller, b.target), Ran(id, Runner(b), rc), Returned(id, b.caller, rc)]
  }

  function Runner(b: Book): Cpu {
    if b.direct then b.caller else b.target
  }

  function Expected(id: Id, b: Book): seq<Event> {
    match b.phase
    case Done(rc) => [Called(id, b.caller, b.target)] + [Ran(id, Runner(b), rc)]
    case Gone(rc) => [Called(id, b.caller, b.target)] + [Ran(id, Runner(b), rc)] + [Returned(id, b.caller, rc)]
    case _ => [Called(id, b.caller, b.target)]
  }

  lemma TraceAppend(log: seq<Event>, e: Event, id: Id)
    ensures Trace(log + [e], id) == Trace(log, id) + (if e.id == id then [e] else [])
  {
    assert (log + [e])[..|log|] == log;
  }

  // ------------------------------------------------------------- invariant

  ghost predicate FrameOk(s: State, c: Cpu, i: nat)
    requires c < |s.stack| && i < |s.stack[c]|
  {
    var f := s.stack[c][i];
    f.id < |s.book| &&
    var b := s.book[f.id];
    match f
    case Calling(id, target, posted) =>
      !b.direct && b.caller == c && b.depth == i && b.target == target
      && !b.phase.Gone? && posted == !b.phase.Local?
    case Serving(id) => !b.direct && b.target == c && b.phase == Taken(i)
    case Direct(id) => b.direct && b.caller == c && b.depth == i && b.phase.Local?
  }

  ghost predicate BookOk(s: State, id: Id)
    requires Shape(s) && id < |s.book|
  {
    var b := s.book[id];
    b.caller < |s.stack| && b.target < |s.stack| &&
    if b.phase.Gone? then id !in s.mem
    else if b.direct then
      id !in s.mem && b.phase.Local?
      && b.depth < |s.stack[b.caller]| && s.stack[b.caller][b.depth] == Direct(id)
    else
      id in s.mem && b.target != b.caller && s.online[b.target]
      && b.depth < |s.stack[b.caller]|
      && s.stack[b.caller][b.depth] == Calling(id, b.target, !b.phase.Local?)
      && s.mem[id].done == b.phase.Done?
      && (b.phase.Done? ==> s.mem[id].rc == b.phase.rc)
      && (b.phase.Posted? ==> s.slot[b.target] == Some(id))
      && (b.phase.Taken? ==> b.phase.at < |s.stack[b.target]|
                             && s.stack[b.target][b.phase.at] == Serving(id))
  }

  ghost predicate SlotOk(s: State, c: Cpu)
    requires Shape(s) && c < |s.slot|
  {
    s.slot[c].Some? ==>
      var id := s.slot[c].value;
      id < |s.book| && !s.book[id].direct && s.book[id].target == c && s.book[id].phase.Posted?
  }

  /** A function runs only calls that are younger than the call it serves. */
  ghost predicate Ordered(s: State) {
    forall c, i, j :: 0 <= c < |s.stack| && 0 <= i < j < |s.stack[c]|
                      && s.stack[c][i].Serving? && s.stack[c][j].Calling?
                      ==> s.stack[c][i].id < s.stack[c][j].id
  }

  ghost predicate Inv(s: State) {
    && Shape(s)
    && (forall c, i :: 0 <= c < |s.stack| && 0 <= i < |s.stack[c]| ==> FrameOk(s, c, i))
    && (forall id :: 0 <= id < |s.book| ==> BookOk(s, id))
    && (forall c :: 0 <= c < |s.slot| ==> SlotOk(s, c))
    && (forall id :: id in s.mem ==> id < |s.book|)
    && (forall c :: 0 <= c < |s.stack| && s.stack[c] != [] ==> s.online[c])
    && Ordered(s)
    && !s.fault
  }

  ghost predicate TraceOk(s: State, id: Id) {
    Trace(s.log, id) == if id < |s.book| then Expected(id, s.book[id]) else []
  }

  ghost predicate TracesOk(s: State) {
    forall id: nat :: TraceOk(s, id)
  }

  lemma CallKeepsFrame(s: State, c: Cpu, d: Cpu, e: Cpu, i: nat)
    requires Inv(s) && Enabled(s, Call(c, d))
    requires e < |s.stack| && i < |Next(s, Call(c, d)).stack[e]|
    ensures FrameOk(Next(s, Call(c, d)), e, i)
  {
    if i < |s.stack[e]| { assert FrameOk(s, e, i); }
  }

  lemma CallKeepsBook(s: State, c: Cpu, d: Cpu, id: Id)
    requires Inv(s) && Enabled(s, Call(c, d)) && id <= |s.book|
    ensures BookOk(Next(s, Call(c, d)), id)
  {
    if id < |s.book| { assert BookOk(s, id); }
  }

  lemma CallKeepsInv(s: State, c: Cpu, d: Cpu)
    requires Inv(s) && Enabled(s, Call(c, d))
    ensures Inv(Next(s, Call(c, d)))
  {
    var s' := Next(s, Call(c, d));
    forall e, i | 0 <= e < |s'.stack| && 0 <= i < |s'.stack[e]|
      ensures FrameOk(s', e, i) { CallKeepsFrame(s, c, d, e, i); }
    forall id | 0 <= id < |s'.book| ensures BookOk(s', id) { CallKeepsBook(s, c, d, id); }
    forall e | 0 <= e < |s'.slot| ensures SlotOk(s', e) { assert SlotOk(s, e); }
    forall e, i, j | 0 <= e < |s'.stack| && 0 <= i < j < |s'.stack[e]|
                     && s'.stack[e][i].Serving? && s'.stack[e][j].Calling?
      ensures s'.stack[e][i].id < s'.stack[e][j].id
    {
      assert FrameOk(s, e, i);
    }
  }

  lemma PostKeepsInv(s: State, c: Cpu)
    requires Inv(s) && Enabled(s, Post(c))
    ensures Inv(Next(s, Post(c)))
  {
    var s' := Next(s, Post(c));
    var top := |s.stack[c]| - 1;
    var f := Top(s, c);
    assert FrameOk(s, c, top) && BookOk(s, f.id);
    forall e, i | 0 <= e < |s'.stack| && 0 <= i < |s'.stack[e]|
      ensures FrameOk(s', e, i)
    {
      assert FrameOk(s, e, i);
    }
    forall id | 0 <= id < |s'.book| ensures BookOk(s', id) { assert BookOk(s, id); }
    forall e | 0 <= e < |s'.slot| ensures SlotOk(s', e) { assert SlotOk(s, e); }
    assert forall e, i :: 0 <= e < |s'.stack| && 0 <= i < |s'.stack[e]| ==>
      s'.stack[e][i].id == s.stack[e][i].id && s'.stack[e][i].Serving? == s.stack[e][i].Serving?
      && s'.stack[e][i].Calling? == s.stack[e][i].Calling?;
  }

  lemma TakeKeepsInv(s: State, c: Cpu)
    requires Inv(s) && Enabled(s, Take(c))
    ensures Inv(Next(s, Take(c)))
  {
    var s' := Next(s, Take(c));
    var id0 := s.slot[c].value;
    assert SlotOk(s, c) && BookOk(s, id0);
    forall e, i | 0 <= e < |s'.stack| && 0 <= i < |s'.stack[e]|
      ensures FrameOk(s', e, i)
    {
      if i < |s.stack[e]| { assert FrameOk(s, e, i); }
    }
    forall id | 0 <= id < |s'.book| ensures BookOk(s', id) { assert BookOk(s, id); }
    forall e | 0 <= e < |s'.slot| ensures SlotOk(s', e) { assert SlotOk(s, e); }
  }

  lemma FinishKeepsInv(s: State, c: Cpu, rc: int)
    requires Inv(s) && Enabled(s, Finish(c, rc))
    ensures Inv(Next(s, Finish(c, rc)))
  {
    var s' := Next(s, Finish(c, rc));
    assert FrameOk(s, c, |s.stack[c]| - 1) && BookOk(s, Top(s, c).id);
    forall e, i | 0 <= e < |s'.stack| && 0 <= i < |s'.stack[e]|
      ensures FrameOk(s', e, i) { assert FrameOk(s, e, i); }
    forall id | 0 <= id < |s'.book| ensures BookOk(s', id) { assert BookOk(s, id); }
    forall e | 0 <= e < |s'.slot| ensures SlotOk(s', e) { assert SlotOk(s, e); }
  }

  lemma FinishDirectKeepsInv(s: State, c: Cpu, rc: int)
    requires Inv(s) && Enabled(s, FinishDirect(c, rc))
    ensures Inv(Next(s, FinishDirect(c, rc)))
  {
    var s' := Next(s, FinishDirect(c, rc));
    assert FrameOk(s, c, |s.stack[c]| - 1) && BookOk(s, Top(s, c).id);
    forall e, i | 0 <= e < |s'.stack| && 0 <= i < |s'.stack[e]|
      ensures FrameOk(s', e, i) { assert FrameOk(s, e, i); }
    forall id | 0 <= id < |s'.book| ensures BookOk(s', id) { assert BookOk(s, id); }
    forall e | 0 <= e < |s'.slot| ensures SlotOk(s', e) { assert SlotOk(s, e); }
  }

  lemma ReturnKeepsInv(s: State, c: Cpu)
    requires Inv(s) && Enabled(s, Return(c))
    ensures Inv(Next(s, Return(c)))
  {
    var s' := Next(s, Return(c));
    var f := Top(s, c);
    assert FrameOk(s, c, |s.stack[c]| - 1) && BookOk(s, f.id);
    forall e, i | 0 <= e < |s'.stack| && 0 <= i < |s'.stack[e]|
      ensures FrameOk(s', e, i)
    {
      assert FrameOk(s, e, i);
    }
    forall id | 0 <= id < |s'.book| ensures BookOk(s', id) { assert BookOk(s, id); }
    forall e | 0 <= e < |s'.slot| ensures SlotOk(s', e) { assert SlotOk(s, e); }
  }

  /** Every step keeps the invariant; in particular no step follows a dead pointer. */
  lemma NextKeepsInv(s: State, t: Step)
    requires Inv(s) && Enabled(s, t)
    ensures Inv(Next(s, t))
  {
    match t
    case GoOnline(c) =>
      var s' := Next(s, t);
      forall e, i | 0 <= e < |s'.stack| && 0 <= i < |s'.stack[e]|
        ensures FrameOk(s', e, i) { assert FrameOk(s, e, i); }
      forall id | 0 <= id < |s'.book| ensures BookOk(s', id) { assert BookOk(s, id); }
      forall e | 0 <= e < |s'.slot| ensures SlotOk(s', e) { assert SlotOk(s, e); }
    case Call(c, d) => CallKeepsInv(s, c, d);
    case Post(c) => PostKeepsInv(s, c);
    case Take(c) => TakeKeepsInv(s, c);
    case Finish(c, rc) => FinishKeepsInv(s, c, rc);
    case FinishDirect(c, rc) => FinishDirectKeepsInv(s, c, rc);
    case Return(c) => ReturnKeepsInv(s, c);
  }

  /** What one appended event does to every call's expected trace. */
  ghost predicate Logs(s: State, e: Event, s': State, id: Id) {
    && |s.book| <= |s'.book|
    && (if id < |s'.book| then Expected(id, s'.book[id]) else []) ==
       (if id < |s.book| then Expected(id, s.book[id]) else []) + (if e.id == id then [e] else [])
  }

  lemma StepLogs(s: State, t: Step, id: Id)
    requires Shape(s) && Enabled(s, t) && (t.Call? || t.Finish? || t.Return?)
    requires !t.Call? ==> FrameOk(s, t.cpu, |s.stack[t.cpu]| - 1) && BookOk(s, Top(s, t.cpu).id)
    ensures |Next(s, t).log| == |s.log| + 1 && Next(s, t).log[..|s.log|] == s.log
    ensures Logs(s, Next(s, t).log[|s.log|], Next(s, t), id)
  {
  }

  lemma NextKeepsTrace(s: State, t: Step, id: Id)
    requires Shape(s) && Enabled(s, t) && TraceOk(s, id)
    requires HasTop(s, t.cpu) ==> FrameOk(s, t.cpu, |s.stack[t.cpu]| - 1) && BookOk(s, Top(s, t.cpu).id)
    requires t.Take? ==> SlotOk(s, t.cpu)
    ensures TraceOk(Next(s, t), id)
  {
    hide Next, Shape, Enabled, TraceOk, FrameOk, BookOk, SlotOk;
    CpuHasTop(s, t);
    if t.Call? || t.Finish? || t.Return? {
      LoggedKeepsTrace(s, t, id);
    } else if t.FinishDirect? {
      DirectKeepsTrace(s, t.cpu, t.rc, id);
    } else {
      SilentKeepsTrace(s, t, id);
    }
  }

  lemma CpuHasTop(s: State, t: Step)
    requires Shape(s) && Enabled(s, t)
    ensures t.Finish? || t.FinishDirect? || t.Return? ==> HasTop(s, t.cpu)
  {
  }

  lemma LoggedKeepsTrace(s: State, t: Step, id: Id)
    requires Shape(s) && Enabled(s, t) && TraceOk(s, id) && (t.Call? || t.Finish? || t.Return?)
    requires !t.Call? ==> && HasTop(s, t.cpu) && FrameOk(s, t.cpu, |s.stack[t.cpu]| - 1)
                          && BookOk(s, Top(s, t.cpu).id)
    ensures TraceOk(Next(s, t), id)
  {
    hide Next, Shape, Enabled, FrameOk, BookOk, Expected, Trace;
    StepLogs(s, t, id);
    var s' := Next(s, t);
    assert s'.log == s.log + [s'.log[|s.log|]];
    TraceAppend(s.log, s'.log[|s.log|], id);
  }

  /** Going online, posting and taking are not in the log. */
  lemma SilentKeepsTrace(s: State, t: Step, id: Id)
    requires Shape(s) && Enabled(s, t) && TraceOk(s, id) && (t.GoOnline? || t.Post? || t.Take?)
    requires HasTop(s, t.cpu) ==> FrameOk(s, t.cpu, |s.stack[t.cpu]| - 1) && BookOk(s, Top(s, t.cpu).id)
    requires t.Take? ==> SlotOk(s, t.cpu)
    ensures TraceOk(Next(s, t), id)
  {
    hide Trace, Next, Expected, Enabled, Shape, FrameOk, BookOk, SlotOk;
    SilentExpected(s, t, id);
  }

  lemma SilentExpected(s: State, t: Step, id: Id)
    requires Shape(s) && Enabled(s, t) && (t.GoOnline? || t.Post? || t.Take?)
    requires HasTop(s, t.cpu) ==> FrameOk(s, t.cpu, |s.stack[t.cpu]| - 1) && BookOk(s, Top(s, t.cpu).id)
    requires t.Take? ==> SlotOk(s, t.cpu)
    ensures Next(s, t).log == s.log && |Next(s, t).book| == |s.book|
    ensures id < |s.book| ==> Expected(id, Next(s, t).book[id]) == Expected(id, s.book[id])
  {
  }

  lemma TraceAppend2(log: seq<Event>, e: Event, f: Event, id: Id)
    requires e.id == f.id
    ensures Trace(log + [e] + [f], id) == if e.id == id then Trace(log, id) + [e] + [f] else Trace(log, id)
  {
    TraceAppend(log, e, id);
    TraceAppend(log + [e], f, id);
  }

  lemma DirectExpected(book: seq<Book>, f: Id, rc: int, id: Id, tr: seq<Event>)
    requires f < |book| && book[f].direct && book[f].phase.Local?
    requires tr == if id < |book| then Expected(id, book[id]) else []
    ensures var book' := book[f := book[f].(phase := Gone(rc))];
            (if id < |book'| then Expected(id, book'[id]) else []) ==
            if f == id then tr + [Ran(f, book[f].caller, rc)] + [Returned(f, book[f].caller, rc)] else tr
  {
  }

  lemma DirectKeepsTrace(s: State, c: Cpu, rc: int, id: Id)
    requires Shape(s) && Enabled(s, FinishDirect(c, rc)) && TraceOk(s, id)
    requires FrameOk(s, c, |s.stack[c]| - 1)
    ensures TraceOk(Next(s, FinishDirect(c, rc)), id)
  {
    var f := Top(s, c).id;
    DirectExpected(s.book, f, rc, id, Trace(s.log, id));
    TraceAppend2(s.log, Ran(f, c, rc), Returned(f, c, rc), id);
  }

  /** Each call's events stay a prefix of its life. */
  lemma NextKeepsTraces(s: State, t: Step)
    requires Inv(s) && TracesOk(s) && Enabled(s, t)
    ensures TracesOk(Next(s, t))
  {
    forall id: nat ensures TraceOk(Next(s, t), id) {
      NextKeepsTrace(s, t, id);
    }
  }

  lemma {:induction false} RunKeepsInv(s: State, steps: seq<Step>, s': State)
    requires Inv(s) && TracesOk(s) && Run(s, steps, s')
    ensures Inv(s') && TracesOk(s')
    decreases |steps|
  {
    if steps != [] {
      NextKeepsInv(s, steps[0]);
      NextKeepsTraces(s, steps[0]);
      RunKeepsInv(Next(s, steps[0]), steps[1..], s');
    }
  }

  /**
   Over every run: each call is run at most once, on the CPU it names (or in
   place, when that is the caller or is offline), never before it is made; it
   returns at most once, after it ran, and with that run's result.  No CPU ever
   reaches a request whose caller has returned or that is already done.
   */
  lemma ExactlyOnce(n: nat, steps: seq<Step>, s: State, id: Id) returns (rc: int)
    requires Run(Init(n), steps, s) && id < |s.book|
    ensures Trace(s.log, id) <= Life(id, s.book[id], rc)
    ensures s.book[id].phase.Gone? ==> Trace(s.log, id) == Life(id, s.book[id], rc)
    ensures !s.fault
  {
    RunKeepsInv(Init(n), steps, s);
    assert TraceOk(s, id);
    var p := s.book[id].phase;
    rc := if p.Done? || p.Gone? then p.rc else 0;
  }

  // ------------------------------------------------ where a call runs

  lemma {:induction false} TraceHas(log: seq<Event>, e: Event)
    requires e in log
    ensures e in Trace(log, e.id)
  {
    var n := |log| - 1;
    assert log == log[..n] + [log[n]];
    if e != log[n] { TraceHas(log[..n], e); }
  }

  /** Who calls whom, and whether in place, is settled when the call is made. */
  predicate SameCall(b: Book, b': Book) {
    b'.caller == b.caller && b'.target == b.target && b'.direct == b.direct
  }

  lemma NextSameCall(s: State, t: Step, id: Id)
    requires Shape(s) && Enabled(s, t) && id < |s.book|
    ensures id < |Next(s, t).book| && SameCall(s.book[id], Next(s, t).book[id])
  {
  }

  lemma {:induction false} RunSameCall(s: State, steps: seq<Step>, s': State, id: Id)
    requires Run(s, steps, s') && id < |s.book|
    ensures id < |s'.book| && SameCall(s.book[id], s'.book[id])
    decreases |steps|
  {
    hide Next, Enabled;
    if steps != [] {
      NextSameCall(s, steps[0], id);
      RunSameCall(Next(s, steps[0]), steps[1..], s', id);
    }
  }

  lemma {:induction false} RunConcat(s: State, a: seq<Step>, s1: State, b: seq<Step>, s2: State)
    requires Run(s, a, s1) && Run(s1, b, s2)
    ensures Run(s, a + b, s2)
    decreases |a|
  {
    hide Next, Enabled;
    if a == [] {
      assert a + b == b;
    } else {
      assert (a + b)[1..] == a[1..] + b;
      RunConcat(Next(s, a[0]), a[1..], s1, b, s2);
    }
  }

  /** A run that goes on with step t from s. */
  lemma RunThrough(n: nat, a: seq<Step>, s: State, t: Step, b: seq<Step>, s': State)
    requires Run(Init(n), a, s) && Shape(s) && Enabled(s, t) && Run(Next(s, t), b, s')
    ensures Inv(s) && TracesOk(s) && Inv(s') && TracesOk(s')
  {
    hide Next, Enabled, Inv, TracesOk, Init;
    InitInv(n);
    RunKeepsInv(Init(n), a, s);
    assert ([t] + b)[1..] == b;
    RunKeepsInv(s, [t] + b, s');
  }

  /**
   In every run a call is run by the CPU it names if that is another one and online at the
   time of the call, whoever else is, and by the caller otherwise.
   */
  lemma RunsOnTarget(n: nat, a: seq<Step>, s: State, c: Cpu, d: Cpu, b: seq<Step>, s': State, e: Cpu, rc: int)
    requires Run(Init(n), a, s) && Shape(s) && Enabled(s, Call(c, d)) && Run(Next(s, Call(c, d)), b, s')
    requires Ran(|s.book|, e, rc) in s'.log
    ensures e == if d != c && s.online[d] then d else c
  {
    hide Next, Enabled, Inv, TracesOk, Init;
    var id := |s.book|;
    RunThrough(n, a, s, Call(c, d), b, s');
    CallIs(s, c, d);
    RunSameCall(Next(s, Call(c, d)), b, s', id);
    EventIs(s', Ran(id, e, rc));
  }

  /** What is written down when a call is made. */
  lemma CallIs(s: State, c: Cpu, d: Cpu)
    requires Shape(s) && Enabled(s, Call(c, d))
    ensures d < |s.online|
    ensures var s' := Next(s, Call(c, d));
            && |s'.book| == |s.book| + 1
            && s'.book[|s.book|] == Book(c, d, |s.stack[c]|, d == c || !s.online[d], Local)
  {
  }

  /** An event of a call is one of those its record leads to. */
  lemma EventIs(s: State, e: Event)
    requires TracesOk(s) && e in s.log && e.id < |s.book|
    ensures var b := s.book[e.id];
            match e
            case Called(_, c, d) => c == b.caller && d == b.target
            case Ran(_, c, _) => c == if b.direct then b.caller else b.target
            case Returned(_, c, _) => c == b.caller
  {
    TraceHas(s.log, e);
    assert TraceOk(s, e.id);
  }

  /** The call is recorded as made by that caller to that CPU, and returns there. */
  lemma ReturnsToCaller(n: nat, a: seq<Step>, s: State, c: Cpu, d: Cpu, b: seq<Step>, s': State, e: Event)
    requires Run(Init(n), a, s) && Shape(s) && Enabled(s, Call(c, d)) && Run(Next(s, Call(c, d)), b, s')
    requires e in s'.log && e.id == |s.book|
    ensures e.Called? ==> e.cpu == c && e.target == d
    ensures e.Returned? ==> e.cpu == c
  {
    hide Next, Enabled, Inv, TracesOk, Init;
    RunThrough(n, a, s, Call(c, d), b, s');
    CallIs(s, c, d);
    RunSameCall(Next(s, Call(c, d)), b, s', |s.book|);
    EventIs(s', e);
  }

  /** The value that comes back is the one the function returned, wherever it ran. */
  lemma ResultComesBack(n: nat, a: seq<Step>, s: State, t: Step, b: seq<Step>, s': State, e: Cpu, rc: int)
    requires Run(Init(n), a, s) && Shape(s) && Enabled(s, t) && (t.Finish? || t.FinishDirect?)
    requires HasTop(s, t.cpu) && Run(Next(s, t), b, s') && Returned(Top(s, t.cpu).id, e, rc) in s'.log
    ensures rc == t.rc
  {
    hide Next, Enabled, Inv, Settled, TracesOk, Init;
    var id := Top(s, t.cpu).id;
    RunThrough(n, a, s, t, b, s');
    FinishSettles(s, t);
    NextKeepsInv(s, t);
    RunKeepsPhase(Next(s, t), b, s', id, t.rc);
    SettledReturns(s', id, t.rc, e, rc);
  }

  lemma FinishSettles(s: State, t: Step)
    requires Inv(s) && Enabled(s, t) && (t.Finish? || t.FinishDirect?)
    ensures HasTop(s, t.cpu) && Settled(Next(s, t), Top(s, t.cpu).id, t.rc)
  {
    hide BookOk, SlotOk, Ordered;
    assert FrameOk(s, t.cpu, |s.stack[t.cpu]| - 1);
  }

  lemma SettledReturns(s: State, id: Id, rc: int, e: Cpu, rc': int)
    requires TracesOk(s) && Settled(s, id, rc) && Returned(id, e, rc') in s.log
    ensures rc' == rc
  {
    TraceHas(s.log, Returned(id, e, rc'));
    assert TraceOk(s, id);
  }

  /** The result of a function that has run is not changed any more. */
  predicate Settled(s: State, id: Id, rc: int) {
    id < |s.book| && (s.book[id].phase == Done(rc) || s.book[id].phase == Gone(rc))
  }

  lemma NextKeepsPhase(s: State, t: Step, id: Id, rc: int)
    requires Inv(s) && Enabled(s, t) && Settled(s, id, rc)
    ensures Settled(Next(s, t), id, rc)
  {
    assert BookOk(s, id);
    if HasTop(s, t.cpu) { assert FrameOk(s, t.cpu, |s.stack[t.cpu]| - 1); }
    if t.Take? { assert SlotOk(s, t.cpu); }
  }

  lemma {:induction false} RunKeepsPhase(s: State, steps: seq<Step>, s': State, id: Id, rc: int)
    requires Inv(s) && Run(s, steps, s') && Settled(s, id, rc)
    ensures Settled(s', id, rc)
    decreases |steps|
  {
    hide Next, Enabled, Inv, Settled;
    if steps != [] {
      NextKeepsInv(s, steps[0]);
      NextKeepsPhase(s, steps[0], id, rc);
      RunKeepsPhase(Next(s, steps[0]), steps[1..], s', id, rc);
    }
  }

  /** Whatever a slot or a serving CPU points at is still on its caller's stack and not done. */
  lemma PointersLive(n: nat, steps: seq<Step>, s: State, c: Cpu, i: nat)
    requires Run(Init(n), steps, s) && c < |s.stack|
    ensures Shape(s)
    ensures s.slot[c].Some? ==> s.slot[c].value in s.mem && !s.mem[s.slot[c].value].done
    ensures i < |s.stack[c]| && s.stack[c][i].Serving?
            ==> s.stack[c][i].id in s.mem && !s.mem[s.stack[c][i].id].done
  {
    RunKeepsInv(Init(n), steps, s);
    assert SlotOk(s, c);
    if s.slot[c].Some? { assert BookOk(s, s.slot[c].value); }
    if i < |s.stack[c]| && s.stack[c][i].Serving? {
      assert FrameOk(s, c, i) && BookOk(s, s.stack[c][i].id);
    }
  }

  // -------------------------------------------------------------- progress

  /** A step that moves an existing call forward. */
  predicate Advances(t: Step) {
    !t.GoOnline? && !t.Call?
  }

  ghost predicate Outstanding(s: State) {
    exists c :: 0 <= c < |s.stack| && s.stack[c] != []
  }

  /** Among the first k CPUs, one whose innermost activation is the youngest call. */
  lemma YoungestTop(s: State, k: nat) returns (c: Cpu)
    requires k <= |s.stack| && exists e :: 0 <= e < k && s.stack[e] != []
    ensures c < k && HasTop(s, c)
    ensures forall e :: 0 <= e < k && HasTop(s, e) ==> Top(s, e).id <= Top(s, c).id
  {
    if exists e :: 0 <= e < k - 1 && s.stack[e] != [] {
      c := YoungestTop(s, k - 1);
      if HasTop(s, k - 1) && Top(s, k - 1).id > Top(s, c).id { c := k - 1; }
    } else {
      c := k - 1;
    }
  }

  /**
   No reachable state is stuck.  If nobody computes and no slot holds work, the
   youngest spinning call must be able to move: the CPU serving it would itself
   have to spin on a younger one.
   */
  lemma NeverStuck(s: State) returns (t: Step)
    requires Inv(s) && Outstanding(s)
    ensures Enabled(s, t) && Advances(t)
  {
    var c := YoungestTop(s, |s.stack|);
    var f := Top(s, c);
    assert FrameOk(s, c, |s.stack[c]| - 1) && BookOk(s, f.id);
    if f.Serving? { return Finish(c, 0); }
    if f.Direct? { return FinishDirect(c, 0); }
    var d := f.target;
    if HasTop(s, d) && Top(s, d).Serving? { return Finish(d, 0); }
    if HasTop(s, d) && Top(s, d).Direct? { return FinishDirect(d, 0); }
    if s.slot[d].Some? { return Take(d); }
    if !f.posted { return Post(c); }
    assert !s.book[f.id].phase.Taken?;
    return Return(c);
  }

  /** Deadlock freedom for any number of CPUs and any pattern and nesting of calls. */
  lemma DeadlockFree(n: nat, steps: seq<Step>, s: State) returns (t: Step)
    requires Run(Init(n), steps, s) && Outstanding(s)
    ensures Shape(s) && Enabled(s, t) && Advances(t)
  {
    RunKeepsInv(Init(n), steps, s);
    t := NeverStuck(s);
  }

  /** Steps a call still has to take. */
  function Left(b: Book): nat {
    match b.phase
    case Local => if b.direct then 1 else 4
    case Posted => 3
    case Taken(_) => 2
    case Done(_) => 1
    case Gone(_) => 0
  }

  function Work(book: seq<Book>): nat {
    if book == [] then 0 else Work(book[..|book| - 1]) + Left(book[|book| - 1])
  }

  lemma {:induction false} WorkUpdate(book: seq<Book>, id: Id, b: Book)
    requires id < |book|
    ensures Work(book[id := b]) == Work(book) - Left(book[id]) + Left(b)
  {
    var n := |book| - 1;
    if id == n {
      assert book[id := b][..n] == book[..n];
    } else {
      assert book[id := b][..n] == book[..n][id := b];
      WorkUpdate(book[..n], id, b);
    }
  }

  lemma SetPhaseWork(s: State, id: Id, p: Phase)
    requires id < |s.book|
    ensures Work(SetPhase(s, id, p).book) == Work(s.book) - Left(s.book[id]) + Left(s.book[id].(phase := p))
  {
    WorkUpdate(s.book, id, s.book[id].(phase := p));
  }

  /** The call a step moves forward, and the phase it moves to. */
  function Moved(s: State, t: Step): (Id, Phase)
    requires Shape(s) && Enabled(s, t) && Advances(t)
  {
    match t
    case Post(c) => (Top(s, c).id, Posted)
    case Take(c) => (s.slot[c].value, Taken(|s.stack[c]|))
    case Finish(c, rc) => (Top(s, c).id, Done(rc))
    case FinishDirect(c, rc) => (Top(s, c).id, Gone(rc))
    case Return(c) => (Top(s, c).id, Gone(s.mem[Top(s, c).id].rc))
  }

  lemma MovedLeft(s: State, t: Step)
    requires Shape(s) && Enabled(s, t) && Advances(t)
    requires HasTop(s, t.cpu) ==> FrameOk(s, t.cpu, |s.stack[t.cpu]| - 1) && BookOk(s, Top(s, t.cpu).id)
    requires t.Take? ==> SlotOk(s, t.cpu)
    ensures var (id, p) := Moved(s, t);
            && id < |s.book| && Next(s, t).book == SetPhase(s, id, p).book
            && Left(s.book[id].(phase := p)) == Left(s.book[id]) - 1
  {
  }

  lemma StepWork(s: State, t: Step)
    requires Inv(s) && Enabled(s, t)
    ensures Advances(t) ==> Work(Next(s, t).book) == Work(s.book) - 1
    ensures t.Call? ==> Work(Next(s, t).book) <= Work(s.book) + 4
    ensures t.GoOnline? ==> Work(Next(s, t).book) == Work(s.book)
  {
    if Advances(t) {
      MovedLeft(s, t);
      SetPhaseWork(s, Moved(s, t).0, Moved(s, t).1);
    } else if t.Call? {
      assert Next(s, t).book[..|s.book|] == s.book;
    }
  }

  function CountCalls(steps: seq<Step>): nat {
    if steps == [] then 0 else (if steps[0].Call? then 1 else 0) + CountCalls(steps[1..])
  }

  function CountAdvances(steps: seq<Step>): nat {
    if steps == [] then 0 else (if Advances(steps[0]) then 1 else 0) + CountAdvances(steps[1..])
  }

  lemma {:induction false} RunWork(s: State, steps: seq<Step>, s': State)
    requires Inv(s) && Run(s, steps, s')
    ensures CountAdvances(steps) + Work(s'.book) <= Work(s.book) + 4 * CountCalls(steps)
    decreases |steps|
  {
    if steps != [] {
      StepWork(s, steps[0]);
      NextKeepsInv(s, steps[0]);
      RunWork(Next(s, steps[0]), steps[1..], s');
    }
  }

  /** k calls cost at most 4k advancing steps in all: only new calls can keep a run going. */
  lemma BoundedWork(n: nat, steps: seq<Step>, s: State)
    requires Run(Init(n), steps, s)
    ensures CountAdvances(steps) <= 4 * CountCalls(steps)
  {
    InitInv(n);
    RunWork(Init(n), steps, s);
  }

  lemma {:induction false} Drain(s: State) returns (steps: seq<Step>, s': State)
    requires Inv(s) && TracesOk(s)
    ensures Run(s, steps, s') && Inv(s') && TracesOk(s') && !Outstanding(s')
    ensures |steps| <= Work(s.book) && forall t :: t in steps ==> Advances(t)
    ensures |s'.book| == |s.book|
    decreases Work(s.book)
  {
    if !Outstanding(s) { return [], s; }
    var t := NeverStuck(s);
    NextKeepsInv(s, t);
    NextKeepsTraces(s, t);
    StepWork(s, t);
    steps, s' := Drain(Next(s, t));
    steps := [t] + steps;
  }

  ghost predicate Completed(s: State, id: Id) {
    id < |s.book| && exists rc :: Trace(s.log, id) == Life(id, s.book[id], rc)
  }

  lemma IdleMeansCompleted(s: State, id: Id)
    requires Inv(s) && TraceOk(s, id) && !Outstanding(s) && id < |s.book|
    ensures Completed(s, id)
  {
    assert BookOk(s, id);
    assert Trace(s.log, id) == Life(id, s.book[id], s.book[id].phase.rc);
  }

  /**
   From every reachable state the calls already made all complete without any
   new one: some run of advancing steps ends with each of them called, run and
   returned exactly once.
   */
  lemma CallsComplete(n: nat, steps: seq<Step>, s: State) returns (more: seq<Step>, s': State)
    requires Run(Init(n), steps, s)
    ensures Run(s, more, s') && (forall t :: t in more ==> Advances(t))
    ensures |s'.book| == |s.book| && forall id :: 0 <= id < |s.book| ==> Completed(s', id)
  {
    RunKeepsInv(Init(n), steps, s);
    more, s' := Drain(s);
    forall id | 0 <= id < |s'.book| ensures Completed(s', id) { IdleMeansCompleted(s', id); }
  }

  /**
   In every reachable state a CPU that is online and not itself waiting in a call can call any
   CPU, and the call can be completed: run once, by the right CPU, and returned with the result.
   */
  lemma CallCanComplete(n: nat, steps: seq<Step>, s: State, c: Cpu, d: Cpu)
    returns (more: seq<Step>, s': State, rc: int)
    requires Run(Init(n), steps, s) && c < |s.stack| == |s.online| && d < |s.online| && s.online[c]
    requires s.stack[c] == [] || !s.stack[c][|s.stack[c]| - 1].Calling?
    ensures Shape(s) && Enabled(s, Call(c, d)) && Run(Next(s, Call(c, d)), more, s')
    ensures forall t :: t in more ==> Advances(t)
    ensures var id := |s.book|; var e := if d != c && s.online[d] then d else c;
            Trace(s'.log, id) == [Called(id, c, d), Ran(id, e, rc), Returned(id, c, rc)]
  {
    hide Next, Inv, TracesOk, Init, BookOk, Run;
    var id := |s.book|;
    CallPossible(n, steps, s, c, d);
    var s1 := Next(s, Call(c, d));
    more, s' := CallsComplete(n, steps + [Call(c, d)], s1);
    CallIs(s, c, d);
    RunSameCall(s1, more, s', id);
    assert Completed(s', id);
    rc :| Trace(s'.log, id) == Life(id, s'.book[id], rc);
  }

  lemma CallPossible(n: nat, steps: seq<Step>, s: State, c: Cpu, d: Cpu)
    requires Run(Init(n), steps, s) && c < |s.stack| == |s.online| && d < |s.online| && s.online[c]
    requires s.stack[c] == [] || !s.stack[c][|s.stack[c]| - 1].Calling?
    ensures Shape(s) && Enabled(s, Call(c, d)) && Run(Init(n), steps + [Call(c, d)], Next(s, Call(c, d)))
  {
    hide Next, TracesOk, Init, BookOk;
    InitInv(n);
    RunKeepsInv(Init(n), steps, s);
    var t := Call(c, d);
    assert [t][1..] == [] && Run(Next(s, t), [], Next(s, t));
    RunConcat(Init(n), steps, s, [t], Next(s, t));
  }

  lemma InitInv(n: nat)
    ensures Inv(Init(n)) && TracesOk(Init(n))
  {
  }
}

/**
 Shootdowns by cross-CPU calls: mem_settle() of kernel/mem/mem.c on top of ulmk_xcall() of
 kernel/sched/xcall.c.

 Settle takes a flush to be asked for, run on its target and returned; here the asking is
 a call of XCall, the flush is what the served function does, and the return is the
 call's.  A CPU's kernel stack holds activations of mem_settle() between those of the
 call protocol, and each remembers the depth of the call stack it began at.  Interrupts
 are off, so a CPU serves other CPUs only while it waits in a call.

 Every run of the two together is a run of each (RunRefines), so what was proved of
 either holds of both; and no settle waits for ever because of the calls (NeverStuck).
 */
module Shootdown {
  import opened Sequences
  import S = Settle
  import X = XCall

  type Cpu = nat

  /** An activation of mem_settle(): the depth it began at, and the request it waits for. */
  datatype Act = Act(at: nat, call: Option<X.Id>)

  /** The frames of `m` hold what mem_settle() detached; what they wait for is in `x`. */
  datatype State = State(x: X.State, m: S.State, acts: seq<seq<Act>>)

  datatype Step =
    | Mem(mem: S.Step)                // anything of Settle but asking, running and ending a flush
    | Ask(asker: Cpu, target: Cpu)    // mem_settle() calls ulmk_xcall()
    | Cross(cross: X.Step)            // any step of a call under way, or a call of other code

  predicate InSettle(s: State, c: Cpu) {
    c < |s.acts| && s.acts[c] != []
  }

  function Inner(s: State, c: Cpu): Act
    requires InSettle(s, c)
  {
    s.acts[c][|s.acts[c]| - 1]
  }

  /** The innermost activation of the CPU is one of mem_settle(). */
  predicate Settling(s: State, c: Cpu) {
    InSettle(s, c) && c < |s.x.stack| && Inner(s, c).at == |s.x.stack[c]|
  }

  predicate Waits(s: State, c: Cpu, i: nat, id: X.Id) {
    c < |s.acts| && i < |s.acts[c]| && s.acts[c][i].call == Some(id)
  }

  predicate IsFlush(s: State, id: X.Id) {
    exists c: nat, i: nat :: c < |s.acts| && i < |s.acts[c]| && Waits(s, c, i, id)
  }

  ghost predicate Enabled(s: State, t: Step)
    requires X.Shape(s.x)
  {
    match t
    case Mem(u) =>
      && S.Enabled(s.m, u) && !u.AskFlush? && !u.RunFlush? && !u.EndFlush?
      && (u.BeginSettle? ==> X.Computing(s.x, u.cpu) && !Settling(s, u.cpu))
      && (u.Free? ==> Settling(s, u.cpu))
    case Ask(c, d) =>
      && Settling(s, c) && X.Enabled(s.x, X.Call(c, d))
      && S.HasFrame(s.m, c) && d in S.TopFrame(s.m, c).mask
    case Cross(u) => X.Enabled(s.x, u) && !Settling(s, u.cpu)
  }

  ghost function Next(s: State, t: Step): State
    requires X.Shape(s.x) && Enabled(s, t) && |s.acts| == |s.x.stack| == |s.m.core|
  {
    match t
    case Mem(u) =>
      s.(m := S.Next(s.m, u),
         acts := if u.BeginSettle? then s.acts[u.cpu := s.acts[u.cpu] + [Act(|s.x.stack[u.cpu]|, None)]]
                 else if u.Free? then s.acts[u.cpu := s.acts[u.cpu][..|s.acts[u.cpu]| - 1]]
                 else s.acts)
    case Ask(c, d) => SetCall(s.(x := X.Next(s.x, X.Call(c, d))), c, Some(|s.x.book|))
    case Cross(u) =>
      var s1 := s.(x := X.Next(s.x, u));
      if u.Finish? && IsFlush(s, X.Top(s.x, u.cpu).id) then
        s1.(m := S.SetCore(s.m, u.cpu, s.m.core[u.cpu].(windows := {})))
      else if u.Return? && ReturnsTo(s, u.cpu) then
        SetCall(s1.(m := WithoutTarget(s.m, u.cpu, X.Top(s.x, u.cpu).target)), u.cpu, None)
      else s1
  }

  function SetCall(s: State, c: Cpu, call: Option<X.Id>): State
    requires InSettle(s, c)
  {
    s.(acts := s.acts[c := s.acts[c][|s.acts[c]| - 1 := Inner(s, c).(call := call)]])
  }

  /** The call that returns on c is the one its innermost mem_settle() waits for. */
  predicate ReturnsTo(s: State, c: Cpu) {
    X.HasTop(s.x, c) && S.HasFrame(s.m, c) && InSettle(s, c) && Inner(s, c).call == Some(X.Top(s.x, c).id)
  }

  /** The loop of mem_settle() goes on to the next CPU. */
  function WithoutTarget(m: S.State, c: Cpu, d: Cpu): S.State
    requires S.HasFrame(m, c)
  {
    S.SetTop(m, c, S.TopFrame(m, c).(mask := S.TopFrame(m, c).mask - {d}))
  }

  ghost predicate Run(s: State, steps: seq<Step>, s': State)
    decreases |steps|
  {
    if steps == [] then s == s'
    else
      && X.Shape(s.x) && |s.acts| == |s.x.stack| == |s.m.core| && Enabled(s, steps[0])
      && Run(Next(s, steps[0]), steps[1..], s')
  }

  // ------------------------------------------------------------ invariant

  ghost predicate ActOk(s: State, c: Cpu, i: nat)
    requires c < |s.acts| == |s.x.stack| == |s.m.core| && i < |s.acts[c]| == |s.m.core[c].frames|
  {
    var a := s.acts[c][i];
    && a.at <= |s.x.stack[c]| && (a.at > 0 ==> !s.x.stack[c][a.at - 1].Calling?)
    && (a.call.Some? ==>
          && a.at < |s.x.stack[c]| && s.x.stack[c][a.at].Calling? && s.x.stack[c][a.at].id == a.call.value
          && s.x.stack[c][a.at].target in s.m.core[c].frames[i].mask)
  }

  /** What mem_settle() detached is plain data, and a CPU is never on its own list. */
  ghost predicate FrameOk(m: S.State, c: Cpu, i: nat)
    requires c < |m.core| && i < |m.core[c].frames|
  {
    var f := m.core[c].frames[i];
    f.waiting.None? && !f.flushed && forall d :: d in f.mask ==> d < |m.core| && d != c
  }

  ghost predicate CoreOk(m: S.State, c: Cpu)
    requires c < |m.core|
  {
    && (forall d :: d in m.core[c].mask ==> d < |m.core| && d != c)
    && (m.core[c].switch.LayoutDone? ==> m.core[c].switch.next < |m.home|)
  }

  ghost predicate Nested(acts: seq<Act>) {
    forall i, j :: 0 <= i < j < |acts| ==> acts[i].at < acts[j].at
  }

  ghost predicate CpuOk(s: State, c: Cpu)
    requires c < |s.acts| == |s.x.stack| == |s.m.core|
  {
    && |s.acts[c]| == |s.m.core[c].frames| && Nested(s.acts[c])
    && CoreOk(s.m, c)
    && (forall i :: 0 <= i < |s.acts[c]| ==> ActOk(s, c, i) && FrameOk(s.m, c, i))
  }

  /** Every activation of mem_settle() has its frame. */
  predicate Sized(s: State) {
    |s.acts| == |s.m.core| && forall c :: 0 <= c < |s.acts| ==> |s.acts[c]| == |s.m.core[c].frames|
  }

  ghost predicate Inv(s: State) {
    && X.Inv(s.x) && S.Typed(s.m) && |s.acts| == |s.x.stack| && Sized(s)
    && (forall c :: 0 <= c < |s.x.online| ==> s.x.online[c])
    && (forall c :: 0 <= c < |s.acts| ==> CpuOk(s, c))
  }

  // ----------------------------------------------------------- refinement

  function ViewFrame(x: X.State, f: S.Frame, a: Act): S.Frame {
    if a.call.Some? && a.call.value < |x.book| then
      f.(waiting := Some(x.book[a.call.value].target),
         flushed := a.call.value in x.mem && x.mem[a.call.value].done)
    else f
  }

  function ViewFrames(x: X.State, fs: seq<S.Frame>, acts: seq<Act>): (r: seq<S.Frame>)
    requires |fs| == |acts|
    ensures |r| == |fs|
  {
    seq(|fs|, i requires 0 <= i < |fs| => ViewFrame(x, fs[i], acts[i]))
  }

  function WithFrames(m: S.State, frames: seq<seq<S.Frame>>): S.State
    requires |frames| == |m.core|
  {
    m.(core := seq(|m.core|, c requires 0 <= c < |m.core| => m.core[c].(frames := frames[c])))
  }

  /** The state of Settle: a frame waits for the target of its call, and was flushed once that is done. */
  function View(s: State): S.State
    requires Sized(s)
  {
    WithFrames(s.m, seq(|s.acts|, c requires 0 <= c < |s.acts| => ViewFrames(s.x, s.m.core[c].frames, s.acts[c])))
  }

  /** Call id goes to the same CPU and is done or not as before. */
  predicate SameCall(x: X.State, x': X.State, id: X.Id) {
    && id < |x.book| && id < |x'.book| && x'.book[id].target == x.book[id].target
    && (id in x.mem && x.mem[id].done <==> id in x'.mem && x'.mem[id].done)
  }

  predicate Ends(x: X.State, t: X.Step, id: X.Id) {
    (t.Finish? || t.Return?) && X.HasTop(x, t.cpu) && X.Top(x, t.cpu).id == id
  }

  lemma OthersGoOn(x: X.State, t: X.Step, id: X.Id)
    requires X.Inv(x) && X.Enabled(x, t) && id < |x.book| && !Ends(x, t, id)
    ensures SameCall(x, X.Next(x, t), id)
  {
    if X.HasTop(x, t.cpu) { assert X.FrameOk(x, t.cpu, |x.stack[t.cpu]| - 1); }
  }

  /** The activations of CPU c after a step of the call protocol. */
  lemma StackAfter(x: X.State, t: X.Step, c: Cpu)
    requires X.Shape(x) && X.Enabled(x, t) && c < |x.stack|
    ensures var x' := X.Next(x, t);
            && |x'.stack| == |x.stack| && |x'.online| == |x.online|
            && (forall e :: 0 <= e < |x.online| && x.online[e] ==> x'.online[e])
            && (c != t.cpu ==> x'.stack[c] == x.stack[c])
            && |x.stack[c]| - 1 <= |x'.stack[c]|
            && (forall i :: 0 <= i < |x.stack[c]| && i < |x'.stack[c]| ==> SameFrame(x.stack[c][i], x'.stack[c][i]))
            && (|x'.stack[c]| < |x.stack[c]| ==> c == t.cpu && (X.Top(x, c).Calling? ==> t.Return?))
  {
  }

  /** An activation of the same call, posted or not. */
  predicate SameFrame(f: X.Frame, g: X.Frame) {
    f == g || (f.Calling? && g.Calling? && f.id == g.id && f.target == g.target)
  }

  lemma BelowTop(s: State, c: Cpu)
    requires Inv(s) && c < |s.acts| && !Settling(s, c)
    ensures forall i :: 0 <= i < |s.acts[c]| ==> s.acts[c][i].at < |s.x.stack[c]|
  {
    assert CpuOk(s, c);
    if s.acts[c] != [] { assert ActOk(s, c, |s.acts[c]| - 1); }
  }

  /** The request an activation waits for, as the call protocol knows it. */
  lemma Waiting(s: State, c: Cpu, i: nat, id: X.Id)
    requires Inv(s) && Waits(s, c, i, id)
    ensures id < |s.x.book| && s.x.book[id].caller == c && s.x.book[id].depth == s.acts[c][i].at
    ensures i < |s.m.core[c].frames| && s.x.book[id].target in s.m.core[c].frames[i].mask
    ensures s.x.book[id].target < |s.m.core| && s.x.book[id].target != c
  {
    assert CpuOk(s, c) && ActOk(s, c, i) && FrameOk(s.m, c, i);
    assert X.FrameOk(s.x, c, s.acts[c][i].at);
  }

  lemma OneWaiter(s: State, c: Cpu, i: nat, e: Cpu, j: nat, id: X.Id)
    requires Inv(s) && Waits(s, c, i, id) && Waits(s, e, j, id)
    ensures c == e && i == j
  {
    Waiting(s, c, i, id);
    Waiting(s, e, j, id);
    assert CpuOk(s, c);
  }

  /** A call of mem_settle() returns to the activation that waits for it. */
  lemma ReturnsToWaiter(s: State, c: Cpu, e: Cpu, i: nat)
    requires Inv(s) && X.Enabled(s.x, X.Return(c)) && !Settling(s, c) && Waits(s, e, i, X.Top(s.x, c).id)
    ensures e == c && i == |s.acts[c]| - 1 && ReturnsTo(s, c)
  {
    var top := |s.x.stack[c]| - 1;
    Waiting(s, e, i, X.Top(s.x, c).id);
    assert X.FrameOk(s.x, c, top) && CpuOk(s, c);
    BelowTop(s, c);
  }

  lemma SameViews(x: X.State, x': X.State, fs: seq<S.Frame>, acts: seq<Act>)
    requires |fs| == |acts|
    requires forall i :: 0 <= i < |acts| && acts[i].call.Some? ==> SameCall(x, x', acts[i].call.value)
    ensures ViewFrames(x', fs, acts) == ViewFrames(x, fs, acts)
  {
  }

  /** A step that ends no flush: mem_settle() notices nothing. */
  lemma CrossKeeps(s: State, u: X.Step)
    requires Inv(s) && Enabled(s, Cross(u))
    requires forall c: nat, i: nat, id :: Waits(s, c, i, id) ==> !Ends(s.x, u, id)
    ensures var s' := s.(x := X.Next(s.x, u)); Inv(s') && View(s') == View(s)
  {
    var s' := s.(x := X.Next(s.x, u));
    X.NextKeepsInv(s.x, u);
    forall c | 0 <= c < |s.acts|
      ensures |s'.x.stack| == |s.x.stack| && CpuOk(s', c)
              && ViewFrames(s'.x, s.m.core[c].frames, s.acts[c]) == ViewFrames(s.x, s.m.core[c].frames, s.acts[c])
    {
      CrossCpu(s, u, c);
    }
    forall c | 0 <= c < |s'.x.online| ensures s'.x.online[c] { StackAfter(s.x, u, c); }
    assert View(s').core == View(s).core;
  }

  lemma CrossCpu(s: State, u: X.Step, c: Cpu)
    requires Inv(s) && Enabled(s, Cross(u)) && c < |s.acts|
    requires forall c: nat, i: nat, id :: Waits(s, c, i, id) ==> !Ends(s.x, u, id)
    ensures var s' := s.(x := X.Next(s.x, u));
            && |s'.x.stack| == |s.x.stack| && CpuOk(s', c)
            && ViewFrames(s'.x, s.m.core[c].frames, s.acts[c]) == ViewFrames(s.x, s.m.core[c].frames, s.acts[c])
  {
    hide X.Next, X.FrameOk, X.BookOk, X.SlotOk, X.Ordered;
    var s' := s.(x := X.Next(s.x, u));
    assert CpuOk(s, c);
    StackAfter(s.x, u, c);
    if c == u.cpu { BelowTop(s, c); }
    forall i | 0 <= i < |s.acts[c]|
      ensures ActOk(s', c, i)
      ensures s.acts[c][i].call.Some? ==> SameCall(s.x, s'.x, s.acts[c][i].call.value)
    {
      assert ActOk(s, c, i);
      if s.acts[c][i].call.Some? {
        var id := s.acts[c][i].call.value;
        assert Waits(s, c, i, id);
        Waiting(s, c, i, id);
        OthersGoOn(s.x, u, id);
      }
    }
    SameViews(s.x, s'.x, s.m.core[c].frames, s.acts[c]);
  }

  // ---------------------------------------------------------- flush steps

  /** The served flush: its target's windows go before the request is marked done. */
  lemma FlushRuns(s: State, c: Cpu, rc: int, e: Cpu, i: nat)
    requires Inv(s) && Enabled(s, Cross(X.Finish(c, rc))) && Waits(s, e, i, X.Top(s.x, c).id)
    ensures var s' := Next(s, Cross(X.Finish(c, rc)));
            && Inv(s') && S.Enabled(View(s), S.RunFlush(e, i))
            && View(s') == S.Next(View(s), S.RunFlush(e, i))
  {
    hide X.FrameOk, X.BookOk, X.SlotOk, X.Ordered, CpuOk, ViewFrames;
    var s' := Next(s, Cross(X.Finish(c, rc)));
    assert IsFlush(s, X.Top(s.x, c).id);
    FlushEnabled(s, c, rc, e, i);
    FlushKeeps(s, c, rc, e, i);
    var v := S.Next(View(s), S.RunFlush(e, i));
    forall d | 0 <= d < |s.acts| ensures View(s').core[d] == v.core[d] { FlushView(s, c, rc, e, i, d); }
    assert View(s').core == v.core;
  }

  /** The frame waits for the CPU that serves the call, and it has not been flushed. */
  lemma FlushEnabled(s: State, c: Cpu, rc: int, e: Cpu, i: nat)
    requires Inv(s) && Enabled(s, Cross(X.Finish(c, rc))) && Waits(s, e, i, X.Top(s.x, c).id)
    ensures S.Enabled(View(s), S.RunFlush(e, i))
  {
    var id := X.Top(s.x, c).id;
    Waiting(s, e, i, id);
    assert X.FrameOk(s.x, c, |s.x.stack[c]| - 1) && X.BookOk(s.x, id);
  }

  lemma FlushKeeps(s: State, c: Cpu, rc: int, e: Cpu, i: nat)
    requires Inv(s) && Enabled(s, Cross(X.Finish(c, rc))) && Waits(s, e, i, X.Top(s.x, c).id)
    ensures Inv(Next(s, Cross(X.Finish(c, rc))))
  {
    var s' := Next(s, Cross(X.Finish(c, rc)));
    X.NextKeepsInv(s.x, X.Finish(c, rc));
    forall d | 0 <= d < |s.acts| ensures CpuOk(s', d) {
      assert CpuOk(s, d);
      if d == c { BelowTop(s, d); }
      StackAfter(s.x, X.Finish(c, rc), d);
      forall j | 0 <= j < |s.acts[d]| ensures ActOk(s', d, j) && FrameOk(s'.m, d, j) {
        assert ActOk(s, d, j) && FrameOk(s.m, d, j);
      }
    }
  }

  lemma FlushView(s: State, c: Cpu, rc: int, e: Cpu, i: nat, d: Cpu)
    requires Inv(s) && Enabled(s, Cross(X.Finish(c, rc))) && Waits(s, e, i, X.Top(s.x, c).id) && d < |s.acts|
    requires Inv(Next(s, Cross(X.Finish(c, rc)))) && S.Enabled(View(s), S.RunFlush(e, i))
    ensures View(Next(s, Cross(X.Finish(c, rc)))).core[d] == S.Next(View(s), S.RunFlush(e, i)).core[d]
  {
    hide X.BookOk, X.SlotOk, X.Ordered, S.Typed;
    var u, id := X.Finish(c, rc), X.Top(s.x, c).id;
    var s' := Next(s, Cross(u));
    assert IsFlush(s, id);
    Waiting(s, e, i, id);
    assert X.FrameOk(s.x, c, |s.x.stack[c]| - 1);
    forall j | 0 <= j < |s.acts[d]| && s.acts[d][j].call.Some? && !(d == e && j == i)
      ensures SameCall(s.x, s'.x, s.acts[d][j].call.value)
    {
      var other := s.acts[d][j].call.value;
      assert Waits(s, d, j, other);
      Waiting(s, d, j, other);
      if other == id { OneWaiter(s, d, j, e, i, id); }
      OthersGoOn(s.x, u, other);
    }
    assert View(s').core[d].frames == S.Next(View(s), S.RunFlush(e, i)).core[d].frames;
  }

  /** The call returns to mem_settle(), which goes on to the next CPU. */
  lemma FlushReturns(s: State, c: Cpu)
    requires Inv(s) && Enabled(s, Cross(X.Return(c))) && ReturnsTo(s, c)
    ensures var s' := Next(s, Cross(X.Return(c)));
            && Inv(s') && S.Enabled(View(s), S.EndFlush(c)) && View(s') == S.Next(View(s), S.EndFlush(c))
  {
    hide X.FrameOk, X.BookOk, X.SlotOk, X.Ordered, CpuOk, ViewFrames;
    var s' := Next(s, Cross(X.Return(c)));
    ReturnEnabled(s, c);
    ReturnKeeps(s, c);
    var v := S.Next(View(s), S.EndFlush(c));
    forall d | 0 <= d < |s.acts| ensures View(s').core[d] == v.core[d] { ReturnView(s, c, d); }
    assert View(s').core == v.core;
  }

  lemma ReturnEnabled(s: State, c: Cpu)
    requires Inv(s) && Enabled(s, Cross(X.Return(c))) && ReturnsTo(s, c)
    ensures S.Enabled(View(s), S.EndFlush(c))
  {
    var id, top := X.Top(s.x, c).id, |s.acts[c]| - 1;
    assert Waits(s, c, top, id);
    Waiting(s, c, top, id);
    assert CpuOk(s, c);
  }

  lemma ReturnKeeps(s: State, c: Cpu)
    requires Inv(s) && Enabled(s, Cross(X.Return(c))) && ReturnsTo(s, c)
    ensures Inv(Next(s, Cross(X.Return(c))))
  {
    hide X.Next, X.FrameOk, X.BookOk, X.SlotOk, X.Ordered;
    var s' := Next(s, Cross(X.Return(c)));
    X.NextKeepsInv(s.x, X.Return(c));
    StackAfter(s.x, X.Return(c), c);
    forall e | 0 <= e < |s'.x.online| ensures s'.x.online[e] { StackAfter(s.x, X.Return(c), e); }
    forall d | 0 <= d < |s.acts| ensures CpuOk(s', d) { ReturnCpu(s, c, d); }
  }

  lemma ReturnCpu(s: State, c: Cpu, d: Cpu)
    requires Inv(s) && Enabled(s, Cross(X.Return(c))) && ReturnsTo(s, c) && d < |s.acts|
    ensures var s' := Next(s, Cross(X.Return(c)));
            |s'.acts| == |s'.x.stack| == |s'.m.core| == |s.acts| && CpuOk(s', d)
  {
    hide X.Next, X.FrameOk, X.BookOk, X.SlotOk, X.Ordered;
    var s' := Next(s, Cross(X.Return(c)));
    assert CpuOk(s, d) && CpuOk(s, c);
    if d == c { BelowTop(s, d); }
    StackAfter(s.x, X.Return(c), d);
    forall j | 0 <= j < |s.acts[d]| ensures ActOk(s', d, j) && FrameOk(s'.m, d, j) {
      assert ActOk(s, d, j) && FrameOk(s.m, d, j);
    }
  }

  lemma ReturnView(s: State, c: Cpu, d: Cpu)
    requires Inv(s) && Enabled(s, Cross(X.Return(c))) && ReturnsTo(s, c) && d < |s.acts|
    requires Inv(Next(s, Cross(X.Return(c)))) && S.Enabled(View(s), S.EndFlush(c))
    ensures View(Next(s, Cross(X.Return(c)))).core[d] == S.Next(View(s), S.EndFlush(c)).core[d]
  {
    hide X.BookOk, X.SlotOk, X.Ordered, S.Typed;
    var u, id := X.Return(c), X.Top(s.x, c).id;
    var s' := Next(s, Cross(u));
    var top := |s.acts[c]| - 1;
    assert Waits(s, c, top, id) && CpuOk(s, c) && FrameOk(s.m, c, top);
    Waiting(s, c, top, id);
    assert X.FrameOk(s.x, c, |s.x.stack[c]| - 1);
    forall j | 0 <= j < |s.acts[d]| && s.acts[d][j].call.Some? && !(d == c && j == top)
      ensures SameCall(s.x, s'.x, s.acts[d][j].call.value)
    {
      var other := s.acts[d][j].call.value;
      assert Waits(s, d, j, other);
      Waiting(s, d, j, other);
      if other == id { OneWaiter(s, d, j, c, top, id); }
      OthersGoOn(s.x, u, other);
    }
    assert View(s').core[d].frames == S.Next(View(s), S.EndFlush(c)).core[d].frames;
  }

  /** mem_settle() calls; the target is online and another CPU, so the call is posted. */
  lemma FlushAsked(s: State, c: Cpu, d: Cpu)
    requires Inv(s) && Enabled(s, Ask(c, d))
    ensures var s' := Next(s, Ask(c, d));
            && Inv(s') && S.Enabled(View(s), S.AskFlush(c, d)) && View(s') == S.Next(View(s), S.AskFlush(c, d))
  {
    hide X.FrameOk, X.BookOk, X.SlotOk, X.Ordered, CpuOk, ViewFrames;
    var s' := Next(s, Ask(c, d));
    AskEnabled(s, c, d);
    AskKeeps(s, c, d);
    var v := S.Next(View(s), S.AskFlush(c, d));
    forall e | 0 <= e < |s.acts| ensures View(s').core[e] == v.core[e] { AskView(s, c, d, e); }
    assert View(s').core == v.core;
  }

  lemma AskEnabled(s: State, c: Cpu, d: Cpu)
    requires Inv(s) && Enabled(s, Ask(c, d))
    ensures S.Enabled(View(s), S.AskFlush(c, d))
  {
    hide X.FrameOk, X.BookOk, X.SlotOk, X.Ordered;
    var top := |s.acts[c]| - 1;
    assert CpuOk(s, c) && ActOk(s, c, top) && FrameOk(s.m, c, top);
  }

  lemma AskKeeps(s: State, c: Cpu, d: Cpu)
    requires Inv(s) && Enabled(s, Ask(c, d))
    ensures Inv(Next(s, Ask(c, d)))
  {
    var s' := Next(s, Ask(c, d));
    X.NextKeepsInv(s.x, X.Call(c, d));
    forall e | 0 <= e < |s.acts| ensures CpuOk(s', e) {
      assert CpuOk(s, e);
      StackAfter(s.x, X.Call(c, d), e);
      forall j | 0 <= j < |s.acts[e]| ensures ActOk(s', e, j) && FrameOk(s'.m, e, j) {
        assert ActOk(s, e, j) && FrameOk(s.m, e, j);
      }
    }
  }

  lemma AskView(s: State, c: Cpu, d: Cpu, e: Cpu)
    requires Inv(s) && Enabled(s, Ask(c, d)) && e < |s.acts|
    requires Inv(Next(s, Ask(c, d))) && S.Enabled(View(s), S.AskFlush(c, d))
    ensures View(Next(s, Ask(c, d))).core[e] == S.Next(View(s), S.AskFlush(c, d)).core[e]
  {
    hide X.FrameOk, X.BookOk, X.SlotOk, X.Ordered, S.Typed;
    var s' := Next(s, Ask(c, d));
    var top := |s.acts[c]| - 1;
    assert CpuOk(s, c) && FrameOk(s.m, c, top) && ActOk(s, c, top);
    forall j | 0 <= j < |s.acts[e]| && s.acts[e][j].call.Some?
      ensures SameCall(s.x, s'.x, s.acts[e][j].call.value)
    {
      var other := s.acts[e][j].call.value;
      assert Waits(s, e, j, other);
      Waiting(s, e, j, other);
      OthersGoOn(s.x, X.Call(c, d), other);
    }
    assert View(s').core[e].frames == S.Next(View(s), S.AskFlush(c, d)).core[e].frames;
  }

  // --------------------------------------------------------- memory steps

  lemma DropCommutes(m: S.State, frames: seq<seq<S.Frame>>, c: Cpu, lost: set<(S.Thread, S.Block)>)
    requires S.Typed(m) && c < |m.core| == |frames| && S.Typed(WithFrames(m, frames))
    ensures var v := WithFrames(m, frames);
            && S.HoldsAfter(v, lost) == S.HoldsAfter(m, lost) && S.Retires(v, lost) == S.Retires(m, lost)
            && S.MaskFor(v, c, lost) == S.MaskFor(m, c, lost)
            && S.LosesCurrent(v, c, lost) == S.LosesCurrent(m, c, lost)
  {
  }

  /** Steps that do not look at the frames do the same whatever these hold. */
  lemma MemCommutes(m: S.State, frames: seq<seq<S.Frame>>, u: S.Step)
    requires S.Enabled(m, u) && |frames| == |m.core|
    requires !u.AskFlush? && !u.RunFlush? && !u.EndFlush? && !u.BeginSettle? && !u.Free?
    ensures S.Enabled(WithFrames(m, frames), u) && |S.Next(m, u).core| == |m.core|
    ensures S.Next(WithFrames(m, frames), u) == WithFrames(S.Next(m, u), frames)
  {
    var v := WithFrames(m, frames);
    if u.Drop? { DropCommutes(m, frames, u.cpu, u.lost); }
    assert S.Next(v, u).core == WithFrames(S.Next(m, u), frames).core;
  }

  lemma MemKeeps(s: State, u: S.Step)
    requires Inv(s) && Enabled(s, Mem(u)) && !u.BeginSettle? && !u.Free?
    ensures Inv(Next(s, Mem(u))) && S.Enabled(View(s), u) && View(Next(s, Mem(u))) == S.Next(View(s), u)
  {
    hide S.Next, X.FrameOk, X.BookOk, X.SlotOk, X.Ordered;
    var s' := Next(s, Mem(u));
    forall c | 0 <= c < |s.m.core| ensures CoreOk(s.m, c) { assert CpuOk(s, c); }
    MemFrame(s.m, u);
    forall c | 0 <= c < |s.acts| ensures CpuOk(s', c) { SameFrames(s, s'.m, c); }
    var frames := seq(|s.acts|, c requires 0 <= c < |s.acts| => ViewFrames(s.x, s.m.core[c].frames, s.acts[c]));
    MemCommutes(s.m, frames, u);
    assert View(s').core == WithFrames(s'.m, frames).core;
  }

  lemma SameFrames(s: State, m': S.State, c: Cpu)
    requires Inv(s) && c < |s.acts| == |m'.core| && m'.core[c].frames == s.m.core[c].frames && CoreOk(m', c)
    ensures CpuOk(s.(m := m'), c)
  {
    hide X.Inv;
    assert CpuOk(s, c);
    forall i | 0 <= i < |s.acts[c]| ensures ActOk(s.(m := m'), c, i) && FrameOk(m', c, i) {
      assert ActOk(s, c, i) && FrameOk(s.m, c, i);
    }
  }

  /** What a step of the memory system that is not part of a settle leaves alone. */
  lemma MemFrame(m: S.State, u: S.Step)
    requires S.Enabled(m, u) && !u.AskFlush? && !u.RunFlush? && !u.EndFlush? && !u.BeginSettle? && !u.Free?
    requires forall c :: 0 <= c < |m.core| ==> CoreOk(m, c)
    ensures var m' := S.Next(m, u);
            && S.Typed(m') && |m'.core| == |m.core|
            && (forall c :: 0 <= c < |m.core| ==> m'.core[c].frames == m.core[c].frames && CoreOk(m', c))
  {
    hide S.Retires, S.HoldsAfter, S.LosesCurrent;
    var m' := S.Next(m, u);
    assert CoreOk(m, u.cpu);
    forall c | 0 <= c < |m.core| ensures m'.core[c].frames == m.core[c].frames && CoreOk(m', c) {
      assert CoreOk(m, c);
    }
  }

  /** mem_settle() begins: the new activation is the innermost. */
  lemma SettleBegins(s: State, c: Cpu)
    requires Inv(s) && Enabled(s, Mem(S.BeginSettle(c)))
    ensures var u := S.BeginSettle(c); var s' := Next(s, Mem(u));
            Inv(s') && S.Enabled(View(s), u) && View(s') == S.Next(View(s), u)
  {
    hide X.FrameOk, X.BookOk, X.SlotOk, X.Ordered, ViewFrames;
    var u := S.BeginSettle(c);
    var s' := Next(s, Mem(u));
    BelowTop(s, c);
    forall d | 0 <= d < |s.acts| ensures CpuOk(s', d) { BeginCpu(s, c, d); }
    var k := s.m.core[c];
    OneFrame(s.x, k.frames, s.acts[c], S.Frame(k.retired, k.mask, None, false), Act(|s.x.stack[c]|, None));
    assert View(s').core == S.Next(View(s), u).core;
  }

  lemma BeginCpu(s: State, c: Cpu, d: Cpu)
    requires Inv(s) && Enabled(s, Mem(S.BeginSettle(c))) && d < |s.acts|
    requires forall i :: 0 <= i < |s.acts[c]| ==> s.acts[c][i].at < |s.x.stack[c]|
    ensures CpuOk(Next(s, Mem(S.BeginSettle(c))), d)
  {
    hide X.FrameOk, X.BookOk, X.SlotOk, X.Ordered;
    var s' := Next(s, Mem(S.BeginSettle(c)));
    assert CpuOk(s, d) && CpuOk(s, c);
    forall i | 0 <= i < |s'.acts[d]| ensures ActOk(s', d, i) && FrameOk(s'.m, d, i) {
      if i < |s.acts[d]| { assert ActOk(s, d, i) && FrameOk(s.m, d, i); }
    }
  }

  lemma OneFrame(x: X.State, fs: seq<S.Frame>, acts: seq<Act>, f: S.Frame, a: Act)
    requires |fs| == |acts|
    ensures ViewFrames(x, fs + [f], acts + [a]) == ViewFrames(x, fs, acts) + [ViewFrame(x, f, a)]
  {
  }

  /** mem_settle() frees what it detached and returns. */
  lemma SettleEnds(s: State, c: Cpu)
    requires Inv(s) && Enabled(s, Mem(S.Free(c)))
    ensures var u := S.Free(c); var s' := Next(s, Mem(u));
            Inv(s') && S.Enabled(View(s), u) && View(s') == S.Next(View(s), u)
  {
    hide X.FrameOk, X.BookOk, X.SlotOk, X.Ordered, ViewFrames;
    var u := S.Free(c);
    var s' := Next(s, Mem(u));
    var top := |s.acts[c]| - 1;
    assert CpuOk(s, c) && ActOk(s, c, top);
    forall d | 0 <= d < |s.acts| ensures CpuOk(s', d) {
      assert CpuOk(s, d);
      forall i | 0 <= i < |s'.acts[d]| ensures ActOk(s', d, i) && FrameOk(s'.m, d, i) {
        assert ActOk(s, d, i) && FrameOk(s.m, d, i);
      }
    }
    var fs := s.m.core[c].frames;
    assert fs == fs[..top] + [fs[top]] && s.acts[c] == s.acts[c][..top] + [s.acts[c][top]];
    OneFrame(s.x, fs[..top], s.acts[c][..top], fs[top], s.acts[c][top]);
    assert View(s').core == S.Next(View(s), u).core;
  }

  // -------------------------------------------------------------- results

  /** The steps of the two systems that a step of the whole makes. */
  lemma StepRefines(s: State, t: Step) returns (ms: seq<S.Step>, xs: seq<X.Step>)
    requires Inv(s) && Enabled(s, t)
    ensures Inv(Next(s, t)) && Follows(s, ms, xs, Next(s, t)) && |ms| <= 1 && |xs| <= 1
    ensures forall u :: u in ms && u.Drop? ==> t == Mem(u)
  {
    hide View, S.Next, S.Enabled, S.Run, X.FrameOk, X.BookOk, X.SlotOk, X.Ordered, CpuOk, S.Typed, X.Next, X.Enabled;
    match t
    case Mem(u) =>
      ms, xs := [u], [];
      if u.BeginSettle? { SettleBegins(s, u.cpu); } else if u.Free? { SettleEnds(s, u.cpu); } else { MemKeeps(s, u); }
      OneMem(View(s), u);
    case Ask(c, d) =>
      ms, xs := [S.AskFlush(c, d)], [X.Call(c, d)];
      FlushAsked(s, c, d);
      OneMem(View(s), S.AskFlush(c, d));
      OneCross(s.x, X.Call(c, d));
    case Cross(u) =>
      xs := [u];
      ms := CrossRefines(s, u);
  }

  ghost predicate Follows(s: State, ms: seq<S.Step>, xs: seq<X.Step>, s': State) {
    Sized(s) && Sized(s') && S.Run(View(s), ms, View(s')) && X.Run(s.x, xs, s'.x)
  }

  lemma OneMem(m: S.State, u: S.Step)
    requires S.Enabled(m, u)
    ensures S.Run(m, [u], S.Next(m, u))
  {
    hide S.Enabled, S.Next;
    assert [u][1..] == [];
  }

  lemma OneCross(x: X.State, u: X.Step)
    requires X.Shape(x) && X.Enabled(x, u)
    ensures X.Run(x, [u], X.Next(x, u))
  {
    hide X.Enabled, X.Next;
    assert [u][1..] == [];
  }

  lemma CrossRefines(s: State, u: X.Step) returns (ms: seq<S.Step>)
    requires Inv(s) && Enabled(s, Cross(u))
    ensures Inv(Next(s, Cross(u))) && Follows(s, ms, [u], Next(s, Cross(u))) && |ms| <= 1
    ensures forall t :: t in ms ==> t.RunFlush? || t.EndFlush?
  {
    hide View, S.Next, S.Enabled, X.FrameOk, X.BookOk, X.SlotOk, X.Ordered, CpuOk, S.Typed, X.Next;
    OneCross(s.x, u);
    if u.Finish? && IsFlush(s, X.Top(s.x, u.cpu).id) {
      var e: nat, i: nat :| e < |s.acts| && i < |s.acts[e]| && Waits(s, e, i, X.Top(s.x, u.cpu).id);
      FlushRuns(s, u.cpu, u.rc, e, i);
      ms := [S.RunFlush(e, i)];
      OneMem(View(s), S.RunFlush(e, i));
    } else if u.Return? && ReturnsTo(s, u.cpu) {
      FlushReturns(s, u.cpu);
      ms := [S.EndFlush(u.cpu)];
      OneMem(View(s), S.EndFlush(u.cpu));
    } else {
      forall c: nat, i: nat, id | Waits(s, c, i, id) ensures !Ends(s.x, u, id) {
        if Ends(s.x, u, id) && u.Return? { ReturnsToWaiter(s, u.cpu, c, i); }
      }
      CrossKeeps(s, u);
      ms := [];
    }
  }

  /** Every drop of the run passes the test of Settle.SafeIffClean for each block it retires. */
  ghost predicate CleanDrops(s: State, steps: seq<Step>)
    decreases |steps|
  {
    steps != [] ==>
      && X.Shape(s.x) && |s.acts| == |s.x.stack| == |s.m.core| && Enabled(s, steps[0])
      && (steps[0].Mem? ==> CleanStep(s.m, steps[0].mem))
      && CleanDrops(Next(s, steps[0]), steps[1..])
  }

  ghost predicate CleanStep(m: S.State, u: S.Step) {
    u.Drop? && S.Typed(m) && u.cpu < |m.core| ==>
      forall b :: b in S.Retires(m, u.lost) ==> S.CleanDrop(m, u.cpu, u.lost, b)
  }

  /**
   Every run of mem_settle() on top of the call protocol is a run of the protocol, and a
   run of Settle over the same windows, lists and heap, with the same drops.
   */
  lemma {:induction false} RunRefines(s: State, steps: seq<Step>, s': State) returns (ms: seq<S.Step>, xs: seq<X.Step>)
    requires Inv(s) && Run(s, steps, s')
    ensures Inv(s') && Follows(s, ms, xs, s')
    ensures CleanDrops(s, steps) ==> S.CleanRun(View(s), ms, View(s'))
    decreases |steps|
  {
    hide View, S.Next, S.Enabled, X.FrameOk, X.BookOk, X.SlotOk, X.Ordered, CpuOk, S.Typed, X.Next, X.Enabled, Enabled,
      Next;
    if steps == [] { return [], []; }
    var s1 := Next(s, steps[0]);
    var m1, x1 := StepRefines(s, steps[0]);
    var m2, x2 := RunRefines(s1, steps[1..], s');
    ms, xs := m1 + m2, x1 + x2;
    S.RunConcat(View(s), m1, View(s1), m2, View(s'));
    CrossConcat(s.x, x1, s1.x, x2, s'.x);
    if CleanDrops(s, steps) {
      CleanPrepend(s, steps[0], m1, s1, m2, View(s'));
    }
  }

  lemma CrossConcat(x: X.State, a: seq<X.Step>, x1: X.State, b: seq<X.Step>, x2: X.State)
    requires X.Run(x, a, x1) && X.Run(x1, b, x2) && |a| <= 1
    ensures X.Run(x, a + b, x2)
  {
    hide X.Next, X.Enabled;
    if a == [] {
      assert a + b == b;
    } else {
      assert (a + b)[1..] == b && a[1..] == [];
    }
  }

  lemma CleanPrepend(s: State, t: Step, a: seq<S.Step>, s1: State, b: seq<S.Step>, v: S.State)
    requires Inv(s) && Sized(s1) && S.Run(View(s), a, View(s1)) && |a| <= 1 && S.CleanRun(View(s1), b, v)
    requires (forall u :: u in a && u.Drop? ==> t == Mem(u)) && (t.Mem? ==> CleanStep(s.m, t.mem))
    ensures S.CleanRun(View(s), a + b, v)
  {
    hide View, S.Next, S.Enabled, X.Inv, CleanStep, S.Retires, S.CleanDrop, S.Typed;
    if a == [] {
      assert a + b == b;
    } else {
      assert (a + b)[1..] == b && a[1..] == [];
      if a[0].Drop? { CleanView(s, a[0].cpu, a[0].lost); }
    }
  }

  lemma CleanView(s: State, c: Cpu, lost: set<(S.Thread, S.Block)>)
    requires Inv(s) && CleanStep(s.m, S.Drop(c, lost)) && S.Enabled(View(s), S.Drop(c, lost))
    ensures forall b :: b in S.Retires(View(s), lost) ==> S.CleanDrop(View(s), c, lost, b)
  {
    var frames := seq(|s.acts|, c requires 0 <= c < |s.acts| => ViewFrames(s.x, s.m.core[c].frames, s.acts[c]));
    DropCommutes(s.m, frames, c, lost);
    forall b | b in S.Retires(View(s), lost) ensures S.CleanDrop(View(s), c, lost, b) {
      assert S.CleanDrop(s.m, c, lost, b);
      forall d | 0 <= d < |s.m.core| && S.Shows(View(s), d, b)
        ensures d in View(s).core[c].mask || exists p :: p in lost && p.0 == View(s).core[d].current
      {
        assert S.Shows(s.m, d, b);
      }
    }
  }

  /** All CPUs are up and run a thread of theirs, nothing is mapped and no settle has begun. */
  ghost predicate Starts(s: State, up: seq<X.Step>, current: seq<S.Thread>, home: seq<Cpu>, user: seq<bool>) {
    && |home| == |user| && (forall e :: 0 <= e < |current| ==> current[e] < |home| && home[current[e]] == e)
    && (forall t :: 0 <= t < |home| ==> home[t] < |current|)
    && X.Run(X.Init(|current|), up, s.x) && |s.x.stack| == |s.acts| == |current|
    && (forall c :: 0 <= c < |s.x.online| ==> s.x.online[c])
    && s.m == S.Init(current, home, user) && (forall c :: 0 <= c < |s.acts| ==> s.acts[c] == [])
  }

  lemma StartOk(s: State, up: seq<X.Step>, current: seq<S.Thread>, home: seq<Cpu>, user: seq<bool>)
    requires Starts(s, up, current, home, user)
    ensures Inv(s) && View(s) == S.Init(current, home, user)
  {
    hide X.Inv, X.Run;
    X.InitInv(|current|);
    X.RunKeepsInv(X.Init(|current|), up, s.x);
    forall c | 0 <= c < |s.acts| ensures CpuOk(s, c) { assert s.acts[c] == []; }
    assert View(s).core == s.m.core;
  }

  /**
   With flushes made by cross-CPU calls, over every interleaving on any number of CPUs: if
   each drop passes the test, no user thread reaches a block the heap got back.
   */
  lemma CleanRunsAreSafe(s0: State, up: seq<X.Step>, current: seq<S.Thread>, home: seq<Cpu>, user: seq<bool>,
                         steps: seq<Step>, s: State)
    requires Starts(s0, up, current, home, user) && Run(s0, steps, s) && CleanDrops(s0, steps)
    ensures forall b, d :: b in s.m.freed ==> !S.Shows(s.m, d, b)
  {
    hide Starts, Run, CleanDrops, X.Inv, S.CleanRun, X.Run, S.Run;
    StartOk(s0, up, current, home, user);
    var ms, _ := RunRefines(s0, steps, s);
    Started(s0, up, current, home, user);
    S.CleanRunsAreSafe(current, home, user, ms, View(s));
    forall b, d | b in s.m.freed ensures !S.Shows(s.m, d, b) { assert !S.Shows(View(s), d, b); }
  }

  lemma Started(s: State, up: seq<X.Step>, current: seq<S.Thread>, home: seq<Cpu>, user: seq<bool>)
    requires Starts(s, up, current, home, user)
    ensures |home| == |user| && (forall e :: 0 <= e < |current| ==> current[e] < |home| && home[current[e]] == e)
    ensures forall t :: 0 <= t < |home| ==> home[t] < |current|
  {
  }

  /** A step that gets a settle or a call further. */
  predicate Advances(t: Step) {
    t.Ask? || (t.Mem? && t.mem.Free?) || (t.Cross? && X.Advances(t.cross))
  }

  /** A mem_settle() that does not wait for a call can go on. */
  lemma SettleGoesOn(s: State, c: Cpu) returns (t: Step)
    requires Inv(s) && Settling(s, c)
    ensures Enabled(s, t) && Advances(t)
  {
    var top := |s.acts[c]| - 1;
    assert CpuOk(s, c) && ActOk(s, c, top) && FrameOk(s.m, c, top);
    var mask := S.TopFrame(s.m, c).mask;
    if d :| d in mask { return Ask(c, d); }
    return Mem(S.Free(c));
  }

  /** While a settle or a call is unfinished on any CPU, some step gets one further. */
  lemma NeverStuck(s: State) returns (t: Step)
    requires Inv(s) && exists c :: 0 <= c < |s.acts| && (s.acts[c] != [] || s.x.stack[c] != [])
    ensures Enabled(s, t) && Advances(t)
  {
    hide X.FrameOk, X.BookOk, X.SlotOk, X.Ordered;
    if X.Outstanding(s.x) {
      var u := X.NeverStuck(s.x);
      if Settling(s, u.cpu) { t := SettleGoesOn(s, u.cpu); } else { t := Cross(u); }
    } else {
      var c :| 0 <= c < |s.acts| && s.acts[c] != [];
      assert CpuOk(s, c) && ActOk(s, c, |s.acts[c]| - 1);
      t := SettleGoesOn(s, c);
    }
  }

  /** The same after every run from the start. */
  lemma SettlesDeadlockFree(s0: State, up: seq<X.Step>, current: seq<S.Thread>, home: seq<Cpu>, user: seq<bool>,
                            steps: seq<Step>, s: State) returns (t: Step)
    requires Starts(s0, up, current, home, user) && Run(s0, steps, s) && |s.acts| <= |s.x.stack|
    requires exists c :: 0 <= c < |s.acts| && (s.acts[c] != [] || s.x.stack[c] != [])
    ensures X.Shape(s.x) && Enabled(s, t) && Advances(t)
  {
    hide Starts, Run, X.FrameOk, X.BookOk, X.SlotOk, X.Ordered, CpuOk, Enabled, Follows;
    StartOk(s0, up, current, home, user);
    var _, _ := RunRefines(s0, steps, s);
    t := NeverStuck(s);
  }
}

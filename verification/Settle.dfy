/**
 Deferred freeing of dropped memory (kernel/mem/mem.c, with the switch order of
 kernel/sched/sched.c and the window cache of the MPU back ends).

 A CPU loads protection windows for its current thread on faults.  Dropping an
 area under the area lock flushes the dropping CPU's own windows or marks the
 remote CPU that runs the thread for a shootdown; a backing block whose last
 record went is put on the dropping CPU's retired list.  mem_settle() detaches
 both, has every marked CPU flush its windows by a cross-CPU call, and only then
 frees the blocks.  While it waits its CPU may serve a kill, which drops and
 settles again: each CPU therefore has a stack of unfinished settles.

 Each section under the area lock is one step.  A cross-CPU flush is three steps
 (asked, run on its target, returned); Shootdown derives these from the steps of
 XCall.  A block number is used for one allocation only.
 */
module Settle {
  import opened Sequences

  type Cpu = nat
  type Thread = nat
  type Block = nat

  /** sched_switch_to() writes the layout and then `current`; sched_start() and the deferred switch do the reverse. */
  datatype Switch = Stable | LayoutDone(next: Thread) | CurrentDone

  /** One activation of mem_settle(): what it detached, and the flush it waits for. */
  datatype Frame = Frame(blocks: set<Block>, mask: set<Cpu>, waiting: Option<Cpu>, flushed: bool)

  /** `owner` is the back end's pinned key: the thread the loaded windows belong to. */
  datatype Core = Core(
    current: Thread,
    owner: Option<Thread>,
    windows: set<Block>,
    switch: Switch,
    mask: set<Cpu>,
    retired: set<Block>,
    frames: seq<Frame>)

  datatype State = State(
    core: seq<Core>,
    home: seq<Cpu>,          // thread affinity
    user: seq<bool>,         // false: kernel thread
    holds: seq<set<Block>>,  // blocks the thread's area set covers
    next: Block,
    freed: set<Block>)

  datatype Step =
    | Map(cpu: Cpu, block: Block)
    | Grant(cpu: Cpu, block: Block, to: Thread)
    | Fault(cpu: Cpu, block: Block, kept: set<Block>)
    | SwitchLayout(cpu: Cpu, to: Thread)
    | SwitchCurrentLast(cpu: Cpu)
    | SwitchCurrent(cpu: Cpu, to: Thread)
    | SwitchLayoutLast(cpu: Cpu)
    | Drop(cpu: Cpu, lost: set<(Thread, Block)>)
    | BeginSettle(cpu: Cpu)
    | AskFlush(cpu: Cpu, target: Cpu)
    | RunFlush(cpu: Cpu, level: nat)
    | EndFlush(cpu: Cpu)
    | Free(cpu: Cpu)

  // --------------------------------------------------------------- steps

  function SetCore(s: State, c: Cpu, k: Core): State
    requires c < |s.core|
  {
    s.(core := s.core[c := k])
  }

  /** ulmk_arch_mpu_switch(): a kernel thread only forgets the owner; the same owner keeps its windows. */
  function LayoutFor(s: State, k: Core, t: Thread): Core
    requires t < |s.user|
  {
    if !s.user[t] then k.(owner := None)
    else if k.owner == Some(t) then k
    else k.(owner := Some(t), windows := {})
  }

  predicate HasFrame(s: State, c: Cpu) {
    c < |s.core| && s.core[c].frames != []
  }

  function TopFrame(s: State, c: Cpu): Frame
    requires HasFrame(s, c)
  {
    s.core[c].frames[|s.core[c].frames| - 1]
  }

  function SetTop(s: State, c: Cpu, f: Frame): State
    requires HasFrame(s, c)
  {
    var k := s.core[c];
    SetCore(s, c, k.(frames := k.frames[|k.frames| - 1 := f]))
  }

  predicate Typed(s: State) {
    && |s.home| == |s.user| == |s.holds|
    && (forall t :: 0 <= t < |s.home| ==> s.home[t] < |s.core|)
    && (forall c :: 0 <= c < |s.core| ==> s.core[c].current < |s.home|)
  }

  /** The sets left after the drop, and the blocks nobody covers any more. */
  function HoldsAfter(s: State, lost: set<(Thread, Block)>): (h: seq<set<Block>>)
    ensures |h| == |s.holds|
  {
    seq(|s.holds|, t requires 0 <= t < |s.holds| => set b | b in s.holds[t] && (t, b) !in lost)
  }

  predicate Held(holds: seq<set<Block>>, b: Block) {
    exists t :: 0 <= t < |holds| && b in holds[t]
  }

  ghost function Retires(s: State, lost: set<(Thread, Block)>): set<Block> {
    set p | p in lost && !Held(HoldsAfter(s, lost), p.1) :: p.1
  }

  /** ulmk_kern_area_dropped() for every thread that lost an area. */
  function MaskFor(s: State, c: Cpu, lost: set<(Thread, Block)>): set<Cpu>
    requires Typed(s) && c < |s.core|
  {
    set p | p in lost && p.0 < |s.home| && p.0 != s.core[c].current
            && s.home[p.0] != c && s.core[s.home[p.0]].current == p.0 :: s.home[p.0]
  }

  predicate LosesCurrent(s: State, c: Cpu, lost: set<(Thread, Block)>)
    requires c < |s.core|
  {
    exists p :: p in lost && p.0 == s.core[c].current
  }

  ghost predicate Enabled(s: State, t: Step) {
    && Typed(s) && t.cpu < |s.core|
    && var k := s.core[t.cpu];
    match t
    case Map(c, b) => b >= s.next
    case Grant(c, b, to) => b in s.holds[k.current] && to < |s.holds|
    case Fault(c, b, kept) => k.switch.Stable? && s.user[k.current] && b in s.holds[k.current]
    case SwitchLayout(c, to) => k.switch.Stable? && to < |s.home| && s.home[to] == c && to != k.current
    case SwitchCurrentLast(c) => k.switch.LayoutDone?
    case SwitchCurrent(c, to) => k.switch.Stable? && to < |s.home| && s.home[to] == c
    case SwitchLayoutLast(c) => k.switch.CurrentDone?
    case Drop(c, lost) => forall p :: p in lost ==> p.0 < |s.holds| && p.1 in s.holds[p.0]
    case BeginSettle(c) => true
    case AskFlush(c, d) => HasFrame(s, c) && TopFrame(s, c).waiting.None? && d in TopFrame(s, c).mask
    case RunFlush(c, i) => i < |k.frames| && k.frames[i].waiting.Some? && !k.frames[i].flushed
                           && k.frames[i].waiting.value < |s.core|
    case EndFlush(c) => HasFrame(s, c) && TopFrame(s, c).waiting.Some? && TopFrame(s, c).flushed
    case Free(c) => HasFrame(s, c) && TopFrame(s, c).waiting.None? && TopFrame(s, c).mask == {}
  }

  ghost function Next(s: State, t: Step): State
    requires Enabled(s, t)
  {
    var k := s.core[t.cpu];
    match t
    case Map(c, b) => s.(holds := s.holds[k.current := s.holds[k.current] + {b}], next := b + 1)
    case Grant(c, b, to) => s.(holds := s.holds[to := s.holds[to] + {b}])
    case Fault(c, b, kept) => SetCore(s, c, k.(windows := k.windows * kept + {b}))
    case SwitchLayout(c, to) => SetCore(s, c, LayoutFor(s, k, to).(switch := LayoutDone(to)))
    case SwitchCurrentLast(c) => SetCore(s, c, k.(current := k.switch.next, switch := Stable))
    case SwitchCurrent(c, to) => SetCore(s, c, k.(current := to, switch := CurrentDone))
    case SwitchLayoutLast(c) => SetCore(s, c, LayoutFor(s, k, k.current).(switch := Stable))
    case Drop(c, lost) =>
      SetCore(s, c, k.(windows := if LosesCurrent(s, c, lost) then {} else k.windows,
                       mask := k.mask + MaskFor(s, c, lost),
                       retired := k.retired + Retires(s, lost))).(holds := HoldsAfter(s, lost))
    case BeginSettle(c) =>
      SetCore(s, c, k.(frames := k.frames + [Frame(k.retired, k.mask, None, false)], retired := {}, mask := {}))
    case AskFlush(c, d) => SetTop(s, c, TopFrame(s, c).(waiting := Some(d), flushed := false))
    case RunFlush(c, i) =>
      var d := k.frames[i].waiting.value;
      var s1 := SetCore(s, c, k.(frames := k.frames[i := k.frames[i].(flushed := true)]));
      SetCore(s1, d, s1.core[d].(windows := {}))
    case EndFlush(c) =>
      var f := TopFrame(s, c);
      SetTop(s, c, f.(mask := f.mask - {f.waiting.value}, waiting := None, flushed := false))
    case Free(c) =>
      var n := |k.frames| - 1;
      SetCore(s, c, k.(frames := k.frames[..n])).(freed := s.freed + k.frames[n].blocks)
  }

  /** CPUs already run a thread; nothing is mapped yet. */
  function Init(current: seq<Thread>, home: seq<Cpu>, user: seq<bool>): State
    requires |home| == |user| && forall c :: 0 <= c < |current| ==> current[c] < |home|
  {
    State(seq(|current|, c requires 0 <= c < |current| =>
            Core(current[c], if user[current[c]] then Some(current[c]) else None, {}, Stable, {}, {}, [])),
          home, user, seq(|home|, _ => {}), 0, {})
  }

  ghost predicate Run(s: State, steps: seq<Step>, s': State)
    decreases |steps|
  {
    if steps == [] then s == s'
    else Enabled(s, steps[0]) && Run(Next(s, steps[0]), steps[1..], s')
  }

  // ------------------------------------------------------------ invariant

  /** The CPU's windows belong to the user thread it is running. */
  predicate Visible(s: State, d: Cpu)
    requires d < |s.core|
  {
    s.core[d].owner == Some(s.core[d].current)
  }

  /** A user thread running on d can reach b. */
  predicate Shows(s: State, d: Cpu, b: Block) {
    d < |s.core| && Visible(s, d) && b in s.core[d].windows
  }

  /** The settle still has to flush d. */
  predicate Owes(f: Frame, d: Cpu) {
    d in f.mask && !(f.flushed && f.waiting == Some(d))
  }

  /** Some CPU has a shootdown of d pending: marked, or detached and not yet run. */
  ghost predicate Pending(s: State, d: Cpu) {
    || (exists c :: 0 <= c < |s.core| && d in s.core[c].mask)
    || (exists c, i :: 0 <= c < |s.core| && 0 <= i < |s.core[c].frames| && Owes(s.core[c].frames[i], d))
  }

  ghost predicate CoreOk(s: State, c: Cpu)
    requires Typed(s) && c < |s.core|
  {
    var k := s.core[c];
    && s.home[k.current] == c
    && (k.owner.Some? ==> k.owner.value < |s.user| && s.user[k.owner.value])
    && (k.switch.Stable? ==> k.owner == if s.user[k.current] then Some(k.current) else None)
    && (k.switch.LayoutDone? ==>
          && k.switch.next < |s.home| && k.switch.next != k.current && s.home[k.switch.next] == c
          && if s.user[k.switch.next] then k.owner == Some(k.switch.next) && k.windows == {} else k.owner.None?)
  }

  /** A window over a block its thread no longer holds is on somebody's list. */
  ghost predicate StaleOk(s: State, d: Cpu)
    requires Typed(s) && d < |s.core|
  {
    forall b :: Shows(s, d, b) && b !in s.holds[s.core[d].current] ==> Pending(s, d)
  }

  /** Handed to a retired list, a settle or the heap. */
  ghost predicate Given(s: State, b: Block) {
    || b in s.freed
    || (exists c :: 0 <= c < |s.core| && b in s.core[c].retired)
    || (exists c, i :: 0 <= c < |s.core| && 0 <= i < |s.core[c].frames| && b in s.core[c].frames[i].blocks)
  }

  ghost predicate BlockOk(s: State, b: Block) {
    (Held(s.holds, b) ==> b < s.next && !Given(s, b)) && (Given(s, b) ==> b < s.next)
  }

  ghost predicate RangeOk(s: State, c: Cpu)
    requires c < |s.core|
  {
    && (forall d :: d in s.core[c].mask ==> d < |s.core|)
    && (forall i, d :: 0 <= i < |s.core[c].frames| && d in s.core[c].frames[i].mask ==> d < |s.core|)
  }

  ghost predicate Inv(s: State) {
    && Typed(s)
    && (forall c :: 0 <= c < |s.core| ==> CoreOk(s, c))
    && (forall c :: 0 <= c < |s.core| ==> RangeOk(s, c))
    && (forall d :: 0 <= d < |s.core| ==> StaleOk(s, d))
    && (forall b :: BlockOk(s, b))
  }

  lemma NextTyped(s: State, t: Step)
    requires Inv(s) && Enabled(s, t)
    ensures Typed(Next(s, t))
  {
    assert CoreOk(s, t.cpu);
  }

  /** A step touches another CPU only by flushing its windows. */
  lemma OtherCore(s: State, t: Step, c: Cpu)
    requires Enabled(s, t) && c < |s.core| && c != t.cpu
    ensures |Next(s, t).core| == |s.core| && Next(s, t).home == s.home && Next(s, t).user == s.user
    ensures Next(s, t).core[c] == s.core[c] || Next(s, t).core[c] == s.core[c].(windows := {})
  {
    hide Retires, MaskFor, HoldsAfter, LosesCurrent, LayoutFor, Typed;
  }

  lemma LayoutIs(s: State, k: Core, t: Thread)
    requires t < |s.user|
    ensures LayoutFor(s, k, t).owner == if s.user[t] then Some(t) else None
    ensures LayoutFor(s, k, t).current == k.current && LayoutFor(s, k, t).switch == k.switch
    ensures s.user[t] && k.owner != Some(t) ==> LayoutFor(s, k, t).windows == {}
  {
  }

  lemma OwnCore(s: State, t: Step)
    requires Typed(s) && Enabled(s, t) && CoreOk(s, t.cpu)
    ensures Typed(Next(s, t)) && CoreOk(Next(s, t), t.cpu)
  {
    hide Retires, MaskFor, LosesCurrent, HoldsAfter, LayoutFor, TopFrame, Held;
    var k := s.core[t.cpu];
    if t.SwitchLayout? { LayoutIs(s, k, t.to); }
    if t.SwitchLayoutLast? { LayoutIs(s, k, k.current); }
  }

  lemma NextCore(s: State, t: Step, c: Cpu)
    requires Inv(s) && Enabled(s, t) && c < |s.core|
    ensures Typed(Next(s, t)) && CoreOk(Next(s, t), c)
  {
    hide Next, Typed, StaleOk, BlockOk, RangeOk;
    assert CoreOk(s, c) && CoreOk(s, t.cpu);
    OwnCore(s, t);
    if c != t.cpu { OtherCore(s, t, c); }
  }

  /**
   When a CPU loses a window: a fault evicts it, a user thread other than the owner is
   switched to, the current thread loses an area here, or a flush of this CPU runs.
   */
  predicate MayLose(s: State, t: Step, d: Cpu, b: Block)
    requires Typed(s) && d < |s.core| && t.cpu < |s.core|
  {
    match t
    case Fault(c, _, kept) => c == d && b !in kept
    case SwitchLayout(c, to) => c == d && to < |s.user| && s.user[to] && s.core[d].owner != Some(to)
    case SwitchLayoutLast(c) =>
      var cur := s.core[d].current;
      c == d && cur < |s.user| && s.user[cur] && s.core[d].owner != Some(cur)
    case Drop(c, lost) => c == d && LosesCurrent(s, c, lost)
    case RunFlush(c, i) => i < |s.core[c].frames| && s.core[c].frames[i].waiting == Some(d)
    case _ => false
  }

  /** Windows go exactly then; the only one that comes is the one faulted in. */
  lemma WindowsMove(s: State, t: Step, d: Cpu, b: Block)
    requires Inv(s) && Enabled(s, t) && d < |s.core|
    ensures |Next(s, t).core| == |s.core|
    ensures b in Next(s, t).core[d].windows <==>
            || (exists kept :: t == Fault(d, b, kept))
            || (b in s.core[d].windows && !MayLose(s, t, d, b))
    ensures (exists kept :: t == Fault(d, b, kept)) ==> Shows(Next(s, t), d, b)
  {
    hide Retires, HoldsAfter, MaskFor, Held, BlockOk, StaleOk, RangeOk;
    assert CoreOk(s, d);
  }

  /** A user thread that runs and holds a block can always come to reach it. */
  lemma CanTouch(s: State, c: Cpu, b: Block) returns (t: Step)
    requires Inv(s) && c < |s.core| && s.core[c].switch.Stable? && s.user[s.core[c].current]
    requires b in s.holds[s.core[c].current]
    ensures Enabled(s, t) && Shows(Next(s, t), c, b) && Next(s, t).holds == s.holds
  {
    assert CoreOk(s, c);
    t := Fault(c, b, s.core[c].windows);
  }

  /** A CPU can switch to any of its threads, with the layout written first or last. */
  lemma CanSwitch(s: State, c: Cpu, to: Thread, layoutFirst: bool) returns (steps: seq<Step>, s': State)
    requires Inv(s) && c < |s.core| && s.core[c].switch.Stable? && to < |s.home| && s.home[to] == c
    requires to != s.core[c].current
    ensures |steps| == 2 && Enabled(s, steps[0]) && Enabled(Next(s, steps[0]), steps[1])
    ensures s' == Next(Next(s, steps[0]), steps[1]) && |s'.core| == |s.core|
    ensures s'.core[c].current == to && s'.core[c].switch.Stable? && (s.user[to] ==> s'.core[c].windows == {})
    ensures (layoutFirst <==> Next(s, steps[0]).core[c].current == s.core[c].current) && s'.holds == s.holds
  {
    hide Retires, HoldsAfter, MaskFor, Held, BlockOk, StaleOk, RangeOk;
    assert CoreOk(s, c);
    steps := if layoutFirst then [SwitchLayout(c, to), SwitchCurrentLast(c)]
             else [SwitchCurrent(c, to), SwitchLayoutLast(c)];
    s' := Next(Next(s, steps[0]), steps[1]);
  }

  /**
   What is on a CPU's lists: a CPU that another drop of it marked, because a thread that runs
   there lost an area, and a block such a drop retired; until a settle takes both lists over.
   */
  lemma ListsMove(s: State, t: Step, c: Cpu, d: Cpu, b: Block)
    requires Inv(s) && Enabled(s, t) && c < |s.core| && d < |s.core|
    ensures |Next(s, t).core| == |s.core|
    ensures d in Next(s, t).core[c].mask <==>
            || (d in s.core[c].mask && t != BeginSettle(c))
            || (t.Drop? && t.cpu == c && d != c && exists p :: p in t.lost && p.0 == s.core[d].current)
    ensures b in Next(s, t).core[c].retired <==>
            || (b in s.core[c].retired && t != BeginSettle(c))
            || (t.Drop? && t.cpu == c && (exists th :: (th, b) in t.lost) && !Held(Next(s, t).holds, b))
    ensures t == BeginSettle(c) ==>
              Next(s, t).core[c].frames == s.core[c].frames + [Frame(s.core[c].retired, s.core[c].mask, None, false)]
    ensures t == Free(c) ==>
              var n := |s.core[c].frames| - 1;
              && n >= 0 && Next(s, t).core[c].frames == s.core[c].frames[..n]
              && Next(s, t).freed == s.freed + s.core[c].frames[n].blocks
  {
    hide LosesCurrent, BlockOk, StaleOk, RangeOk, Held, HoldsAfter, MaskFor;
    assert CoreOk(s, c) && CoreOk(s, d);
    if t.Drop? && t.cpu == c { DropMarksIff(s, c, t.lost, d); }
  }

  /** The CPUs a drop marks are the other ones that run a thread which lost an area. */
  lemma DropMarksIff(s: State, c: Cpu, lost: set<(Thread, Block)>, d: Cpu)
    requires Inv(s) && Enabled(s, Drop(c, lost)) && d < |s.core|
    ensures d in MaskFor(s, c, lost) <==> d != c && exists p :: p in lost && p.0 == s.core[d].current
  {
    hide BlockOk, StaleOk, RangeOk;
    assert CoreOk(s, c) && CoreOk(s, d);
  }

  /** A CPU's list grows until a settle detaches it. */
  lemma NextMask(s: State, t: Step, c: Cpu, d: Cpu)
    requires Enabled(s, t) && c < |s.core| && d in s.core[c].mask
    ensures |Next(s, t).core| == |s.core|
    ensures if t != BeginSettle(c) then d in Next(s, t).core[c].mask
            else var fs := Next(s, t).core[c].frames; fs != [] && Owes(fs[|fs| - 1], d)
  {
    hide Retires, HoldsAfter, LosesCurrent, MaskFor, Held, Typed;
  }

  /** What a settle owes it goes on owing until the flush runs. */
  lemma NextOwes(s: State, t: Step, c: Cpu, i: nat, d: Cpu)
    requires Enabled(s, t) && c < |s.core| && i < |s.core[c].frames| && Owes(s.core[c].frames[i], d)
    requires t.RunFlush? ==> s.core[t.cpu].frames[t.level].waiting != Some(d)
    ensures |Next(s, t).core| == |s.core| && i < |Next(s, t).core[c].frames| && Owes(Next(s, t).core[c].frames[i], d)
  {
    hide Retires, HoldsAfter, LosesCurrent, MaskFor, Held, Typed;
  }

  /** A pending shootdown stays pending until its flush runs. */
  lemma NextPending(s: State, t: Step, d: Cpu)
    requires Enabled(s, t) && Pending(s, d)
    requires t.RunFlush? ==> s.core[t.cpu].frames[t.level].waiting != Some(d)
    ensures Pending(Next(s, t), d)
  {
    hide Next, Enabled, Owes;
    if c :| 0 <= c < |s.core| && d in s.core[c].mask {
      NextMask(s, t, c, d);
    } else {
      var c, i :| 0 <= c < |s.core| && 0 <= i < |s.core[c].frames| && Owes(s.core[c].frames[i], d);
      NextOwes(s, t, c, i, d);
    }
  }

  /** Only a drop takes a block away from the thread a CPU runs; it then flushes or marks that CPU. */
  lemma DropStale(s: State, c: Cpu, lost: set<(Thread, Block)>, d: Cpu, b: Block)
    requires Inv(s) && Enabled(s, Drop(c, lost)) && d < |s.core|
    requires Shows(Next(s, Drop(c, lost)), d, b) && b !in HoldsAfter(s, lost)[s.core[d].current]
    ensures Pending(Next(s, Drop(c, lost)), d)
  {
    var s' := Next(s, Drop(c, lost));
    var th := s.core[d].current;
    assert CoreOk(s, d) && StaleOk(s, d);
    if b in s.holds[th] {
      assert (th, b) in lost;
      assert d != c;
      assert th != s.core[c].current by { assert CoreOk(s, c); }
      assert d in s'.core[c].mask;
    } else {
      assert Shows(s, d, b);
      NextPending(s, Drop(c, lost), d);
    }
  }

  lemma NextStale(s: State, t: Step, d: Cpu)
    requires Inv(s) && Enabled(s, t) && d < |s.core|
    ensures Typed(Next(s, t)) && StaleOk(Next(s, t), d)
  {
    NextTyped(s, t);
    var s' := Next(s, t);
    assert CoreOk(s, d) && StaleOk(s, d);
    forall b | Shows(s', d, b) && b !in s'.holds[s'.core[d].current]
      ensures Pending(s', d)
    {
      if t.Drop? {
        DropStale(s, t.cpu, t.lost, d, b);
      } else {
        assert Shows(s, d, b) && b !in s.holds[s.core[d].current];
        NextPending(s, t, d);
      }
    }
  }

  lemma NextGiven(s: State, t: Step, b: Block)
    requires Enabled(s, t) && Given(Next(s, t), b)
    ensures Given(s, b) || (t.Drop? && b in Retires(s, t.lost))
  {
    hide Retires, MaskFor, HoldsAfter, LosesCurrent, Typed;
  }

  /** A retired block stays on its list until a settle detaches it. */
  lemma NextRetired(s: State, t: Step, c: Cpu, b: Block)
    requires Enabled(s, t) && c < |s.core|
    requires b in s.core[c].retired || (t.Drop? && t.cpu == c && b in Retires(s, t.lost))
    ensures |Next(s, t).core| == |s.core|
    ensures if t != BeginSettle(c) then b in Next(s, t).core[c].retired
            else var fs := Next(s, t).core[c].frames; fs != [] && b in fs[|fs| - 1].blocks
  {
    hide Retires, HoldsAfter, LosesCurrent, MaskFor, Held, Typed;
  }

  /** A detached one stays with its settle until that frees it. */
  lemma NextDetached(s: State, t: Step, c: Cpu, i: nat, b: Block)
    requires Enabled(s, t) && c < |s.core| && i < |s.core[c].frames| && b in s.core[c].frames[i].blocks
    ensures |Next(s, t).core| == |s.core|
    ensures || b in Next(s, t).freed
            || (i < |Next(s, t).core[c].frames| && b in Next(s, t).core[c].frames[i].blocks)
  {
    hide Retires, HoldsAfter, LosesCurrent, MaskFor, Held, Typed;
  }

  lemma NextFreed(s: State, t: Step)
    requires Enabled(s, t)
    ensures s.freed <= Next(s, t).freed
  {
    hide Retires, HoldsAfter, LosesCurrent, MaskFor, Held, Typed;
  }

  /** What was handed over stays so. */
  lemma StillGiven(s: State, t: Step, b: Block)
    requires Enabled(s, t) && (Given(s, b) || (t.Drop? && b in Retires(s, t.lost)))
    ensures Given(Next(s, t), b)
  {
    hide Next, Retires;
    NextFreed(s, t);
    if t.Drop? && b in Retires(s, t.lost) {
      NextRetired(s, t, t.cpu, b);
    } else if c :| 0 <= c < |s.core| && b in s.core[c].retired {
      NextRetired(s, t, c, b);
    } else if c, i :| 0 <= c < |s.core| && 0 <= i < |s.core[c].frames| && b in s.core[c].frames[i].blocks {
      NextDetached(s, t, c, i, b);
    }
  }

  lemma NextBlock(s: State, t: Step, b: Block)
    requires Enabled(s, t) && BlockOk(s, b)
    ensures BlockOk(Next(s, t), b)
  {
    if Given(Next(s, t), b) { NextGiven(s, t, b); }
    if Held(Next(s, t).holds, b) {
      assert Held(s.holds, b) || (t.Map? && b == t.block);
    }
  }

  lemma NextRange(s: State, t: Step, c: Cpu)
    requires Enabled(s, t) && c < |s.core| && RangeOk(s, c) && RangeOk(s, t.cpu)
    ensures RangeOk(Next(s, t), c)
  {
    hide Retires, Held, HoldsAfter, LosesCurrent;
  }

  lemma NextKeepsInv(s: State, t: Step)
    requires Inv(s) && Enabled(s, t)
    ensures Inv(Next(s, t))
  {
    var s' := Next(s, t);
    NextTyped(s, t);
    forall c | 0 <= c < |s'.core| ensures CoreOk(s', c) && RangeOk(s', c) && StaleOk(s', c) {
      NextCore(s, t, c);
      NextRange(s, t, c);
      NextStale(s, t, c);
    }
    forall b ensures BlockOk(s', b) { NextBlock(s, t, b); }
  }

  lemma {:induction false} RunKeepsInv(s: State, steps: seq<Step>, s': State)
    requires Inv(s) && Run(s, steps, s')
    ensures Inv(s')
    decreases |steps|
  {
    if steps != [] {
      NextKeepsInv(s, steps[0]);
      RunKeepsInv(Next(s, steps[0]), steps[1..], s');
    }
  }

  // -------------------------------------------------------------- results

  ghost predicate ListCovers(s: State, b: Block, c: Cpu, d: Cpu) {
    c < |s.core| && b in s.core[c].retired && Shows(s, d, b) ==> d in s.core[c].mask
  }

  ghost predicate FrameCovers(s: State, b: Block, c: Cpu, i: nat, d: Cpu) {
    c < |s.core| && i < |s.core[c].frames| && b in s.core[c].frames[i].blocks && Shows(s, d, b)
    ==> Owes(s.core[c].frames[i], d)
  }

  /** Wherever the dead block waits, its list also names every CPU that still shows it. */
  ghost predicate Covered(s: State, b: Block) {
    && (forall c: nat, d: nat :: ListCovers(s, b, c, d))
    && (forall c: nat, i: nat, d: nat :: FrameCovers(s, b, c, i, d))
    && SafelyFreed(s, b)
  }

  /** Nobody running a user thread reaches a block that is back in the heap. */
  ghost predicate SafelyFreed(s: State, b: Block) {
    b in s.freed ==> forall d :: !Shows(s, d, b)
  }

  /** A dead block gains no new window: a fault needs a holder, and a switch starts empty. */
  lemma NoNewWindow(s: State, t: Step, b: Block, d: Cpu)
    requires Inv(s) && Enabled(s, t) && !Held(s.holds, b) && Shows(Next(s, t), d, b)
    ensures Shows(s, d, b)
    ensures t.RunFlush? ==> s.core[t.cpu].frames[t.level].waiting != Some(d)
  {
    assert CoreOk(s, d);
  }

  lemma NextListCovers(s: State, t: Step, b: Block, c: Cpu, d: Cpu)
    requires Enabled(s, t) && !Held(s.holds, b) && ListCovers(s, b, c, d)
    requires Shows(s, d, b)
    ensures ListCovers(Next(s, t), b, c, d)
  {
  }

  lemma NextFrameCovers(s: State, t: Step, b: Block, c: Cpu, i: nat, d: Cpu)
    requires Enabled(s, t) && FrameCovers(s, b, c, i, d) && ListCovers(s, b, c, d)
    requires Shows(s, d, b)
    requires t.RunFlush? ==> s.core[t.cpu].frames[t.level].waiting != Some(d)
    ensures FrameCovers(Next(s, t), b, c, i, d)
  {
    hide Retires, HoldsAfter, LosesCurrent, MaskFor, Held, Typed;
  }

  lemma NextCovered(s: State, t: Step, b: Block)
    requires Inv(s) && Enabled(s, t) && !Held(s.holds, b) && Covered(s, b) && b < s.next
    ensures Covered(Next(s, t), b) && !Held(Next(s, t).holds, b)
  {
    var s' := Next(s, t);
    forall c: nat, d: nat ensures ListCovers(s', b, c, d) {
      if Shows(s', d, b) { NoNewWindow(s, t, b, d); NextListCovers(s, t, b, c, d); }
    }
    forall c: nat, i: nat, d: nat ensures FrameCovers(s', b, c, i, d) {
      if Shows(s', d, b) { NoNewWindow(s, t, b, d); NextFrameCovers(s, t, b, c, i, d); }
    }
    forall d | Shows(s', d, b) ensures b !in s'.freed {
      NoNewWindow(s, t, b, d);
      if t.Free? { assert FrameCovers(s, b, t.cpu, |s.core[t.cpu].frames| - 1, d); }
    }
  }

  lemma {:induction false} RunCovered(s: State, steps: seq<Step>, s': State, b: Block)
    requires Inv(s) && !Held(s.holds, b) && Covered(s, b) && b < s.next && Run(s, steps, s')
    ensures SafelyFreed(s', b)
    decreases |steps|
  {
    if steps != [] {
      NextKeepsInv(s, steps[0]);
      NextCovered(s, steps[0], b);
      RunCovered(Next(s, steps[0]), steps[1..], s', b);
    }
  }

  // ------------------------------------------------- the exact condition

  /** When CPU c retired b, every CPU showing b was on c's own shootdown list. */
  predicate Clean(s: State, c: Cpu, b: Block)
    requires c < |s.core|
  {
    forall d :: 0 <= d < |s.core| && Shows(s, d, b) ==> d in s.core[c].mask
  }

  /**
   The same test made before the drop: every CPU that shows b is on c's list already,
   or runs a thread that loses an area in this drop.
   */
  predicate CleanDrop(s: State, c: Cpu, lost: set<(Thread, Block)>, b: Block)
    requires Typed(s) && c < |s.core|
  {
    forall d :: 0 <= d < |s.core| && Shows(s, d, b)
      ==> d in s.core[c].mask || exists p :: p in lost && p.0 == s.core[d].current
  }

  lemma CleanBeforehand(s: State, c: Cpu, lost: set<(Thread, Block)>, b: Block)
    requires Inv(s) && Enabled(s, Drop(c, lost))
    ensures CleanDrop(s, c, lost, b) <==> Clean(Next(s, Drop(c, lost)), c, b)
  {
    hide Retires, Held, HoldsAfter, StaleOk, BlockOk, RangeOk;
    var s' := Next(s, Drop(c, lost));
    assert CoreOk(s, c);
    forall d | 0 <= d < |s.core| && Shows(s, d, b)
      ensures (d in s.core[c].mask || exists p :: p in lost && p.0 == s.core[d].current)
              <==> (Shows(s', d, b) ==> d in s'.core[c].mask)
    {
      assert CoreOk(s, d);
    }
  }

  /** Whatever happens next, b reaches the heap with no user thread able to reach it. */
  ghost predicate AlwaysSafe(s: State, b: Block) {
    forall steps, s' :: Run(s, steps, s') ==> SafelyFreed(s', b)
  }

  lemma CleanIsCovered(s: State, c: Cpu, lost: set<(Thread, Block)>, b: Block)
    requires Inv(s) && Enabled(s, Drop(c, lost)) && b in Retires(s, lost)
    requires Clean(Next(s, Drop(c, lost)), c, b)
    ensures b < s.next && !Held(Next(s, Drop(c, lost)).holds, b) && Covered(Next(s, Drop(c, lost)), b)
  {
    hide MaskFor, LosesCurrent, StaleOk, RangeOk, CoreOk, HoldsAfter;
    var th :| (th, b) in lost;
    assert Held(s.holds, b) && BlockOk(s, b) && !Given(s, b);
  }

  lemma CleanIsSafe(s: State, c: Cpu, lost: set<(Thread, Block)>, b: Block)
    requires Inv(s) && Enabled(s, Drop(c, lost)) && b in Retires(s, lost)
    requires Clean(Next(s, Drop(c, lost)), c, b)
    ensures AlwaysSafe(Next(s, Drop(c, lost)), b)
  {
    hide Clean, Retires, Covered;
    var s' := Next(s, Drop(c, lost));
    NextKeepsInv(s, Drop(c, lost));
    CleanIsCovered(s, c, lost, b);
    forall steps, s'' | Run(s', steps, s'') ensures SafelyFreed(s'', b) { RunCovered(s', steps, s'', b); }
  }

  /** One remote flush of c's innermost settle, from asking to returning. */
  lemma FlushOne(s: State, c: Cpu, e: Cpu, d: Cpu, b: Block) returns (steps: seq<Step>, s': State)
    requires Inv(s) && HasFrame(s, c) && TopFrame(s, c).waiting.None? && e in TopFrame(s, c).mask
    requires Shows(s, d, b) && d != e
    ensures |steps| == 3 && Enabled(s, steps[0]) && Enabled(Next(s, steps[0]), steps[1])
    ensures Enabled(Next(Next(s, steps[0]), steps[1]), steps[2])
    ensures s' == Next(Next(Next(s, steps[0]), steps[1]), steps[2])
    ensures Inv(s') && HasFrame(s', c) && Shows(s', d, b)
    ensures TopFrame(s', c) == TopFrame(s, c).(mask := TopFrame(s, c).mask - {e}, flushed := false)
  {
    hide CoreOk, StaleOk, BlockOk, Retires, HoldsAfter, MaskFor, LosesCurrent, LayoutFor;
    assert RangeOk(s, c);
    var n := |s.core[c].frames| - 1;
    var s1 := Next(s, AskFlush(c, e));
    NextKeepsInv(s, AskFlush(c, e));
    var s2 := Next(s1, RunFlush(c, n));
    NextKeepsInv(s1, RunFlush(c, n));
    NextKeepsInv(s2, EndFlush(c));
    return [AskFlush(c, e), RunFlush(c, n), EndFlush(c)], Next(s2, EndFlush(c));
  }

  lemma RunPrepend3(s: State, a: seq<Step>, steps: seq<Step>, s': State)
    requires |a| == 3 && Enabled(s, a[0]) && Enabled(Next(s, a[0]), a[1])
    requires Enabled(Next(Next(s, a[0]), a[1]), a[2])
    requires Run(Next(Next(Next(s, a[0]), a[1]), a[2]), steps, s')
    ensures Run(s, a + steps, s')
  {
    hide Next, Enabled, Run;
    RunPrepend(Next(Next(s, a[0]), a[1]), a[2], steps, s');
    RunPrepend(Next(s, a[0]), a[1], [a[2]] + steps, s');
    RunPrepend(s, a[0], [a[1]] + ([a[2]] + steps), s');
    assert a + steps == [a[0]] + ([a[1]] + ([a[2]] + steps));
  }

  lemma RunPrepend(s: State, t: Step, steps: seq<Step>, s': State)
    requires Enabled(s, t) && Run(Next(s, t), steps, s')
    ensures Run(s, [t] + steps, s')
  {
    hide Next, Enabled;
    assert ([t] + steps)[1..] == steps;
  }

  /** The settle of c, run to its end with nothing else happening. */
  lemma {:induction false} SettleRun(s: State, c: Cpu, b: Block, d: Cpu) returns (steps: seq<Step>, s': State)
    requires Inv(s) && HasFrame(s, c) && TopFrame(s, c).waiting.None?
    requires b in TopFrame(s, c).blocks && Shows(s, d, b) && d !in TopFrame(s, c).mask
    ensures Run(s, steps, s') && b in s'.freed && Shows(s', d, b)
    decreases TopFrame(s, c).mask
  {
    var f := TopFrame(s, c);
    if f.mask == {} {
      s' := Next(s, Free(c));
      return [Free(c)], s';
    }
    var e :| e in f.mask;
    var flush, s1 := FlushOne(s, c, e, d, b);
    steps, s' := SettleRun(s1, c, b, d);
    RunPrepend3(s, flush, steps, s');
    steps := flush + steps;
  }

  lemma UncleanIsUnsafe(s: State, c: Cpu, b: Block)
    requires Inv(s) && c < |s.core| && b in s.core[c].retired && !Clean(s, c, b)
    ensures !AlwaysSafe(s, b)
  {
    var d :| 0 <= d < |s.core| && Shows(s, d, b) && d !in s.core[c].mask;
    var s1 := Next(s, BeginSettle(c));
    NextKeepsInv(s, BeginSettle(c));
    var steps, s' := SettleRun(s1, c, b, d);
    assert Run(s, [BeginSettle(c)] + steps, s');
    assert !SafelyFreed(s', b);
  }

  /**
   Freeing is safe in every continuation exactly when, at the drop that retires
   the block, every CPU that shows it is marked already or loses an area now.
   */
  lemma SafeIffClean(current: seq<Thread>, home: seq<Cpu>, user: seq<bool>, steps: seq<Step>, s: State,
                     c: Cpu, lost: set<(Thread, Block)>, b: Block)
    requires |home| == |user| && (forall e :: 0 <= e < |current| ==> current[e] < |home| && home[current[e]] == e)
    requires forall t :: 0 <= t < |home| ==> home[t] < |current|
    requires Run(Init(current, home, user), steps, s)
    requires Enabled(s, Drop(c, lost)) && b in Retires(s, lost)
    ensures AlwaysSafe(Next(s, Drop(c, lost)), b) <==> CleanDrop(s, c, lost, b)
  {
    InitInv(current, home, user);
    RunKeepsInv(Init(current, home, user), steps, s);
    var s' := Next(s, Drop(c, lost));
    NextKeepsInv(s, Drop(c, lost));
    CleanBeforehand(s, c, lost, b);
    if Clean(s', c, b) { CleanIsSafe(s, c, lost, b); } else { UncleanIsUnsafe(s', c, b); }
  }

  // --------------------------------------------------- safety of whole runs

  /** Every drop of the run passes the test for each block it retires. */
  ghost predicate CleanRun(s: State, steps: seq<Step>, s': State)
    decreases |steps|
  {
    if steps == [] then s == s'
    else && Enabled(s, steps[0])
         && (steps[0].Drop? ==>
               forall b :: b in Retires(s, steps[0].lost) ==> CleanDrop(s, steps[0].cpu, steps[0].lost, b))
         && CleanRun(Next(s, steps[0]), steps[1..], s')
  }

  lemma CleanCovered(s: State, t: Step, b: Block)
    requires Inv(s) && Enabled(s, t) && (Given(s, b) ==> Covered(s, b)) && Given(Next(s, t), b)
    requires t.Drop? ==> forall b :: b in Retires(s, t.lost) ==> CleanDrop(s, t.cpu, t.lost, b)
    ensures Covered(Next(s, t), b)
  {
    hide Next, Enabled, Covered, CleanDrop, Retires, Clean, Typed, CoreOk, StaleOk, RangeOk, Given, AlwaysSafe;
    assert BlockOk(s, b);
    if Given(s, b) {
      NextCovered(s, t, b);
    } else {
      NextGiven(s, t, b);
      CleanBeforehand(s, t.cpu, t.lost, b);
      CleanIsCovered(s, t.cpu, t.lost, b);
    }
  }

  /**
   Over every interleaving of mapping, granting, faults, switches, drops and settles,
   with kills served inside a waiting settle and drops on several CPUs at once: if
   each drop passes the test, no user thread reaches a block the heap got back.
   */
  lemma {:induction false} CleanDropsAreSafe(s: State, steps: seq<Step>, s': State)
    requires Inv(s) && (forall b :: Given(s, b) ==> Covered(s, b)) && CleanRun(s, steps, s')
    ensures forall b, d :: b in s'.freed ==> !Shows(s', d, b)
    decreases |steps|
  {
    if steps == [] {
      forall b, d | b in s'.freed ensures !Shows(s', d, b) { assert Given(s, b) && Covered(s, b); }
    } else {
      var s1 := Next(s, steps[0]);
      NextKeepsInv(s, steps[0]);
      forall b | Given(s1, b) ensures Covered(s1, b) { CleanCovered(s, steps[0], b); }
      CleanDropsAreSafe(s1, steps[1..], s');
    }
  }

  lemma CleanRunsAreSafe(current: seq<Thread>, home: seq<Cpu>, user: seq<bool>, steps: seq<Step>, s: State)
    requires |home| == |user| && (forall e :: 0 <= e < |current| ==> current[e] < |home| && home[current[e]] == e)
    requires forall t :: 0 <= t < |home| ==> home[t] < |current|
    requires CleanRun(Init(current, home, user), steps, s)
    ensures forall b, d :: b in s.freed ==> !Shows(s, d, b)
  {
    InitInv(current, home, user);
    CleanDropsAreSafe(Init(current, home, user), steps, s);
  }

  // ------------------------------------------- when the condition holds

  /** Whoever shows b holds it: no window over b is left from an earlier drop. */
  predicate Fresh(s: State, b: Block)
    requires Typed(s)
  {
    forall d :: 0 <= d < |s.core| && Shows(s, d, b) ==> b in s.holds[s.core[d].current]
  }

  /** Other blocks may be anywhere in their own drops and settles. */
  lemma FreshIsClean(s: State, c: Cpu, lost: set<(Thread, Block)>, b: Block)
    requires Typed(s) && Enabled(s, Drop(c, lost)) && Fresh(s, b) && b in Retires(s, lost)
    ensures CleanDrop(s, c, lost, b)
  {
    var h := HoldsAfter(s, lost);
    forall d | 0 <= d < |s.core| && Shows(s, d, b)
      ensures exists p :: p in lost && p.0 == s.core[d].current
    {
      var t := s.core[d].current;
      assert b !in h[t];
      assert (t, b) in lost;
    }
  }

  /** No shootdown is pending anywhere but on c's own list: no other drop is unsettled. */
  ghost predicate Quiet(s: State, c: Cpu) {
    && (forall e :: 0 <= e < |s.core| && e != c ==> s.core[e].mask == {})
    && (forall e, i, d :: 0 <= e < |s.core| && 0 <= i < |s.core[e].frames| && d in s.core[e].frames[i].mask
          ==> !Owes(s.core[e].frames[i], d))
  }

  lemma QuietIsClean(s: State, c: Cpu, lost: set<(Thread, Block)>, b: Block)
    requires Inv(s) && Enabled(s, Drop(c, lost)) && Quiet(s, c) && b in Retires(s, lost)
    ensures CleanDrop(s, c, lost, b)
  {
    var s' := Next(s, Drop(c, lost));
    NextKeepsInv(s, Drop(c, lost));
    forall d | 0 <= d < |s'.core| && Shows(s', d, b) ensures d in s'.core[c].mask {
      assert StaleOk(s', d) && s'.holds == HoldsAfter(s, lost);
      assert Pending(s', d);
      assert forall e :: 0 <= e < |s.core| ==> s'.core[e].frames == s.core[e].frames;
    }
    CleanBeforehand(s, c, lost, b);
  }

  ghost predicate QuietRun(s: State, steps: seq<Step>, s': State)
    decreases |steps|
  {
    if steps == [] then s == s'
    else && Enabled(s, steps[0])
         && (steps[0].Drop? ==> Quiet(s, steps[0].cpu))
         && QuietRun(Next(s, steps[0]), steps[1..], s')
  }

  lemma EnabledOnCpu(s: State, t: Step)
    requires Enabled(s, t)
    ensures Typed(s) && t.cpu < |s.core|
  {
  }

  lemma {:induction false} QuietRunIsClean(s: State, steps: seq<Step>, s': State)
    requires Inv(s) && QuietRun(s, steps, s')
    ensures CleanRun(s, steps, s')
    decreases |steps|
  {
    hide Next, Enabled, CleanDrop, Quiet, Retires, Inv;
    if steps != [] {
      var t := steps[0];
      assert Typed(s) && t.cpu < |s.core| by { EnabledOnCpu(s, t); }
      if t.Drop? {
        forall b | b in Retires(s, t.lost) ensures CleanDrop(s, t.cpu, t.lost, b) {
          QuietIsClean(s, t.cpu, t.lost, b);
        }
      }
      NextKeepsInv(s, t);
      QuietRunIsClean(Next(s, t), steps[1..], s');
    }
  }

  lemma QuietDropsAreSafe(s: State, steps: seq<Step>, s': State)
    requires Inv(s) && (forall b :: Given(s, b) ==> Covered(s, b)) && QuietRun(s, steps, s')
    ensures forall b, d :: b in s'.freed ==> !Shows(s', d, b)
  {
    QuietRunIsClean(s, steps, s');
    CleanDropsAreSafe(s, steps, s');
  }

  /** From the start, with one shootdown at a time, freed memory is never reachable. */
  lemma QuietRunsAreSafe(current: seq<Thread>, home: seq<Cpu>, user: seq<bool>, steps: seq<Step>, s: State)
    requires |home| == |user| && (forall e :: 0 <= e < |current| ==> current[e] < |home| && home[current[e]] == e)
    requires forall t :: 0 <= t < |home| ==> home[t] < |current|
    requires QuietRun(Init(current, home, user), steps, s)
    ensures forall b, d :: b in s.freed ==> !Shows(s, d, b)
  {
    InitInv(current, home, user);
    QuietRunIsClean(Init(current, home, user), steps, s);
    CleanRunsAreSafe(current, home, user, steps, s);
  }

  function Idle(t: Thread, windows: set<Block>): Core {
    Core(t, Some(t), windows, Stable, {}, {}, [])
  }

  /** Three CPUs, each running its own user thread. */
  function Three(core2: Core, core1: Core, holds: seq<set<Block>>, next: Block): State {
    State([Idle(0, {}), core1, core2], [0, 1, 2], [true, true, true], holds, next, {})
  }

  const THREE := Init([0, 1, 2], [0, 1, 2], [true, true, true])
  const SHARED := Three(Idle(2, {0}), Idle(1, {}), [{0}, {0}, {0}], 1)
  const REVOKED := Three(Idle(2, {0}), Idle(1, {}).(mask := {2}), [{0}, {0}, {}], 1)
  const SETUP := [Map(0, 0), Grant(0, 0, 1), Grant(1, 0, 2), Fault(2, 0, {})]
  const UNMAP := Drop(0, {(0, 0), (1, 0)})

  function Granted(): State { Three(Idle(2, {}), Idle(1, {}), [{0}, {0}, {0}], 1) }

  lemma SetupGrants()
    ensures Run(THREE, [Map(0, 0), Grant(0, 0, 1), Grant(1, 0, 2)], Granted())
  {
    var c := Idle(2, {});
    assert THREE == Three(c, Idle(1, {}), [{}, {}, {}], 0);
    var s1 := Next(THREE, Map(0, 0));
    assert s1.holds[0] == {0};
    assert s1 == Three(c, Idle(1, {}), [{0}, {}, {}], 1);
    var s2 := Next(s1, Grant(0, 0, 1));
    assert s2.holds[1] == {0};
    assert s2 == Three(c, Idle(1, {}), [{0}, {0}, {}], 1);
    var s3 := Next(s2, Grant(1, 0, 2));
    assert s3.holds[2] == {0};
    assert s3 == Granted();
    var steps := [Map(0, 0), Grant(0, 0, 1), Grant(1, 0, 2)];
    assert steps[1..][1..][1..] == [];
  }

  lemma SetupFault()
    ensures Run(Granted(), [Fault(2, 0, {})], SHARED)
  {
    assert Next(Granted(), Fault(2, 0, {})).core[2].windows == {0};
    assert Next(Granted(), Fault(2, 0, {})) == SHARED;
  }

  lemma SetupRun()
    ensures Run(THREE, SETUP, SHARED)
  {
    hide Run, Init, Granted;
    SetupGrants();
    SetupFault();
    RunConcat(THREE, [Map(0, 0), Grant(0, 0, 1), Grant(1, 0, 2)], Granted(), [Fault(2, 0, {})], SHARED);
    assert SETUP == [Map(0, 0), Grant(0, 0, 1), Grant(1, 0, 2)] + [Fault(2, 0, {})];
  }

  lemma SetupInv()
    ensures Inv(SHARED)
  {
    SetupRun();
    InitInv([0, 1, 2], [0, 1, 2], [true, true, true]);
    RunKeepsInv(THREE, SETUP, SHARED);
  }

  lemma RevokeStep()
    ensures Enabled(SHARED, Drop(1, {(2, 0)})) && Next(SHARED, Drop(1, {(2, 0)})) == REVOKED
  {
    var lost: set<(Thread, Block)> := {(2, 0)};
    var s := Next(SHARED, Drop(1, {(2, 0)}));
    assert HoldsAfter(SHARED, lost)[0] == {0} && HoldsAfter(SHARED, lost)[1] == {0};
    assert HoldsAfter(SHARED, lost)[2] == {};
    assert s.holds == [{0}, {0}, {}];
    assert (2, 0) in lost && MaskFor(SHARED, 1, lost) == {2};
    assert s.core[1].mask == {2};
    assert Held(HoldsAfter(SHARED, lost), 0);
    assert Retires(SHARED, lost) == {};
    assert s.core[1] == REVOKED.core[1];
  }

  lemma UnmapStep() returns (s: State)
    ensures Enabled(REVOKED, UNMAP) && s == Next(REVOKED, UNMAP)
    ensures 0 in s.core[0].retired && 2 !in s.core[0].mask && Shows(s, 2, 0)
  {
    var lost := UNMAP.lost;
    s := Next(REVOKED, UNMAP);
    assert forall t :: 0 <= t < 3 ==> HoldsAfter(REVOKED, lost)[t] == {};
    assert (0, 0) in lost && !Held(HoldsAfter(REVOKED, lost), 0);
    assert 0 in Retires(REVOKED, lost);
  }

  /** Two drops and an undisturbed settle after the second. */
  lemma DropDropSettle(s: State, first: Step, second: Step, c: Cpu, b: Block, d: Cpu)
    returns (steps: seq<Step>, s': State)
    requires Inv(s) && Enabled(s, first) && Enabled(Next(s, first), second)
    requires c < |s.core| && c < |Next(Next(s, first), second).core|
    requires b in Next(Next(s, first), second).core[c].retired
    requires Shows(Next(Next(s, first), second), d, b) && d !in Next(Next(s, first), second).core[c].mask
    ensures Run(s, [first, second, BeginSettle(c)] + steps, s') && b in s'.freed && Shows(s', d, b)
  {
    NextKeepsInv(s, first);
    NextKeepsInv(Next(s, first), second);
    var s2 := Next(Next(s, first), second);
    NextKeepsInv(s2, BeginSettle(c));
    steps, s' := SettleRun(Next(s2, BeginSettle(c)), c, b, d);
    RunPrepend3(s, [first, second, BeginSettle(c)], steps, s');
  }

  /**
   Without that condition the block can go back while it is reachable.  Thread 0
   maps a block and grants it to thread 1, which grants it to thread 2, each on
   its own CPU; thread 2 touches it.  Thread 1 revokes thread 2's area and, before
   its flush of CPU 2 runs, thread 0 unmaps: that second drop finds nothing left to
   mark on CPU 2.
   */
  lemma OverlappingDropsAreUnsafe() returns (steps: seq<Step>, s: State)
    ensures Run(THREE, SETUP + ([Drop(1, {(2, 0)}), UNMAP, BeginSettle(0)] + steps), s)
    ensures 0 in s.freed && Shows(s, 2, 0)
  {
    SetupRun();
    SetupInv();
    RevokeStep();
    var s6 := UnmapStep();
    steps, s := DropDropSettle(SHARED, Drop(1, {(2, 0)}), UNMAP, 0, 0, 2);
    RunConcat(THREE, SETUP, SHARED, [Drop(1, {(2, 0)}), UNMAP, BeginSettle(0)] + steps, s);
  }

  lemma {:induction false} RunConcat(s: State, a: seq<Step>, s1: State, b: seq<Step>, s2: State)
    requires Run(s, a, s1) && Run(s1, b, s2)
    ensures Run(s, a + b, s2)
    decreases |a|
  {
    hide Next, Enabled;
    if a == [] {
      assert a + b == b;
    } else {
      assert (a + b)[1..] == a[1..] + b;
      RunConcat(Next(s, a[0]), a[1..], s1, b, s2);
    }
  }

  lemma InitInv(current: seq<Thread>, home: seq<Cpu>, user: seq<bool>)
    requires |home| == |user| && (forall e :: 0 <= e < |current| ==> current[e] < |home| && home[current[e]] == e)
    requires forall t :: 0 <= t < |home| ==> home[t] < |current|
    ensures Inv(Init(current, home, user))
  {
  }
}

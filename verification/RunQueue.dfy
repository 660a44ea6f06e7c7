/**
 The run queue of one CPU: the 256-level bitmap queue (kernel/sched/bitmap_rt.c)
 and the sorted list it stands for (kernel/sched/fifo_rt.c).  `on` is what the
 threads' list nodes say: the level a queued thread was put in.
 */
module RunQueue {
  import opened Bitmap32
  import opened Sequences

  type Tid = nat

  const LEVELS := 256
  const WORDS := 8

  // ------------------------------------------------------- reference policy

  /** sys_dlist_insert_at() with fifo_prio_cond(): before the first thread of a larger number. */
  function FifoInsert(q: seq<Tid>, on: map<Tid, nat>, t: Tid, p: nat): seq<Tid> {
    if q == [] then [t]
    else if q[0] in on && on[q[0]] > p then [t] + q
    else [q[0]] + FifoInsert(q[1..], on, t, p)
  }

  lemma {:induction false} InsertBetween(a: seq<Tid>, b: seq<Tid>, on: map<Tid, nat>, t: Tid, p: nat)
    requires forall x :: x in a ==> x in on && on[x] <= p
    requires forall x :: x in b ==> x in on && on[x] > p
    ensures FifoInsert(a + b, on, t, p) == a + [t] + b
  {
    if a == [] {
      assert a + b == b;
      if b != [] { assert b[0] in b; }
    } else {
      assert a[0] in a && (a + b)[1..] == a[1..] + b;
      InsertBetween(a[1..], b, on, t, p);
    }
  }

  /** Sorted by priority. */
  ghost predicate Sorted(q: seq<Tid>, on: map<Tid, nat>) {
    && (forall i :: 0 <= i < |q| ==> q[i] in on)
    && (forall i, j :: 0 <= i < j < |q| ==> on[q[i]] <= on[q[j]])
  }

  /** The reference policy, kernel/sched/fifo_rt.c. */
  class FifoRq {
    var q: seq<Tid>
    var on: map<Tid, nat>

    ghost predicate Valid()
      reads this
    {
      Distinct(q) && Sorted(q, on) && forall t :: t in q <==> t in on
    }

    constructor ()
      ensures Valid() && q == []
    {
      q, on := [], map[];
    }

    /** fifo_rt_enqueue() of a thread that is not queued. */
    method Enqueue(t: Tid, p: nat)
      requires Valid() && t !in on
      modifies this
      ensures Valid() && q == FifoInsert(old(q), old(on), t, p) && on == old(on)[t := p]
    {
      hide FifoInsert, Distinct;
      var i := 0;
      while i < |q| && on[q[i]] <= p
        invariant 0 <= i <= |q| && forall j :: 0 <= j < i ==> on[q[j]] <= p
      {
        i := i + 1;
      }
      SplitSorted(q, on, i, p);
      InsertBetween(q[..i], q[i..], on, t, p);
      assert q[..i] + q[i..] == q;
      InsertSorted(q, on, i, t, p);
      q := q[..i] + [t] + q[i..];
      on := on[t := p];
    }

    /** fifo_rt_dequeue() */
    method Dequeue(t: Tid)
      requires Valid()
      modifies this
      ensures Valid() && q == Without(old(q), t) && on == old(on) - {t}
    {
      WithoutIs(q, t);
      WithoutSorted(q, on, t);
      if t !in on {
        WithoutNone(q, t);
        assert on == on - {t};
        return;
      }
      q, on := Without(q, t), on - {t};
    }

    /** fifo_rt_peek_next() and fifo_rt_pick_next(), which does not dequeue. */
    method Peek() returns (r: Option<Tid>)
      requires Valid()
      ensures r == if q == [] then None else Some(q[0])
      ensures r.Some? ==> r.value in on && forall t :: t in on ==> on[r.value] <= on[t]
    {
      if q == [] { return None; }
      assert q[0] in q;
      forall t | t in on ensures on[q[0]] <= on[t] {
        assert t in q;
        var i :| 0 <= i < |q| && q[i] == t;
      }
      r := Some(q[0]);
    }
  }

  lemma SplitSorted(q: seq<Tid>, on: map<Tid, nat>, i: nat, p: nat)
    requires Sorted(q, on) && i <= |q| && (forall j :: 0 <= j < i ==> on[q[j]] <= p) && (i < |q| ==> on[q[i]] > p)
    ensures forall x :: x in q[..i] ==> x in on && on[x] <= p
    ensures forall x :: x in q[i..] ==> x in on && on[x] > p
    ensures forall j :: i <= j < |q| ==> on[q[j]] > p
  {
  }

  lemma InsertSorted(q: seq<Tid>, on: map<Tid, nat>, i: nat, t: Tid, p: nat)
    requires Distinct(q) && Sorted(q, on) && (forall x :: x in q <==> x in on) && t !in on && i <= |q|
    requires (forall j :: 0 <= j < i ==> on[q[j]] <= p) && forall j :: i <= j < |q| ==> on[q[j]] > p
    ensures var r := q[..i] + [t] + q[i..];
            Distinct(r) && Sorted(r, on[t := p]) && forall x :: x in r <==> x in on[t := p]
  {
    hide Distinct, Sorted;
    InsertMembers(q, i, t);
    InsertOrdered(q, on, i, t, p);
  }

  lemma InsertMembers(q: seq<Tid>, i: nat, t: Tid)
    requires i <= |q|
    ensures forall x :: x in q[..i] + [t] + q[i..] <==> x in q || x == t
  {
    assert q == q[..i] + q[i..];
  }

  lemma InsertOrdered(q: seq<Tid>, on: map<Tid, nat>, i: nat, t: Tid, p: nat)
    requires Distinct(q) && Sorted(q, on) && t !in on && i <= |q|
    requires (forall j :: 0 <= j < i ==> on[q[j]] <= p) && forall j :: i <= j < |q| ==> on[q[j]] > p
    ensures var r := q[..i] + [t] + q[i..]; Distinct(r) && Sorted(r, on[t := p])
  {
    var r, on' := q[..i] + [t] + q[i..], on[t := p];
    forall j | 0 <= j < |r| ensures r[j] == (if j == i then t else q[if j < i then j else j - 1]) && r[j] in on' {}
    forall j, k | 0 <= j < k < |r| ensures r[j] != r[k] && on'[r[j]] <= on'[r[k]] {
      InsertPair(q, on, i, t, p, j, k);
    }
  }

  lemma InsertPair(q: seq<Tid>, on: map<Tid, nat>, i: nat, t: Tid, p: nat, j: nat, k: nat)
    requires Distinct(q) && Sorted(q, on) && t !in on && i <= |q| && j < k <= |q|
    requires (forall j :: 0 <= j < i ==> on[q[j]] <= p) && forall j :: i <= j < |q| ==> on[q[j]] > p
    ensures var a := if j == i then t else q[if j < i then j else j - 1];
            var b := if k == i then t else q[if k < i then k else k - 1];
            a != b && a in on[t := p] && b in on[t := p] && on[t := p][a] <= on[t := p][b]
  {
  }

  lemma {:induction false} WithoutSorted(q: seq<Tid>, on: map<Tid, nat>, x: Tid)
    requires Distinct(q) && Sorted(q, on)
    ensures Sorted(Without(q, x), on - {x})
  {
    if q != [] {
      WithoutSorted(q[1..], on, x);
      WithoutIs(q[1..], x);
      var w := Without(q[1..], x);
      if q[0] != x {
        forall j | 0 <= j < |w| ensures on[q[0]] <= on[w[j]] {
          assert w[j] in q[1..];
          var k :| 0 <= k < |q[1..]| && q[1..][k] == w[j];
          assert q[k + 1] == w[j];
        }
      } else {
        forall j | 0 <= j < |q[1..]| ensures q[1..][j] in on - {x} { assert q[1..][j] == q[j + 1]; }
      }
    }
  }

  // ----------------------------------------------------------- bitmap queue

  /** The levels below n, one after the other. */
  ghost function Flat(level: seq<seq<Tid>>, n: nat): seq<Tid>
    requires n <= |level|
  {
    if n == 0 then [] else Flat(level, n - 1) + level[n - 1]
  }

  /** The levels from n on. */
  ghost function Rest(level: seq<seq<Tid>>, n: nat): seq<Tid>
    requires n <= |level|
    decreases |level| - n
  {
    if n == |level| then [] else level[n] + Rest(level, n + 1)
  }

  lemma {:induction false} FlatSplit(level: seq<seq<Tid>>, n: nat)
    requires n <= |level|
    ensures Flat(level, |level|) == Flat(level, n) + Rest(level, n)
    decreases |level| - n
  {
    if n < |level| {
      FlatSplit(level, n + 1);
      assert Flat(level, n) + Rest(level, n) == Flat(level, n) + level[n] + Rest(level, n + 1);
    }
  }

  lemma {:induction false} FlatSame(level: seq<seq<Tid>>, level': seq<seq<Tid>>, n: nat)
    requires n <= |level| == |level'| && forall i :: 0 <= i < n ==> level'[i] == level[i]
    ensures Flat(level', n) == Flat(level, n)
  {
    if n > 0 { FlatSame(level, level', n - 1); }
  }

  lemma {:induction false} RestSame(level: seq<seq<Tid>>, level': seq<seq<Tid>>, n: nat)
    requires n <= |level| == |level'| && forall i :: n <= i < |level| ==> level'[i] == level[i]
    ensures Rest(level', n) == Rest(level, n)
    decreases |level| - n
  {
    if n < |level| { RestSame(level, level', n + 1); }
  }

  /** One level changed: what comes before and after it did not. */
  lemma FlatAt(level: seq<seq<Tid>>, p: nat, l: seq<Tid>)
    requires p < |level|
    ensures Flat(level, |level|) == Flat(level, p) + level[p] + Rest(level, p + 1)
    ensures Flat(level[p := l], |level|) == Flat(level, p) + l + Rest(level, p + 1)
  {
    FlatSplit(level, p + 1);
    FlatSplit(level[p := l], p + 1);
    FlatSame(level, level[p := l], p);
    RestSame(level, level[p := l], p + 1);
  }

  /** Level p holds exactly the threads queued at p, and its bit says whether there are any. */
  ghost predicate LevelOk(bitmap: seq<Word>, level: seq<seq<Tid>>, on: map<Tid, nat>, p: nat)
    requires |bitmap| == WORDS && |level| == LEVELS && p < LEVELS
  {
    && Distinct(level[p]) && (forall t :: t in level[p] <==> t in on && on[t] == p)
    && (IsSet(bitmap[p / 32], p % 32) <==> level[p] != [])
  }

  ghost predicate Queues(bitmap: seq<Word>, level: seq<seq<Tid>>, on: map<Tid, nat>) {
    && |bitmap| == WORDS && |level| == LEVELS
    && (forall p :: 0 <= p < LEVELS ==> LevelOk(bitmap, level, on, p))
    && (forall t :: t in on ==> on[t] < LEVELS)
  }

  lemma {:induction false} FlatBelow(bitmap: seq<Word>, level: seq<seq<Tid>>, on: map<Tid, nat>, n: nat)
    requires Queues(bitmap, level, on) && n <= LEVELS
    ensures forall t :: t in Flat(level, n) <==> t in on && on[t] < n
  {
    if n > 0 {
      FlatBelow(bitmap, level, on, n - 1);
      assert LevelOk(bitmap, level, on, n - 1);
    }
  }

  lemma {:induction false} RestAbove(bitmap: seq<Word>, level: seq<seq<Tid>>, on: map<Tid, nat>, n: nat)
    requires Queues(bitmap, level, on) && n <= LEVELS
    ensures forall t :: t in Rest(level, n) <==> t in on && on[t] >= n
    decreases LEVELS - n
  {
    if n < LEVELS {
      RestAbove(bitmap, level, on, n + 1);
      assert LevelOk(bitmap, level, on, n);
    }
  }

  /** Appending to a level is inserting into the sorted list. */
  lemma EnqueueIs(bitmap: seq<Word>, level: seq<seq<Tid>>, on: map<Tid, nat>, t: Tid, p: nat)
    requires Queues(bitmap, level, on) && p < LEVELS
    ensures Flat(level[p := level[p] + [t]], LEVELS) == FifoInsert(Flat(level, LEVELS), on, t, p)
  {
    hide Flat, Rest, LevelOk, FifoInsert;
    FlatAt(level, p, level[p] + [t]);
    FlatBelow(bitmap, level, on, p);
    LevelOf(bitmap, level, on, p);
    RestAbove(bitmap, level, on, p + 1);
    var a, b := Flat(level, p) + level[p], Rest(level, p + 1);
    InsertBetween(a, b, on, t, p);
    assert a + [t] + b == Flat(level, p) + (level[p] + [t]) + b;
  }

  lemma LevelOf(bitmap: seq<Word>, level: seq<seq<Tid>>, on: map<Tid, nat>, p: nat)
    requires Queues(bitmap, level, on) && p < LEVELS
    ensures forall t :: t in level[p] <==> t in on && on[t] == p
    ensures Distinct(level[p])
  {
    assert LevelOk(bitmap, level, on, p);
  }

  /** Taking a thread out of its level is taking it out of the sorted list. */
  lemma DequeueIs(bitmap: seq<Word>, level: seq<seq<Tid>>, on: map<Tid, nat>, t: Tid)
    requires Queues(bitmap, level, on) && t in on
    ensures Flat(level[on[t] := Without(level[on[t]], t)], LEVELS) == Without(Flat(level, LEVELS), t)
  {
    hide Flat, Rest, LevelOk, Without;
    var p := on[t];
    FlatAt(level, p, Without(level[p], t));
    FlatBelow(bitmap, level, on, p);
    LevelOf(bitmap, level, on, p);
    WithoutIn(Flat(level, p) + level[p], Rest(level, p + 1), t);
    WithoutIn(Flat(level, p), level[p], t);
  }

  lemma {:induction false} FlatEmpty(level: seq<seq<Tid>>, n: nat)
    requires n <= |level| && forall i :: 0 <= i < n ==> level[i] == []
    ensures Flat(level, n) == []
  {
    if n > 0 { FlatEmpty(level, n - 1); }
  }

  lemma Words(p: nat)
    requires p < LEVELS
    ensures p / 32 < WORDS && p == p / 32 * 32 + p % 32
  {
  }

  lemma WordOf(i: nat, k: nat)
    requires i < WORDS && k < 32
    ensures i * 32 + k < LEVELS && (i * 32 + k) / 32 == i && (i * 32 + k) % 32 == k
  {
  }

  lemma PutOk(bitmap: seq<Word>, level: seq<seq<Tid>>, on: map<Tid, nat>, t: Tid, p: nat)
    requires Queues(bitmap, level, on) && p < LEVELS && t !in on
    ensures p / 32 < WORDS
    ensures Queues(bitmap[p / 32 := Marked(bitmap[p / 32], Bit(p % 32))], level[p := level[p] + [t]], on[t := p])
  {
    hide IsSet, Bit, Marked;
    Words(p);
    var bitmap' := bitmap[p / 32 := Marked(bitmap[p / 32], Bit(p % 32))];
    var level', on' := level[p := level[p] + [t]], on[t := p];
    forall r | 0 <= r < LEVELS ensures LevelOk(bitmap', level', on', r) {
      assert LevelOk(bitmap, level, on, r);
      Words(r);
      SetBit(bitmap[r / 32], p % 32, r % 32);
    }
  }

  lemma TakeOk(bitmap: seq<Word>, level: seq<seq<Tid>>, on: map<Tid, nat>, t: Tid, bitmap': seq<Word>)
    requires Queues(bitmap, level, on) && t in on && on[t] / 32 < WORDS
    requires var p := on[t];
             bitmap' == if Without(level[p], t) == [] then bitmap[p / 32 := Cleared(bitmap[p / 32], Bit(p % 32))]
                        else bitmap
    ensures Queues(bitmap', level[on[t] := Without(level[on[t]], t)], on - {t})
  {
    hide IsSet, Bit, Cleared, Without, Distinct;
    var p := on[t];
    var level', on' := level[p := Without(level[p], t)], on - {t};
    forall r | 0 <= r < LEVELS ensures LevelOk(bitmap', level', on', r) {
      assert LevelOk(bitmap, level, on, r);
      Words(r);
      Words(p);
      ClearBit(bitmap[r / 32], p % 32, r % 32);
      if r == p {
        WithoutIs(level[p], t);
      }
    }
  }

  /** With another priority than the one it was queued with, the wrong level is looked at. */
  lemma TakeOther(bitmap: seq<Word>, level: seq<seq<Tid>>, on: map<Tid, nat>, t: Tid, p: nat, bitmap': seq<Word>)
    requires Queues(bitmap, level, on) && t in on && on[t] != p && p < LEVELS && p / 32 < WORDS
    requires bitmap' == if level[p] == [] then bitmap[p / 32 := Cleared(bitmap[p / 32], Bit(p % 32))] else bitmap
    ensures Queues(bitmap', level[on[t] := Without(level[on[t]], t)], on - {t}) <==> level[on[t]] != [t]
  {
    hide IsSet, Bit, Cleared, Without, Distinct;
    var l := on[t];
    var level', on' := level[l := Without(level[l], t)], on - {t};
    forall r | 0 <= r < LEVELS ensures LevelOk(bitmap', level', on', r) <==> r != l || level[l] != [t] {
      assert LevelOk(bitmap, level, on, r);
      Words(r);
      Words(p);
      ClearBit(bitmap[r / 32], p % 32, r % 32);
      if r == l {
        WithoutIs(level[l], t);
        OnlyOne(level[l], t);
      }
    }
    assert LevelOk(bitmap', level', on', l) <==> level[l] != [t];
  }

  lemma OnlyOne(s: seq<Tid>, t: Tid)
    requires t in s
    ensures |s| == 1 <==> s == [t]
  {
  }

  /** kernel/sched/bitmap_rt.c, the queue of one CPU. */
  class BitmapRq {
    var bitmap: seq<Word>
    var level: seq<seq<Tid>>
    var on: map<Tid, nat>

    ghost predicate Valid()
      reads this
    {
      Queues(bitmap, level, on)
    }

    /** The sorted list this queue stands for. */
    ghost function List(): seq<Tid>
      requires Valid()
      reads this
    {
      Flat(level, LEVELS)
    }

    /** bitmap_rt_init() */
    constructor ()
      ensures Valid() && List() == [] && on == map[]
    {
      bitmap := seq(WORDS, _ => 0);
      level := seq(LEVELS, _ => []);
      on := map[];
      new;
      forall p | 0 <= p < LEVELS ensures LevelOk(bitmap, level, on, p) {
        Words(p);
        ZeroHasNone(p % 32);
      }
      FlatEmpty(level, LEVELS);
    }

    /** bitmap_first_set(): the lowest occupied level, 255 when there is none. */
    method FirstSet() returns (p: nat)
      requires Valid()
      ensures p < LEVELS && (forall r :: 0 <= r < p ==> level[r] == [])
      ensures level[p] == [] <==> List() == []
      ensures level[p] == [] ==> p == 255
    {
      hide IsSet, Bit, Lowest, Flat, LevelOk;
      var i := 0;
      while i < WORDS
        invariant 0 <= i <= WORDS && forall r :: 0 <= r < 32 * i ==> level[r] == []
      {
        var w := bitmap[i];
        if w != 0 {
          LowestIs(w);
          p := i * 32 + Lowest(w);
          WordOf(i, Lowest(w));
          LowestLevel(bitmap, level, on, i, Lowest(w));
          FirstIs(level, p);
          return;
        }
        EmptyWord(bitmap, level, on, i);
        i := i + 1;
      }
      p := 255;
      FlatEmpty(level, LEVELS);
    }

    /** bitmap_rt_enqueue(): a queued thread stays where it is. */
    method Enqueue(t: Tid, p: nat)
      requires Valid() && p < LEVELS
      modifies this
      ensures Valid()
      ensures t in old(on) ==> unchanged(this)
      ensures t !in old(on) ==> List() == FifoInsert(old(List()), old(on), t, p) && on == old(on)[t := p]
    {
      hide LevelOk, Flat, FifoInsert, Bit, Marked;
      if t in on { return; }
      EnqueueIs(bitmap, level, on, t, p);
      PutOk(bitmap, level, on, t, p);
      level := level[p := level[p] + [t]];
      bitmap := bitmap[p / 32 := Marked(bitmap[p / 32], Bit(p % 32))];
      on := on[t := p];
    }

    /**
     bitmap_rt_dequeue() of a thread whose priority is p now.  The list is always right; the
     bitmap is, exactly if p is the level the thread was queued on or others stay there.
     */
    method Dequeue(t: Tid, p: nat)
      requires Valid() && p < LEVELS
      modifies this
      ensures |level| == LEVELS && Flat(level, LEVELS) == Without(old(List()), t) && on == old(on) - {t}
      ensures Valid() <==> (t in old(on) && old(on)[t] != p ==> old(level)[old(on)[t]] != [t])
    {
      hide LevelOk, Flat, Without, Bit, Cleared;
      if t !in on {
        FlatBelow(bitmap, level, on, LEVELS);
        WithoutNone(List(), t);
        assert on == on - {t};
        return;
      }
      Words(p);
      Words(on[t]);
      DequeueIs(bitmap, level, on, t);
      level := level[on[t] := Without(level[on[t]], t)];
      if level[p] == [] {
        bitmap := bitmap[p / 32 := Cleared(bitmap[p / 32], Bit(p % 32))];
      }
      if on[t] == p {
        TakeOk(old(bitmap), old(level), old(on), t, bitmap);
      } else {
        TakeOther(old(bitmap), old(level), old(on), t, p, bitmap);
      }
      on := on - {t};
    }

    /** bitmap_rt_peek_next(): what the reference policy peeks. */
    method PeekNext() returns (r: Option<Tid>)
      requires Valid()
      ensures r == if List() == [] then None else Some(List()[0])
      ensures r.Some? ==> r.value in on && forall t :: t in on ==> on[r.value] <= on[t]
      ensures r.None? <==> on == map[]
    {
      hide LevelOk, Flat;
      FlatBelow(bitmap, level, on, LEVELS);
      var p := FirstSet();
      if level[p] == [] {
        assert forall t :: t !in on;
        return None;
      }
      HeadOf(bitmap, level, on, p);
      r := Some(level[p][0]);
    }

    /** bitmap_rt_pick_next(): the peeked thread, dequeued. */
    method PickNext() returns (r: Option<Tid>)
      requires Valid()
      modifies this
      ensures Valid() && r == (if old(List()) == [] then None else Some(old(List())[0]))
      ensures r.None? ==> unchanged(this) && on == map[]
      ensures r.Some? ==> List() == old(List())[1..] && on == old(on) - {r.value} && r.value in old(on)
                          && forall t :: t in old(on) ==> old(on)[r.value] <= old(on)[t]
    {
      hide LevelOk, Flat, Without, Bit, Cleared;
      FlatBelow(bitmap, level, on, LEVELS);
      var p := FirstSet();
      if level[p] == [] {
        assert forall t :: t !in on;
        return None;
      }
      HeadOf(bitmap, level, on, p);
      var t := level[p][0];
      WithoutHead(level[p]);
      WithoutHead(List());
      Words(p);
      DequeueIs(bitmap, level, on, t);
      level := level[p := level[p][1..]];
      if level[p] == [] {
        bitmap := bitmap[p / 32 := Cleared(bitmap[p / 32], Bit(p % 32))];
      }
      TakeOk(old(bitmap), old(level), old(on), t, bitmap);
      on := on - {t};
      r := Some(t);
    }
  }

  datatype Op = Enq(t: Tid, p: nat) | Deq(t: Tid) | Peek | Pick

  /** A queue as a value, with what it has answered so far. */
  datatype Queue = Queue(q: seq<Tid>, on: map<Tid, nat>, answers: seq<Option<Tid>>)

  function Step(s: Queue, op: Op): Queue {
    match op
    case Enq(t, p) =>
      if p < LEVELS && t !in s.on then Queue(FifoInsert(s.q, s.on, t, p), s.on[t := p], s.answers) else s
    case Deq(t) => Queue(Without(s.q, t), s.on - {t}, s.answers)
    case Peek => s.(answers := s.answers + [if s.q == [] then None else Some(s.q[0])])
    case Pick =>
      if s.q == [] then s.(answers := s.answers + [None])
      else Queue(s.q[1..], s.on - {s.q[0]}, s.answers + [Some(s.q[0])])
  }

  function Steps(s: Queue, ops: seq<Op>): Queue {
    if ops == [] then s else Step(Steps(s, ops[..|ops| - 1]), ops[|ops| - 1])
  }

  /** Driven by the same calls, the two queues hold the same list and hand out the same threads, those of the value. */
  method SideBySide(b: BitmapRq, f: FifoRq, ops: seq<Op>)
    returns (picked: seq<Option<Tid>>, expected: seq<Option<Tid>>)
    requires b.Valid() && f.Valid() && b.List() == f.q && b.on == f.on
    modifies b, f
    ensures b.Valid() && f.Valid() && b.List() == f.q && b.on == f.on && picked == expected
    ensures Queue(b.List(), b.on, picked) == Steps(Queue(old(b.List()), old(b.on), []), ops)
  {
    hide Queues, Flat, FifoInsert, Without;
    picked, expected := [], [];
    ghost var s0 := Queue(b.List(), b.on, []);
    var i := 0;
    assert ops[..0] == [];
    while i < |ops|
      invariant 0 <= i <= |ops|
      invariant b.Valid() && f.Valid() && b.List() == f.q && b.on == f.on && picked == expected
      invariant Queue(b.List(), b.on, picked) == Steps(s0, ops[..i])
    {
      assert ops[..i + 1][..i] == ops[..i];
      match ops[i] {
        case Enq(t, p) =>
          if p < LEVELS && t !in f.on {
            b.Enqueue(t, p);
            f.Enqueue(t, p);
          }
        case Deq(t) =>
          OnLevel(b, t);
          b.Dequeue(t, if t in b.on then b.on[t] else 0);
          f.Dequeue(t);
        case Peek =>
          var x := b.PeekNext();
          var y := f.Peek();
          picked, expected := picked + [x], expected + [y];
        case Pick =>
          var x := b.PickNext();
          var y := f.Peek();
          if y.Some? {
            WithoutHead(f.q);
            f.Dequeue(y.value);
          }
          picked, expected := picked + [x], expected + [y];
      }
      i := i + 1;
    }
    assert ops[..|ops|] == ops;
  }

  lemma OnLevel(b: BitmapRq, t: Tid)
    requires b.Valid()
    ensures t in b.on ==> b.on[t] < LEVELS
  {
  }

  lemma ZeroHasNone(k: nat)
    requires k < 32
    ensures !IsSet(0, k)
  {
  }

  lemma EmptyWord(bitmap: seq<Word>, level: seq<seq<Tid>>, on: map<Tid, nat>, i: nat)
    requires Queues(bitmap, level, on) && i < WORDS && bitmap[i] == 0
    ensures forall r :: 32 * i <= r < 32 * i + 32 ==> level[r] == []
  {
    hide IsSet;
    forall r | 32 * i <= r < 32 * i + 32 ensures level[r] == [] {
      WordOf(i, r - 32 * i);
      assert LevelOk(bitmap, level, on, r);
      ZeroHasNone(r - 32 * i);
    }
  }

  lemma LowestLevel(bitmap: seq<Word>, level: seq<seq<Tid>>, on: map<Tid, nat>, i: nat, k: nat)
    requires Queues(bitmap, level, on) && i < WORDS && k < 32 && IsSet(bitmap[i], k)
    requires forall j :: 0 <= j < k ==> !IsSet(bitmap[i], j)
    ensures 32 * i + k < LEVELS && level[32 * i + k] != []
    ensures forall r :: 32 * i <= r < 32 * i + k ==> level[r] == []
  {
    hide IsSet;
    WordOf(i, k);
    assert LevelOk(bitmap, level, on, 32 * i + k);
    forall r | 32 * i <= r < 32 * i + k ensures level[r] == [] {
      WordOf(i, r - 32 * i);
      assert LevelOk(bitmap, level, on, r);
    }
  }

  lemma FirstIs(level: seq<seq<Tid>>, p: nat)
    requires |level| == LEVELS && p < LEVELS && level[p] != [] && forall r :: 0 <= r < p ==> level[r] == []
    ensures Flat(level, LEVELS) != [] && Flat(level, LEVELS)[0] == level[p][0]
  {
    hide Flat, Rest;
    FlatAt(level, p, level[p]);
    FlatEmpty(level, p);
    assert Flat(level, LEVELS) == level[p] + Rest(level, p + 1);
  }

  /** The head of the lowest occupied level is the head of the list, and no queued thread is more urgent. */
  lemma HeadOf(bitmap: seq<Word>, level: seq<seq<Tid>>, on: map<Tid, nat>, p: nat)
    requires Queues(bitmap, level, on) && p < LEVELS && level[p] != [] && forall r :: 0 <= r < p ==> level[r] == []
    ensures Flat(level, LEVELS) != [] && Flat(level, LEVELS)[0] == level[p][0]
    ensures level[p][0] in on && on[level[p][0]] == p && forall t :: t in on ==> p <= on[t]
  {
    hide Flat, IsSet, Distinct;
    FirstIs(level, p);
    assert LevelOk(bitmap, level, on, p) && level[p][0] in level[p];
    forall t | t in on ensures p <= on[t] { assert LevelOk(bitmap, level, on, on[t]); }
  }

  lemma {:induction false} LowestFrom(level: seq<seq<Tid>>, p: nat) returns (r: nat)
    requires p < |level| && level[p] != []
    ensures r <= p && level[r] != [] && forall i :: 0 <= i < r ==> level[i] == []
  {
    r := p;
    if i :| 0 <= i < p && level[i] != [] { r := LowestFrom(level, i); }
  }

  /** The list starts with a thread that no other is more urgent than. */
  lemma ListHead(q: BitmapRq)
    requires q.Valid()
    ensures q.List() == [] <==> q.on == map[]
    ensures q.List() != [] ==> q.List()[0] in q.on && forall t :: t in q.on ==> q.on[q.List()[0]] <= q.on[t]
  {
    hide Flat, LevelOk;
    FlatBelow(q.bitmap, q.level, q.on, LEVELS);
    if q.List() != [] {
      var x := q.List()[0];
      assert x in q.List();
      LevelOf(q.bitmap, q.level, q.on, q.on[x]);
      var p := LowestFrom(q.level, q.on[x]);
      HeadOf(q.bitmap, q.level, q.on, p);
    }
    if t :| t in q.on { OnLevel(q, t); assert t in q.List(); }
  }

  /** A thread inserted comes first unless another is at least as urgent. */
  lemma InsertHead(q: seq<Tid>, on: map<Tid, nat>, t: Tid, p: nat)
    requires q != [] ==> q[0] in on
    ensures FifoInsert(q, on, t, p) != []
    ensures FifoInsert(q, on, t, p)[0] == if q != [] && on[q[0]] <= p then q[0] else t
  {
  }

  /** A thread queued at level 5 and dequeued after its priority became 6 leaves the bit of level 5 set. */
  method DequeueMissesLevel() returns (q: BitmapRq)
    ensures !q.Valid() && q.on == map[]
  {
    hide LevelOk, Flat, FifoInsert, Without;
    q := new BitmapRq();
    q.Enqueue(0, 5);
    OnlyThread(q, 0, 5);
    q.Dequeue(0, 6);
  }

  lemma TwoDiffer(l: seq<Tid>, t: Tid)
    requires Distinct(l) && |l| > 1
    ensures exists x :: x in l && x != t
  {
    if l[0] == t { assert l[1] in l && l[1] != t; } else { assert l[0] in l; }
  }

  lemma OnlyThread(q: BitmapRq, t: Tid, p: nat)
    requires q.Valid() && p < LEVELS && q.on == map[t := p]
    ensures q.level[p] == [t]
  {
    hide IsSet;
    assert LevelOk(q.bitmap, q.level, q.on, p);
    var l := q.level[p];
    assert t in l;
    if |l| > 1 { TwoDiffer(l, t); }
  }
}

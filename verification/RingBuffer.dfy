/** The circular task arrays of the web server, and what any number of threads make of one under its three
    semaphores. */
module RingBuffer {
  // ---- the array and its two indices ----

  /** Positions less than `n` apart fall on different slots. */
  lemma {:induction false} SlotsDiffer(a: nat, b: nat, n: nat)
    requires 0 < n && a < b < a + n
    ensures a % n != b % n
  {
    var q, r := a / n, b / n;
    assert a == n * q + a % n && b == n * r + b % n;
    if a % n == b % n {
      assert b - a == n * (r - q);
      if r - q >= 1 { Multiple(n, r - q); } else { Multiple(n, q - r + 1); }
      assert false;
    }
  }

  lemma Multiple(n: nat, k: int)
    requires k >= 1
    ensures n * k >= n
  {
  }

  /** The index of the next position. */
  lemma NextSlot(p: nat, n: nat)
    requires n > 0
    ensures (p % n + 1) % n == (p + 1) % n
  {
    var q := p / n;
    assert p == n * q + p % n;
    if p % n + 1 < n {
      ModIs(p + 1, n, q, p % n + 1);
      ModIs(p % n + 1, n, 0, p % n + 1);
    } else {
      assert n * q + n == n * (q + 1);
      ModIs(p + 1, n, q + 1, 0);
      ModIs(p % n + 1, n, 1, 0);
    }
  }

  lemma ModIs(p: nat, n: nat, q: int, r: nat)
    requires n > 0 && r < n && p == n * q + r
    ensures p % n == r
  {
    var d := q - p / n;
    assert p == n * (p / n) + p % n;
    assert n * d == p % n - r;
    if d >= 1 { Multiple(n, d); } else if d <= -1 { Multiple(n, -d); }
  }

  /** The positions `from` to `to` of the sequence `all` are in the slots. */
  ghost predicate Holds<T>(slots: seq<T>, all: seq<T>, from: nat, to: nat) {
    && |slots| > 0 && from <= to <= |all| && to - from <= |slots|
    && forall k {:trigger all[k]} :: from <= k < to ==> slots[k % |slots|] == all[k]
  }

  lemma HoldsPut<T>(slots: seq<T>, all: seq<T>, from: nat, v: T)
    requires Holds(slots, all, from, |all|) && |all| - from < |slots|
    ensures Holds(slots[|all| % |slots| := v], all + [v], from, |all| + 1)
  {
    var n, slots2, all2 := |slots|, slots[|all| % |slots| := v], all + [v];
    forall k {:trigger all2[k]} | from <= k < |all| + 1 ensures slots2[k % n] == all2[k] {
      if k < |all| {
        SlotsDiffer(k, |all|, n);
        assert all2[k] == all[k];
      }
    }
  }

  /** What putting a task does to the slots and to the index of the next free one. */
  function PutAt<T>(slots: seq<T>, fill: nat, v: T): (seq<T>, nat)
    requires fill < |slots|
  {
    (slots[fill := v], (fill + 1) % |slots|)
  }

  /** The task taken, and the index of the next one. */
  function GetAt<T>(slots: seq<T>, use: nat): (T, nat)
    requires use < |slots|
  {
    (slots[use], (use + 1) % |slots|)
  }

  /** One array of tasks with its indices, as the threads use it between the semaphore operations. */
  class TaskArray<T(0)> {
    const slots: array<T>
    var semFill: nat
    var semUse: nat
    // all tasks ever put, and how many have been taken
    ghost var put: seq<T>
    ghost var taken: nat

    ghost predicate Valid()
      reads this, slots
    {
      && Holds(slots[..], put, taken, |put|)
      && semFill == |put| % slots.Length && semUse == taken % slots.Length
    }

    /** The tasks in the array, oldest first. */
    ghost function Contents(): seq<T>
      requires Valid()
      reads this, slots
    {
      put[taken..]
    }

    constructor (size: nat)
      requires size > 0
      ensures Valid() && slots.Length == size && Contents() == [] && fresh(slots)
    {
      slots := new T[size];
      semFill, semUse := 0, 0;
      put, taken := [], 0;
    }

    method PutTask(value: T)
      requires Valid() && |Contents()| < slots.Length
      modifies this, slots
      ensures Valid() && Contents() == old(Contents()) + [value]
      ensures (slots[..], semFill) == PutAt(old(slots[..]), old(semFill), value) && semUse == old(semUse)
    {
      HoldsPut(slots[..], put, taken, value);
      NextSlot(|put|, slots.Length);
      slots[semFill] := value;
      assert slots[..] == old(slots[..])[|put| % slots.Length := value];
      semFill := (semFill + 1) % slots.Length;
      put := put + [value];
    }

    method GetTask() returns (tmp: T)
      requires Valid() && Contents() != []
      modifies this
      ensures Valid() && [tmp] + Contents() == old(Contents())
      ensures (tmp, semUse) == GetAt(slots[..], old(semUse)) && semFill == old(semFill)
    {
      tmp := slots[semUse];
      NextSlot(taken, slots.Length);
      assert tmp == put[taken];
      semUse := (semUse + 1) % slots.Length;
      taken := taken + 1;
    }
  }

  // ---- any number of threads ----

  /** The array under its semaphores.  Thread `i` is a producer or a consumer and stands at `pc[i]`: 0 before
      its permit (`empty` for a producer, `full` for a consumer), 1 before the mutex, 2 before the array,
      3 before giving the mutex back, 4 before giving the other permit. */
  datatype Buffer<T> = Buffer(slots: seq<T>, fill: nat, use: nat, empty: nat, full: nat, mutex: nat,
                              producer: seq<bool>, pc: seq<nat>, put: seq<T>, got: seq<T>)

  function Init<T>(slots: seq<T>, producer: seq<bool>): Buffer<T> {
    Buffer(slots, 0, 0, |slots|, 0, 1, producer, seq(|producer|, _ => 0), [], [])
  }

  predicate Can<T>(s: Buffer<T>, i: nat) {
    && i < |s.pc| == |s.producer| && s.pc[i] <= 4
    && (s.pc[i] == 0 ==> if s.producer[i] then s.empty > 0 else s.full > 0)
    && (s.pc[i] == 1 ==> s.mutex > 0)
    && (s.pc[i] == 2 ==> s.fill < |s.slots| && s.use < |s.slots|)
  }

  /** Thread `i` makes its next step; a producer at the array puts `v`.  What it does there is what `PutTask`
      and `GetTask` do. */
  function Step<T>(s: Buffer<T>, i: nat, v: T): Buffer<T>
    requires Can(s, i)
  {
    match s.pc[i]
    case 0 =>
      if s.producer[i] then s.(empty := s.empty - 1, pc := s.pc[i := 1])
      else s.(full := s.full - 1, pc := s.pc[i := 1])
    case 1 => s.(mutex := s.mutex - 1, pc := s.pc[i := 2])
    case 2 =>
      if s.producer[i] then
        var (slots, fill) := PutAt(s.slots, s.fill, v);
        s.(slots := slots, fill := fill, put := s.put + [v], pc := s.pc[i := 3])
      else
        var (tmp, use) := GetAt(s.slots, s.use);
        s.(use := use, got := s.got + [tmp], pc := s.pc[i := 3])
    case 3 => s.(mutex := s.mutex + 1, pc := s.pc[i := 4])
    case _ =>
      if s.producer[i] then s.(full := s.full + 1, pc := s.pc[i := 0])
      else s.(empty := s.empty + 1, pc := s.pc[i := 0])
  }

  /** The number of producers (or consumers) standing between `lo` and `hi`. */
  function Count(pc: seq<nat>, producer: seq<bool>, who: bool, lo: nat, hi: nat): nat {
    if pc == [] || producer == [] then 0
    else (if producer[0] == who && lo <= pc[0] <= hi then 1 else 0) + Count(pc[1..], producer[1..], who, lo, hi)
  }

  function One(b: bool): nat {
    if b then 1 else 0
  }

  lemma {:induction false} CountMove(pc: seq<nat>, producer: seq<bool>, who: bool, lo: nat, hi: nat, i: nat, p: nat)
    requires i < |pc| == |producer|
    ensures Count(pc[i := p], producer, who, lo, hi) + One(producer[i] == who && lo <= pc[i] <= hi) ==
            Count(pc, producer, who, lo, hi) + One(producer[i] == who && lo <= p <= hi)
  {
    if i > 0 {
      CountMove(pc[1..], producer[1..], who, lo, hi, i - 1, p);
      assert pc[i := p][1..] == pc[1..][i - 1 := p];
    } else {
      assert pc[0 := p][1..] == pc[1..];
    }
  }

  lemma {:induction false} CountSplit(pc: seq<nat>, producer: seq<bool>, who: bool)
    requires |pc| == |producer|
    ensures Count(pc, producer, who, 1, 4) == Count(pc, producer, who, 1, 2) + Count(pc, producer, who, 3, 4)
  {
    if pc != [] { CountSplit(pc[1..], producer[1..], who); }
  }

  lemma {:induction false} CountSome(pc: seq<nat>, producer: seq<bool>, who: bool, lo: nat, hi: nat, i: nat)
    requires i < |pc| == |producer| && producer[i] == who && lo <= pc[i] <= hi
    ensures Count(pc, producer, who, lo, hi) >= 1
  {
    if i > 0 { CountSome(pc[1..], producer[1..], who, lo, hi, i - 1); }
  }

  lemma {:induction false} CountTwo(pc: seq<nat>, producer: seq<bool>, lo: nat, hi: nat, i: nat, j: nat)
    requires i < j < |pc| == |producer| && lo <= pc[i] <= hi && lo <= pc[j] <= hi
    ensures Count(pc, producer, true, lo, hi) + Count(pc, producer, false, lo, hi) >= 2
  {
    if i > 0 {
      CountTwo(pc[1..], producer[1..], lo, hi, i - 1, j - 1);
    } else {
      CountSome(pc[1..], producer[1..], producer[j], lo, hi, j - 1);
    }
  }

  lemma {:induction false} CountNone(pc: seq<nat>, producer: seq<bool>, who: bool, lo: nat, hi: nat)
    requires |pc| == |producer| && forall i :: 0 <= i < |pc| ==> !(lo <= pc[i] <= hi)
    ensures Count(pc, producer, who, lo, hi) == 0
  {
    if pc != [] {
      assert !(lo <= pc[0] <= hi);
      CountNone(pc[1..], producer[1..], who, lo, hi);
    }
  }

  function Producers<T>(s: Buffer<T>, lo: nat, hi: nat): nat { Count(s.pc, s.producer, true, lo, hi) }
  function Consumers<T>(s: Buffer<T>, lo: nat, hi: nat): nat { Count(s.pc, s.producer, false, lo, hi) }

  /** Every permit and the mutex is in exactly one place, and the tasks in the array are accounted for. */
  ghost predicate Permits<T>(s: Buffer<T>) {
    && |s.pc| == |s.producer| && (forall i {:trigger s.pc[i]} :: 0 <= i < |s.pc| ==> s.pc[i] <= 4)
    && s.empty + s.full + Producers(s, 1, 4) + Consumers(s, 1, 4) == |s.slots|
    && s.mutex + Producers(s, 2, 3) + Consumers(s, 2, 3) == 1
    && |s.put| == |s.got| + s.full + Producers(s, 3, 4) + Consumers(s, 1, 2)
  }

  /** The array holds the tasks put and not taken, and those taken are the first ones put, in order. */
  ghost predicate Fifo<T>(s: Buffer<T>) {
    && Holds(s.slots, s.put, |s.got|, |s.put|)
    && s.fill == |s.put| % |s.slots| && s.use == |s.got| % |s.slots|
    && s.got == s.put[..|s.got|]
  }

  ghost predicate Inv<T>(s: Buffer<T>) {
    Permits(s) && Fifo(s)
  }

  lemma CountsMove<T>(s: Buffer<T>, i: nat, p: nat)
    requires i < |s.pc| == |s.producer|
    ensures var pc := s.pc[i := p]; forall lo: nat, hi: nat, who: bool {:trigger Count(pc, s.producer, who, lo, hi)} ::
      Count(pc, s.producer, who, lo, hi) + One(s.producer[i] == who && lo <= s.pc[i] <= hi) ==
      Count(s.pc, s.producer, who, lo, hi) + One(s.producer[i] == who && lo <= p <= hi)
  {
    forall lo: nat, hi: nat, who: bool
      ensures Count(s.pc[i := p], s.producer, who, lo, hi) + One(s.producer[i] == who && lo <= s.pc[i] <= hi) ==
              Count(s.pc, s.producer, who, lo, hi) + One(s.producer[i] == who && lo <= p <= hi)
    {
      CountMove(s.pc, s.producer, who, lo, hi, i, p);
    }
  }

  lemma StepKeepsPermits<T>(s: Buffer<T>, i: nat, v: T)
    requires Permits(s) && Can(s, i)
    ensures Permits(Step(s, i, v))
  {
    CountsMove(s, i, if s.pc[i] == 4 then 0 else s.pc[i] + 1);
  }

  /** At the array a producer finds room, and a consumer finds a task. */
  lemma RoomAtArray<T>(s: Buffer<T>, i: nat)
    requires Permits(s) && i < |s.pc| && s.pc[i] == 2
    ensures s.producer[i] ==> |s.put| - |s.got| < |s.slots|
    ensures !s.producer[i] ==> |s.put| > |s.got|
  {
    CountSplit(s.pc, s.producer, true);
    CountSplit(s.pc, s.producer, false);
    CountSome(s.pc, s.producer, s.producer[i], 1, 2, i);
  }

  lemma StepKeepsFifo<T>(s: Buffer<T>, i: nat, v: T)
    requires Inv(s) && Can(s, i)
    ensures Fifo(Step(s, i, v))
  {
    if s.pc[i] == 2 {
      RoomAtArray(s, i);
      if s.producer[i] {
        HoldsPut(s.slots, s.put, |s.got|, v);
        NextSlot(|s.put|, |s.slots|);
      } else {
        NextSlot(|s.got|, |s.slots|);
        assert s.slots[s.use] == s.put[|s.got|];
      }
    }
  }

  // ---- runs ----

  predicate CanRun<T>(s: Buffer<T>, run: seq<(nat, T)>)
    decreases |run|
  {
    run == [] || (Can(s, run[0].0) && CanRun(Step(s, run[0].0, run[0].1), run[1..]))
  }

  function Run<T>(s: Buffer<T>, run: seq<(nat, T)>): Buffer<T>
    requires CanRun(s, run)
    decreases |run|
  {
    if run == [] then s else Run(Step(s, run[0].0, run[0].1), run[1..])
  }

  lemma {:induction false} RunKeeps<T>(s: Buffer<T>, run: seq<(nat, T)>)
    requires Inv(s) && CanRun(s, run)
    ensures Inv(Run(s, run)) && Run(s, run).producer == s.producer && |Run(s, run).slots| == |s.slots|
    decreases |run|
  {
    if run != [] {
      StepKeepsPermits(s, run[0].0, run[0].1);
      StepKeepsFifo(s, run[0].0, run[0].1);
      RunKeeps(Step(s, run[0].0, run[0].1), run[1..]);
    }
  }

  lemma InitInv<T>(slots: seq<T>, producer: seq<bool>)
    requires |slots| > 0
    ensures Inv(Init(slots, producer))
  {
    var s := Init(slots, producer);
    CountNone(s.pc, producer, true, 1, 4);
    CountNone(s.pc, producer, false, 1, 4);
    CountNone(s.pc, producer, true, 2, 3);
    CountNone(s.pc, producer, false, 2, 3);
    CountNone(s.pc, producer, true, 3, 4);
    CountNone(s.pc, producer, false, 1, 2);
  }

  /** In every interleaving of any number of producers and consumers, with any capacity: the tasks taken are
      the first ones put, in the order put, each once; never more than the capacity are in between; and no
      two threads are at the array together. */
  lemma {:induction false} NothingLost<T>(slots: seq<T>, producer: seq<bool>, run: seq<(nat, T)>)
    requires |slots| > 0 && CanRun(Init(slots, producer), run)
    ensures var s := Run(Init(slots, producer), run);
      && |s.got| <= |s.put| <= |s.got| + |slots| && s.got == s.put[..|s.got|]
      && forall i, j :: 0 <= i < j < |s.pc| && 2 <= s.pc[i] <= 3 ==> !(2 <= s.pc[j] <= 3)
  {
    InitInv(slots, producer);
    RunKeeps(Init(slots, producer), run);
    var s := Run(Init(slots, producer), run);
    forall i, j | 0 <= i < j < |s.pc| && 2 <= s.pc[i] <= 3 ensures !(2 <= s.pc[j] <= 3) {
      if 2 <= s.pc[j] <= 3 { CountTwo(s.pc, s.producer, 2, 3, i, j); assert false; }
    }
  }

  /** Every step is, on the queue of tasks put and not taken, nothing, or a task added at the end of a queue
      that is not full, or its front taken off and handed to the consumer. */
  lemma StepRefinesQueue<T>(s: Buffer<T>, i: nat, v: T)
    requires Inv(s) && Can(s, i)
    ensures var t := Step(s, i, v); var q, q2 := s.put[|s.got|..], if |t.got| <= |t.put| then t.put[|t.got|..] else [];
      || (q2 == q && t.got == s.got)
      || (|q| < |s.slots| && s.producer[i] && q2 == q + [v] && t.got == s.got)
      || (q != [] && !s.producer[i] && q2 == q[1..] && t.got == s.got + [q[0]])
  {
    StepKeepsFifo(s, i, v);
    if s.pc[i] == 2 {
      RoomAtArray(s, i);
      if !s.producer[i] { assert s.slots[s.use] == s.put[|s.got|]; }
    }
  }

  /** With a producer and a consumer among them, some thread can always go on. */
  lemma {:induction false} NeverStuck<T>(slots: seq<T>, producer: seq<bool>, run: seq<(nat, T)>) returns (i: nat)
    requires |slots| > 0 && CanRun(Init(slots, producer), run) && true in producer && false in producer
    ensures Can(Run(Init(slots, producer), run), i)
  {
    InitInv(slots, producer);
    RunKeeps(Init(slots, producer), run);
    var s := Run(Init(slots, producer), run);
    if j :| 0 <= j < |s.pc| && s.pc[j] >= 2 {
      i := j;
    } else {
      CountNone(s.pc, s.producer, true, 2, 3);
      CountNone(s.pc, s.producer, false, 2, 3);
      i := FirstAtPermit(s);
    }
  }

  lemma FirstAtPermit<T>(s: Buffer<T>) returns (i: nat)
    requires Inv(s) && s.mutex == 1 && |s.slots| > 0 && true in s.producer && false in s.producer
    requires forall j {:trigger s.pc[j]} :: 0 <= j < |s.pc| ==> s.pc[j] <= 1
    ensures Can(s, i)
  {
    if j :| 0 <= j < |s.pc| && s.pc[j] == 1 {
      i := j;
    } else {
      CountNone(s.pc, s.producer, true, 1, 4);
      CountNone(s.pc, s.producer, false, 1, 4);
      if s.empty > 0 {
        i :| 0 <= i < |s.producer| && s.producer[i];
      } else {
        i :| 0 <= i < |s.producer| && !s.producer[i];
      }
      assert s.pc[i] <= 1;
    }
  }
}

/** The print queue of the O3 pipeline viewer: instructions arrive out of order,
    wait in a bounded queue, and leave it in batches of the smallest sequence
    numbers. The main result says for which arrival orders the whole run prints
    in sequence-number order. */
module PipeviewTypes {

  /** The eight pipeline events of a record, in the order the viewer lists them. */
  datatype Stage = Fetch | Decode | Rename | Dispatch | Issue | Complete | Retire | Store

  /** One instruction's record. The tick of an event is zero when the event did not happen. */
  datatype Inst = Inst(sn: int, pc: string, upc: string, disasm: string, ticks: map<Stage, int>) {
    function Tick(s: Stage): int {
      if s in ticks then ticks[s] else 0
    }
  }
}

/** Stable sorting by sequence number, as Python's `list.sort` does it. */
module StableSort {
  import opened PipeviewTypes

  ghost predicate Sorted(s: seq<Inst>) {
    forall i, j | 0 <= i < j < |s| :: s[i].sn <= s[j].sn
  }

  /** The entries with sequence number k, in their order. */
  ghost function WithSn(s: seq<Inst>, k: int): seq<Inst> {
    if s == [] then []
    else (if s[0].sn == k then [s[0]] else []) + WithSn(s[1..], k)
  }

  /** r is s sorted, and entries with equal numbers keep their order. */
  ghost predicate IsStableSort(s: seq<Inst>, r: seq<Inst>) {
    Sorted(r) && forall k :: WithSn(r, k) == WithSn(s, k)
  }

  /** Put x behind every entry whose number is not larger. */
  function Insert(s: seq<Inst>, x: Inst): (r: seq<Inst>)
    ensures |r| == |s| + 1
  {
    if s == [] || s[|s| - 1].sn <= x.sn then s + [x]
    else Insert(s[..|s| - 1], x) + [s[|s| - 1]]
  }

  function Sort(s: seq<Inst>): (r: seq<Inst>)
    ensures |r| == |s|
  {
    if s == [] then [] else Insert(Sort(s[..|s| - 1]), s[|s| - 1])
  }

  lemma {:induction false} InsertPermutes(s: seq<Inst>, x: Inst)
    ensures multiset(Insert(s, x)) == multiset(s) + multiset{x}
  {
    if s != [] && s[|s| - 1].sn > x.sn {
      assert s == s[..|s| - 1] + [s[|s| - 1]];
      InsertPermutes(s[..|s| - 1], x);
    }
  }

  /** Sorting keeps every entry exactly as often as it occurs. */
  lemma {:induction false} SortPermutes(s: seq<Inst>)
    ensures multiset(Sort(s)) == multiset(s)
  {
    if s != [] {
      assert s == s[..|s| - 1] + [s[|s| - 1]];
      SortPermutes(s[..|s| - 1]);
      InsertPermutes(Sort(s[..|s| - 1]), s[|s| - 1]);
    }
  }

  lemma {:induction false} WithSnAppend(a: seq<Inst>, b: seq<Inst>, k: int)
    ensures WithSn(a + b, k) == WithSn(a, k) + WithSn(b, k)
  {
    if a == [] {
      assert a + b == b;
    } else {
      assert (a + b)[1..] == a[1..] + b;
      WithSnAppend(a[1..], b, k);
    }
  }

  lemma {:induction false} InsertSorted(s: seq<Inst>, x: Inst)
    requires Sorted(s)
    ensures Sorted(Insert(s, x))
  {
    if s != [] && s[|s| - 1].sn > x.sn {
      var front, last := s[..|s| - 1], s[|s| - 1];
      InsertSorted(front, x);
      InsertPermutes(front, x);
      var r := Insert(front, x);
      forall i | 0 <= i < |r| ensures r[i].sn <= last.sn {
        assert r[i] in multiset(r);
        assert r[i] in multiset(front) || r[i] == x;
      }
    }
  }

  lemma {:induction false} InsertKeepsOrder(s: seq<Inst>, x: Inst, k: int)
    ensures WithSn(Insert(s, x), k) == WithSn(s, k) + WithSn([x], k)
  {
    if s == [] || s[|s| - 1].sn <= x.sn {
      WithSnAppend(s, [x], k);
    } else {
      var front, last := s[..|s| - 1], s[|s| - 1];
      InsertKeepsOrder(front, x, k);
      WithSnAppend(Insert(front, x), [last], k);
      WithSnAppend(front, [last], k);
      assert s == front + [last];
    }
  }

  lemma {:induction false} SortIsStableSort(s: seq<Inst>)
    ensures IsStableSort(s, Sort(s))
  {
    if s != [] {
      var front, x := s[..|s| - 1], s[|s| - 1];
      assert s == front + [x];
      SortIsStableSort(front);
      InsertSorted(Sort(front), x);
      forall k ensures WithSn(Sort(s), k) == WithSn(s, k) {
        InsertKeepsOrder(Sort(front), x, k);
        WithSnAppend(front, [x], k);
      }
    }
  }

  /** An entry is found among the entries with its own number. */
  lemma {:induction false} WithSnMember(s: seq<Inst>, i: nat)
    requires i < |s|
    ensures s[i] in WithSn(s, s[i].sn)
  {
    if i > 0 { WithSnMember(s[1..], i - 1); }
  }

  lemma {:induction false} WithSnFrom(s: seq<Inst>, k: int, y: Inst)
    requires y in WithSn(s, k)
    ensures y in s && y.sn == k
  {
    if s != [] && !(s[0].sn == k && y == s[0]) { WithSnFrom(s[1..], k, y); }
  }

  /** There is only one stable sort of a list. */
  lemma {:induction false} StableSortUnique(a: seq<Inst>, b: seq<Inst>)
    requires Sorted(a) && Sorted(b)
    requires forall k :: WithSn(a, k) == WithSn(b, k)
    ensures a == b
  {
    assert a != [] ==> WithSn(a, a[0].sn) != [];
    assert b != [] ==> WithSn(b, b[0].sn) != [];
    if a != [] && b != [] {
      WithSnMember(a, 0);
      WithSnMember(b, 0);
      assert WithSn(b, a[0].sn) == WithSn(a, a[0].sn);
      assert WithSn(a, b[0].sn) == WithSn(b, b[0].sn);
      WithSnFrom(b, a[0].sn, a[0]);
      WithSnFrom(a, b[0].sn, b[0]);
      var k := a[0].sn;
      assert a[0].sn == b[0].sn;
      assert WithSn(a, k)[0] == a[0] && WithSn(b, k)[0] == b[0];
      assert a[0] == b[0];
      forall j ensures WithSn(a[1..], j) == WithSn(b[1..], j) {
        assert WithSn(a, j) == WithSn(b, j);
        if j == k {
          assert WithSn(a[1..], j) == WithSn(a, j)[1..];
          assert WithSn(b[1..], j) == WithSn(b, j)[1..];
        } else {
          assert WithSn(a[1..], j) == WithSn(a, j);
          assert WithSn(b[1..], j) == WithSn(b, j);
        }
      }
      StableSortUnique(a[1..], b[1..]);
      assert a == [a[0]] + a[1..] && b == [b[0]] + b[1..];
    }
  }

  /** Sorting a list whose front was sorted before gives the same result. */
  lemma SortAfterSort(a: seq<Inst>, b: seq<Inst>)
    ensures Sort(Sort(a) + b) == Sort(a + b)
  {
    SortIsStableSort(a);
    SortIsStableSort(a + b);
    SortIsStableSort(Sort(a) + b);
    forall k ensures WithSn(Sort(Sort(a) + b), k) == WithSn(Sort(a + b), k) {
      WithSnAppend(Sort(a), b, k);
      WithSnAppend(a, b, k);
    }
    StableSortUnique(Sort(Sort(a) + b), Sort(a + b));
  }

  lemma SortSorts(s: seq<Inst>)
    ensures Sorted(Sort(s))
  {
    SortIsStableSort(s);
  }

  /** A part of a sorted list is sorted already. */
  lemma SortOfSortedPart(s: seq<Inst>, n: nat)
    requires Sorted(s) && n <= |s|
    ensures Sort(s[n..]) == s[n..]
  {
    SortIsStableSort(s[n..]);
    StableSortUnique(Sort(s[n..]), s[n..]);
  }
}

module PipeviewQueue {
  import opened PipeviewTypes
  import opened StableSort
  import opened Arith

  datatype Limits = Limits(maxThreshold: nat, minThreshold: nat) {
    /** The queue is drained as soon as it holds more than this many entries. */
    function High(): nat {
      if minThreshold <= maxThreshold then maxThreshold else minThreshold
    }

    /** How many entries one drain removes. */
    function Batch(): nat {
      High() + 1 - minThreshold
    }
  }

  /** The part of the trace the user asked for; a bound that is not positive is not set. */
  datatype Window = Window(snStart: int, snStop: int, tickStart: int, tickStop: int, onlyCommitted: bool) {
    predicate Shows(inst: Inst) {
      && !(snStart > 0 && inst.sn < snStart)
      && !(snStop > 0 && inst.sn > snStop)
      && !(tickStart > 0 && inst.Tick(Fetch) < tickStart)
      && !(tickStop > 0 && inst.Tick(Fetch) > tickStop)
      && !(onlyCommitted && inst.Tick(Retire) == 0)
    }
  }

  function Select(w: Window, s: seq<Inst>): seq<Inst> {
    if s == [] then []
    else if w.Shows(s[|s| - 1]) then Select(w, s[..|s| - 1]) + [s[|s| - 1]]
    else Select(w, s[..|s| - 1])
  }

  lemma SelectSnoc(w: Window, s: seq<Inst>, x: Inst)
    ensures Select(w, s + [x]) == if w.Shows(x) then Select(w, s) + [x] else Select(w, s)
  {
    assert (s + [x])[..|s|] == s;
  }

  /** The queue, and everything that has left it so far. */
  datatype State = State(queue: seq<Inst>, taken: seq<Inst>)

  /** Pop the front until at most `lower` entries wait. */
  function Popped(st: State, lower: nat): State
    decreases |st.queue|
  {
    if |st.queue| <= lower then st
    else Popped(State(st.queue[1..], st.taken + [st.queue[0]]), lower)
  }

  lemma {:induction false} PoppedSplits(st: State, lower: nat)
    ensures var n := if |st.queue| > lower then |st.queue| - lower else 0;
            Popped(st, lower) == State(st.queue[n..], st.taken + st.queue[..n])
    decreases |st.queue|
  {
    if |st.queue| > lower {
      var n := |st.queue| - lower;
      PoppedSplits(State(st.queue[1..], st.taken + [st.queue[0]]), lower);
      assert st.queue[1..][n - 1..] == st.queue[n..];
      assert [st.queue[0]] + st.queue[1..][..n - 1] == st.queue[..n];
    } else {
      assert st.taken + st.queue[..0] == st.taken;
    }
  }

  function Drain(st: State, lower: nat): State {
    Popped(State(Sort(st.queue), st.taken), lower)
  }

  function Arrive(lim: Limits, st: State, inst: Inst): State {
    var q := State(st.queue + [inst], st.taken);
    if |q.queue| > lim.maxThreshold then Drain(q, lim.minThreshold) else q
  }

  /** The state after the given arrivals. */
  function Run(lim: Limits, xs: seq<Inst>): State {
    if xs == [] then State([], []) else Arrive(lim, Run(lim, xs[..|xs| - 1]), xs[|xs| - 1])
  }

  /** Everything that leaves the queue in a whole run, the final flush included. */
  function Flushed(lim: Limits, xs: seq<Inst>): seq<Inst> {
    Drain(Run(lim, xs), 0).taken
  }

  /** The queue as the viewer keeps it, updated in place. */
  class PrintQueue {
    const limits: Limits
    const window: Window
    var queue: seq<Inst>
    var printed: seq<Inst>
    ghost var taken: seq<Inst>

    ghost predicate Valid() reads this {
      printed == Select(window, taken)
    }

    ghost function Now(): State reads this {
      State(queue, taken)
    }

    constructor (limits: Limits, window: Window)
      ensures this.limits == limits && this.window == window
      ensures Valid() && Now() == State([], [])
    {
      this.limits, this.window := limits, window;
      queue, printed, taken := [], [], [];
    }

    method QueueInst(inst: Inst)
      requires Valid()
      modifies this
      ensures Valid() && Now() == Arrive(limits, old(Now()), inst)
    {
      queue := queue + [inst];
      if |queue| > limits.maxThreshold {
        PrintInsts(limits.minThreshold);
      }
    }

    method PrintInsts(lower: nat)
      requires Valid()
      modifies this
      ensures Valid() && Now() == Drain(old(Now()), lower)
    {
      queue := Sort(queue);
      ghost var target := Popped(Now(), lower);
      while |queue| > lower
        invariant Popped(Now(), lower) == target
        invariant Valid()
      {
        var item := queue[0];
        SelectSnoc(window, taken, item);
        queue := queue[1..];
        taken := taken + [item];
        if window.Shows(item) {
          printed := printed + [item];
        }
      }
    }
  }

  // ---------- how many entries wait, and when the queue is drained ----------

  /** Arrival number t (counted from 1) is one that drains the queue: the first time
      one entry more than the threshold is held, and then after every further batch. */
  ghost predicate DrainPoint(lim: Limits, t: nat) {
    t > lim.High() && (t - lim.High() - 1) % lim.Batch() == 0
  }

  ghost function QueueSize(lim: Limits, t: nat): nat {
    if t <= lim.High() then t else lim.minThreshold + (t - lim.High() - 1) % lim.Batch()
  }

  lemma {:induction false} RunSize(lim: Limits, xs: seq<Inst>)
    ensures |Run(lim, xs).queue| == QueueSize(lim, |xs|) <= lim.High()
  {
    if xs != [] {
      RunSize(lim, xs[..|xs| - 1]);
      ArriveSize(lim, Run(lim, xs[..|xs| - 1]), xs[|xs| - 1]);
      SizeStep(lim, |xs| - 1);
    }
  }

  lemma ArriveSize(lim: Limits, st: State, x: Inst)
    requires |st.queue| <= lim.High()
    ensures |Arrive(lim, st, x).queue| ==
            if |st.queue| == lim.High() then lim.minThreshold else |st.queue| + 1
  {
    PoppedSplits(State(Sort(st.queue + [x]), st.taken), lim.minThreshold);
  }

  lemma SizeStep(lim: Limits, t: nat)
    ensures QueueSize(lim, t) <= lim.High()
    ensures QueueSize(lim, t + 1) ==
            if QueueSize(lim, t) == lim.High() then lim.minThreshold else QueueSize(lim, t) + 1
    ensures DrainPoint(lim, t + 1) <==> QueueSize(lim, t) == lim.High()
  {
    if t > lim.High() {
      DivModStep(t - lim.High() - 1, lim.Batch());
    }
  }

  /** Nothing is lost and nothing is invented while entries wait. */
  lemma {:induction false} RunKeepsAll(lim: Limits, xs: seq<Inst>)
    ensures multiset(Run(lim, xs).queue) + multiset(Run(lim, xs).taken) == multiset(xs)
  {
    if xs != [] {
      var front, x := xs[..|xs| - 1], xs[|xs| - 1];
      assert xs == front + [x];
      RunKeepsAll(lim, front);
      var st := Run(lim, front);
      if |st.queue| + 1 > lim.maxThreshold {
        DrainKeepsAll(State(st.queue + [x], st.taken), lim.minThreshold);
      }
    }
  }

  lemma DrainKeepsAll(st: State, lower: nat)
    ensures var d := Drain(st, lower);
            multiset(d.queue) + multiset(d.taken) == multiset(st.queue) + multiset(st.taken)
  {
    var s := Sort(st.queue);
    var n := if |s| > lower then |s| - lower else 0;
    PoppedSplits(State(s, st.taken), lower);
    SortPermutes(st.queue);
    assert s == s[..n] + s[n..];
  }

  /** Over a whole run, whatever the order of arrival, exactly the arrivals leave the queue. */
  lemma FlushedKeepsAll(lim: Limits, xs: seq<Inst>)
    ensures multiset(Flushed(lim, xs)) == multiset(xs)
  {
    RunKeepsAll(lim, xs);
    var st := Run(lim, xs);
    DrainKeepsAll(st, 0);
    PoppedSplits(State(Sort(st.queue), st.taken), 0);
    assert |Drain(st, 0).queue| == 0;
  }

  // ---------- the exact condition for printing in order ----------

  ghost function CountGreater(s: seq<Inst>, k: int): nat {
    if s == [] then 0 else (if s[0].sn > k then 1 else 0) + CountGreater(s[1..], k)
  }

  /** At every drain, no later arrival has more than `min_threshold` larger numbers before the drain. */
  ghost predicate InTime(lim: Limits, xs: seq<Inst>) {
    forall t, j | 0 <= t <= j < |xs| && DrainPoint(lim, t) ::
      CountGreater(xs[..t], xs[j].sn) <= lim.minThreshold
  }

  /** The assumption the viewer's authors write down: nobody arrives behind more than
      `min_threshold` entries of larger number. */
  ghost predicate BoundedDisorder(lim: Limits, xs: seq<Inst>) {
    forall j | 0 <= j < |xs| :: CountGreater(xs[..j], xs[j].sn) <= lim.minThreshold
  }

  lemma {:induction false} CountAppend(a: seq<Inst>, b: seq<Inst>, k: int)
    ensures CountGreater(a + b, k) == CountGreater(a, k) + CountGreater(b, k)
  {
    if a == [] {
      assert a + b == b;
    } else {
      assert (a + b)[1..] == a[1..] + b;
      CountAppend(a[1..], b, k);
    }
  }

  lemma {:induction false} CountBound(s: seq<Inst>, k: int)
    ensures CountGreater(s, k) <= |s|
    ensures (forall i | 0 <= i < |s| :: s[i].sn > k) ==> CountGreater(s, k) == |s|
    ensures (forall i | 0 <= i < |s| :: s[i].sn <= k) ==> CountGreater(s, k) == 0
  {
    if s != [] { CountBound(s[1..], k); }
  }

  /** Sorting does not change how many entries exceed k. */
  lemma {:induction false} CountOfInsert(s: seq<Inst>, x: Inst, k: int)
    ensures CountGreater(Insert(s, x), k) == CountGreater(s, k) + CountGreater([x], k)
  {
    if s == [] || s[|s| - 1].sn <= x.sn {
      CountAppend(s, [x], k);
    } else {
      var front, last := s[..|s| - 1], s[|s| - 1];
      CountOfInsert(front, x, k);
      CountAppend(Insert(front, x), [last], k);
      CountAppend(front, [last], k);
      assert s == front + [last];
    }
  }

  lemma {:induction false} CountOfSort(s: seq<Inst>, k: int)
    ensures CountGreater(Sort(s), k) == CountGreater(s, k)
  {
    if s != [] {
      var front, last := s[..|s| - 1], s[|s| - 1];
      CountOfSort(front, k);
      CountOfInsert(Sort(front), last, k);
      CountAppend(front, [last], k);
      assert s == front + [last];
    }
  }

  /** At any time the entries exceeding k are those that wait and those that have left. */
  lemma {:induction false} CountOfRun(lim: Limits, xs: seq<Inst>, k: int)
    ensures var st := Run(lim, xs);
            CountGreater(xs, k) == CountGreater(st.taken, k) + CountGreater(st.queue, k)
    ensures |xs| == |Run(lim, xs).taken| + |Run(lim, xs).queue|
  {
    if xs != [] {
      var front, x := xs[..|xs| - 1], xs[|xs| - 1];
      assert xs == front + [x];
      CountAppend(front, [x], k);
      CountOfRun(lim, front, k);
      CountOfArrive(lim, Run(lim, front), x, k);
    }
  }

  lemma CountOfArrive(lim: Limits, st: State, x: Inst, k: int)
    ensures var d := Arrive(lim, st, x);
            && CountGreater(d.taken, k) + CountGreater(d.queue, k) ==
               CountGreater(st.taken, k) + CountGreater(st.queue, k) + CountGreater([x], k)
            && |d.taken| + |d.queue| == |st.taken| + |st.queue| + 1
  {
    var q := st.queue + [x];
    CountAppend(st.queue, [x], k);
    CountOfSort(q, k);
    if |q| > lim.maxThreshold {
      CountOfPopped(State(Sort(q), st.taken), lim.minThreshold, k);
    }
  }

  lemma CountOfPopped(st: State, lower: nat, k: int)
    ensures var d := Popped(st, lower);
            && CountGreater(d.taken, k) + CountGreater(d.queue, k) ==
               CountGreater(st.taken, k) + CountGreater(st.queue, k)
            && |d.taken| + |d.queue| == |st.taken| + |st.queue|
  {
    PoppedSplits(st, lower);
    var n := if |st.queue| > lower then |st.queue| - lower else 0;
    assert st.queue == st.queue[..n] + st.queue[n..];
    CountAppend(st.queue[..n], st.queue[n..], k);
    CountAppend(st.taken, st.queue[..n], k);
  }

  /** What has left the queue is never larger than anything that arrives after prefix t. */
  ghost predicate NoneLate(lim: Limits, xs: seq<Inst>, t: nat)
    requires t <= |xs|
  {
    var taken := Run(lim, xs[..t]).taken;
    forall i, j | 0 <= i < |taken| && t <= j < |xs| :: taken[i].sn <= xs[j].sn
  }

  lemma {:induction false} InsertBehind(p: seq<Inst>, s: seq<Inst>, x: Inst)
    requires forall i | 0 <= i < |p| :: p[i].sn <= x.sn
    ensures Insert(p + s, x) == p + Insert(s, x)
  {
    if s == [] {
      assert p + s == p;
    } else {
      var ps := p + s;
      assert ps[|ps| - 1] == s[|s| - 1];
      if s[|s| - 1].sn > x.sn {
        assert ps[..|ps| - 1] == p + s[..|s| - 1];
        InsertBehind(p, s[..|s| - 1], x);
      }
    }
  }

  lemma SplitAt(p: seq<Inst>, s: seq<Inst>, n: nat)
    requires n <= |s|
    ensures (p + s[..n]) + s[n..] == p + s
  {
  }

  /** A drain only moves the boundary between what has left and the sorted rest. */
  lemma DrainMovesBoundary(st: State, lower: nat)
    ensures var d := Drain(st, lower); d.taken + Sort(d.queue) == st.taken + Sort(st.queue)
  {
    var s := Sort(st.queue);
    var n := if |s| > lower then |s| - lower else 0;
    PoppedSplits(State(s, st.taken), lower);
    SortSorts(st.queue);
    SortOfSortedPart(s, n);
    SplitAt(st.taken, s, n);
  }

  /** An arrival that is not late lands in the sorted rest. */
  lemma ArriveInOrder(lim: Limits, st: State, x: Inst)
    requires forall i | 0 <= i < |st.taken| :: st.taken[i].sn <= x.sn
    ensures var d := Arrive(lim, st, x);
            d.taken + Sort(d.queue) == Insert(st.taken + Sort(st.queue), x)
  {
    var q := st.queue + [x];
    assert q[..|q| - 1] == st.queue;
    InsertBehind(st.taken, Sort(st.queue), x);
    DrainMovesBoundary(State(q, st.taken), lim.minThreshold);
  }

  /** As long as nobody is late, the entries that left followed by the sorted rest
      are the stable sort of all arrivals. */
  lemma {:induction false} RunInOrder(lim: Limits, xs: seq<Inst>, t: nat)
    requires t <= |xs|
    requires forall u | 0 <= u < t :: NoneLate(lim, xs, u)
    ensures var st := Run(lim, xs[..t]); st.taken + Sort(st.queue) == Sort(xs[..t])
  {
    if t > 0 {
      assert xs[..t][..t - 1] == xs[..t - 1];
      RunInOrder(lim, xs, t - 1);
      assert NoneLate(lim, xs, t - 1);
      ArriveInOrder(lim, Run(lim, xs[..t - 1]), xs[t - 1]);
    }
  }

  /** If the front p of a sorted list holds an entry above k, so is everything behind p. */
  lemma BehindLargeIsLarge(p: seq<Inst>, rest: seq<Inst>, k: int)
    requires Sorted(p + rest)
    requires exists i | 0 <= i < |p| :: p[i].sn > k
    ensures CountGreater(rest, k) == |rest| && CountGreater(p, k) > 0
  {
    var s := p + rest;
    var i :| 0 <= i < |p| && p[i].sn > k;
    forall m | 0 <= m < |rest| ensures rest[m].sn > k {
      assert s[i] == p[i] && s[|p| + m] == rest[m];
    }
    CountBound(rest, k);
    assert p == p[..i] + ([p[i]] + p[i + 1..]);
    CountAppend(p[..i], [p[i]] + p[i + 1..], k);
  }

  /** Counting step: if no more entries exceed k than lie behind the front p of a
      sorted list, then none of them lies in p. */
  lemma FewGreaterMeansFrontSmall(p: seq<Inst>, rest: seq<Inst>, k: int)
    requires Sorted(p + rest) && CountGreater(p + rest, k) <= |rest|
    ensures forall i | 0 <= i < |p| :: p[i].sn <= k
  {
    CountAppend(p, rest, k);
    if exists i | 0 <= i < |p| :: p[i].sn > k {
      BehindLargeIsLarge(p, rest, k);
    }
  }

  /** What a drain takes out is not larger than anybody who arrives later. */
  lemma DrainLeavesNoneLate(lim: Limits, xs: seq<Inst>, t: nat)
    requires t <= |xs| && InTime(lim, xs) && DrainPoint(lim, t)
    requires forall u | 0 <= u < t :: NoneLate(lim, xs, u)
    ensures NoneLate(lim, xs, t)
  {
    RunInOrder(lim, xs, t);
    RunSize(lim, xs[..t]);
    var st := Run(lim, xs[..t]);
    SortSorts(xs[..t]);
    forall j | t <= j < |xs| ensures forall i | 0 <= i < |st.taken| :: st.taken[i].sn <= xs[j].sn {
      assert CountGreater(xs[..t], xs[j].sn) <= lim.minThreshold;
      CountOfSort(xs[..t], xs[j].sn);
      FewGreaterMeansFrontSmall(st.taken, Sort(st.queue), xs[j].sn);
    }
  }

  /** With the exact condition, nobody is ever late. */
  lemma {:induction false} InTimeMeansNoneLate(lim: Limits, xs: seq<Inst>, t: nat)
    requires t <= |xs| && InTime(lim, xs)
    ensures forall u | 0 <= u <= t :: NoneLate(lim, xs, u)
  {
    if t > 0 {
      InTimeMeansNoneLate(lim, xs, t - 1);
      if DrainPoint(lim, t) {
        DrainLeavesNoneLate(lim, xs, t);
      } else {
        NothingTaken(lim, xs, t);
        assert NoneLate(lim, xs, t - 1);
      }
    } else {
      assert xs[..0] == [];
    }
  }

  lemma NothingTaken(lim: Limits, xs: seq<Inst>, t: nat)
    requires 0 < t <= |xs| && !DrainPoint(lim, t)
    ensures Run(lim, xs[..t]).taken == Run(lim, xs[..t - 1]).taken
  {
    assert xs[..t][..t - 1] == xs[..t - 1];
    RunSize(lim, xs[..t - 1]);
    SizeStep(lim, t - 1);
    ArriveTakesNothing(lim, Run(lim, xs[..t - 1]), xs[t - 1]);
  }

  lemma ArriveTakesNothing(lim: Limits, st: State, x: Inst)
    requires |st.queue| < lim.High()
    ensures Arrive(lim, st, x).taken == st.taken
  {
    PoppedSplits(State(Sort(st.queue + [x]), st.taken), lim.minThreshold);
  }

  lemma FlushedForm(lim: Limits, xs: seq<Inst>)
    ensures Flushed(lim, xs) == Run(lim, xs).taken + Sort(Run(lim, xs).queue)
  {
    var s := Sort(Run(lim, xs).queue);
    PoppedSplits(State(s, Run(lim, xs).taken), 0);
    assert s[..|s|] == s;
  }

  lemma ArriveGrows(lim: Limits, st: State, x: Inst)
    ensures st.taken <= Arrive(lim, st, x).taken
  {
    PoppedSplits(State(Sort(st.queue + [x]), st.taken), lim.minThreshold);
  }

  lemma {:induction false} TakenGrows(lim: Limits, xs: seq<Inst>, t: nat)
    requires t <= |xs|
    ensures Run(lim, xs[..t]).taken <= Run(lim, xs).taken
    decreases |xs| - t
  {
    if t < |xs| {
      TakenGrows(lim, xs, t + 1);
      assert xs[..t + 1][..t] == xs[..t];
      ArriveGrows(lim, Run(lim, xs[..t]), xs[t]);
    } else {
      assert xs[..t] == xs;
    }
  }

  /** The main result: the whole run takes the instructions out in stable
      sequence-number order exactly when the arrivals are in time. */
  lemma FlushedIsSortedIff(lim: Limits, xs: seq<Inst>)
    ensures Flushed(lim, xs) == Sort(xs) <==> InTime(lim, xs)
  {
    if InTime(lim, xs) {
      InTimeMeansNoneLate(lim, xs, |xs|);
      RunInOrder(lim, xs, |xs|);
      assert xs[..|xs|] == xs;
      FlushedForm(lim, xs);
    }
    if Flushed(lim, xs) == Sort(xs) {
      forall t, j | 0 <= t <= j < |xs| && DrainPoint(lim, t)
        ensures CountGreater(xs[..t], xs[j].sn) <= lim.minThreshold
      {
        SortedRunIsInTime(lim, xs, t, j);
      }
    }
  }

  lemma SortedRunIsInTime(lim: Limits, xs: seq<Inst>, t: nat, j: nat)
    requires Flushed(lim, xs) == Sort(xs)
    requires t <= j < |xs| && DrainPoint(lim, t)
    ensures CountGreater(xs[..t], xs[j].sn) <= lim.minThreshold
  {
    var k := xs[j].sn;
    var st := Run(lim, xs[..t]);
    RunSize(lim, xs[..t]);
    TakenGrows(lim, xs, t);
    FlushedForm(lim, xs);
    SortSorts(xs);
    CountOfSort(xs, k);
    CountOfRun(lim, xs[..t], k);
    CountBound(st.queue, k);
    LaterComesAfter(Sort(xs), st.taken, |st.queue|, xs, t, j);
    CountBound(st.taken, k);
  }

  /** In a sorted result, what had left by time t is not larger than any later arrival:
      otherwise everything behind it would be, and the later arrival would have no place. */
  lemma LaterComesAfter(out: seq<Inst>, p: seq<Inst>, waiting: nat, xs: seq<Inst>, t: nat, j: nat)
    requires t <= j < |xs| == |out|
    requires Sorted(out) && p <= out && t == |p| + waiting
    requires CountGreater(out, xs[j].sn) == CountGreater(xs, xs[j].sn)
    requires CountGreater(xs[..t], xs[j].sn) <= CountGreater(p, xs[j].sn) + waiting
    ensures forall i | 0 <= i < |p| :: p[i].sn <= xs[j].sn
  {
    var k, rest := xs[j].sn, out[|p|..];
    assert out == p + rest;
    CountAppend(p, rest, k);
    if exists i | 0 <= i < |p| :: p[i].sn > k {
      BehindLargeIsLarge(p, rest, k);
      assert xs == xs[..t] + xs[t..];
      CountAppend(xs[..t], xs[t..], k);
      CountWithout(xs[t..], j - t, k);
    }
  }

  lemma CountWithout(s: seq<Inst>, i: nat, k: int)
    requires i < |s| && s[i].sn <= k
    ensures CountGreater(s, k) < |s|
  {
    assert s == s[..i] + ([s[i]] + s[i + 1..]);
    CountAppend(s[..i], [s[i]] + s[i + 1..], k);
    CountAppend([s[i]], s[i + 1..], k);
    CountBound(s[..i], k);
    CountBound([s[i]], k);
    CountBound(s[i + 1..], k);
  }

  lemma {:induction false} CountPrefix(s: seq<Inst>, t: nat, k: int)
    requires t <= |s|
    ensures CountGreater(s[..t], k) <= CountGreater(s, k)
  {
    CountAppend(s[..t], s[t..], k);
    assert s == s[..t] + s[t..];
  }

  /** The authors' assumption is enough: bounded disorder in, sorted output out, nothing lost. */
  lemma BoundedDisorderPrintsSorted(lim: Limits, w: Window, xs: seq<Inst>)
    requires BoundedDisorder(lim, xs)
    ensures Flushed(lim, xs) == Sort(xs)
    ensures Select(w, Flushed(lim, xs)) == Select(w, Sort(xs))
  {
    forall t, j | 0 <= t <= j < |xs| && DrainPoint(lim, t)
      ensures CountGreater(xs[..t], xs[j].sn) <= lim.minThreshold
    {
      CountPrefix(xs[..j], t, xs[j].sn);
      assert xs[..j][..t] == xs[..t];
    }
    FlushedIsSortedIff(lim, xs);
  }

  /** Their converse ("otherwise they will appear out of order") is too strong: an
      entry can be late by more than the limit and still meet its batch. */
  lemma DisorderBeyondLimitCanStillSort()
    ensures var xs := [Inst(2, "", "", "", map[]), Inst(1, "", "", "", map[])];
            !BoundedDisorder(Limits(2, 0), xs) && Flushed(Limits(2, 0), xs) == Sort(xs)
  {
    var a, b := Inst(2, "", "", "", map[]), Inst(1, "", "", "", map[]);
    var xs := [a, b];
    assert xs[..1] == [a] && xs[..2] == xs;
    assert CountGreater(xs[..1], xs[1].sn) == 1;
    FlushedIsSortedIff(Limits(2, 0), xs);
  }
}

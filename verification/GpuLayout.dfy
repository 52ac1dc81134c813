/** One list of sequencers for CPUs and GPU: built by one script, taken apart by another one that
    counts from the end of the list. */
module GpuLayout {
  import Arith

  /** The objects of the list, by the controller they belong to. */
  datatype Sequencer =
    | Core(pair: nat, second: bool)
    | Coalescer(tcp: nat)
    | Sqc(sqc: nat)
    | Scalar(cache: nat)
    | CommandTcp(cp: nat)
    | CommandSqc(cp: nat)

  datatype Options = Options(cpus: nat, cus: nat, cuPerSqc: nat, cuPerScalar: nat, cps: nat) {
    /** At least one compute unit; a cache is shared by at least one. */
    predicate Valid() {
      cus >= 1 && cuPerSqc >= 1 && cuPerScalar >= 1
    }

    function Sqcs(): nat
      requires Valid()
    {
      CeilDiv(cus, cuPerSqc)
    }

    function Scalars(): nat
      requires Valid()
    {
      CeilDiv(cus, cuPerScalar)
    }
  }

  /** The ceiling of a quotient. */
  function CeilDiv(n: nat, k: nat): (r: nat)
    requires k >= 1 && n >= 1
    ensures k * (r - 1) < n <= k * r
  {
    var r := (n - 1) / k + 1;
    assert k * ((n - 1) / k) <= n - 1 < k * ((n - 1) / k) + k;
    assert k * r == k * ((n - 1) / k) + k;
    r
  }

  function Cores(n: nat): seq<Sequencer> { seq(2 * n, i requires 0 <= i => Core(i / 2, i % 2 == 1)) }
  function Tcps(n: nat): seq<Sequencer> { seq(n, i requires 0 <= i => Coalescer(i)) }
  function SqcList(n: nat): seq<Sequencer> { seq(n, i requires 0 <= i => Sqc(i)) }
  function ScalarList(n: nat): seq<Sequencer> { seq(n, i requires 0 <= i => Scalar(i)) }
  function Commands(n: nat): seq<Sequencer> {
    seq(2 * n, i requires 0 <= i => if i % 2 == 0 then CommandTcp(i / 2) else CommandSqc(i / 2))
  }

  /** The whole list, in the order in which the controllers are created. */
  ghost function Layout(o: Options): seq<Sequencer>
    requires o.Valid()
  {
    Cores((o.cpus + 1) / 2) + Tcps(o.cus) + SqcList(o.Sqcs()) + ScalarList(o.Scalars()) + Commands(o.cps)
  }

  // ---------- building the list ----------

  method BuildCores(n: nat) returns (s: seq<Sequencer>)
    ensures s == Cores(n)
  {
    s := [];
    for i := 0 to n
      invariant s == Cores(i)
    {
      s := s + [Core(i, false), Core(i, true)];
    }
  }

  method BuildTcps(n: nat) returns (s: seq<Sequencer>)
    ensures s == Tcps(n)
  {
    s := [];
    for i := 0 to n
      invariant s == Tcps(i)
    {
      s := s + [Coalescer(i)];
    }
  }

  method BuildSqcs(n: nat) returns (s: seq<Sequencer>)
    ensures s == SqcList(n)
  {
    s := [];
    for i := 0 to n
      invariant s == SqcList(i)
    {
      s := s + [Sqc(i)];
    }
  }

  method BuildScalars(n: nat) returns (s: seq<Sequencer>)
    ensures s == ScalarList(n)
  {
    s := [];
    for i := 0 to n
      invariant s == ScalarList(i)
    {
      s := s + [Scalar(i)];
    }
  }

  method BuildCommands(n: nat) returns (s: seq<Sequencer>)
    ensures s == Commands(n)
  {
    s := [];
    for i := 0 to n
      invariant s == Commands(i)
    {
      s := s + [CommandTcp(i), CommandSqc(i)];
    }
  }

  method CreateSystem(o: Options) returns (ports: seq<Sequencer>)
    requires o.Valid()
    ensures ports == Layout(o)
  {
    var cores := BuildCores((o.cpus + 1) / 2);
    var tcps := BuildTcps(o.cus);
    var sqcs := BuildSqcs(o.Sqcs());
    var scalars := BuildScalars(o.Scalars());
    var commands := BuildCommands(o.cps);
    ports := cores + tcps + sqcs + scalars + commands;
  }

  // ---------- taking it apart ----------

  /** The start of the GPU part, counted from the end of the list. */
  function GpuStart(o: Options): nat
    requires o.Valid()
  {
    2 * ((o.cpus + 1) / 2)
  }

  ghost predicate CoresAt(ports: seq<Sequencer>, n: nat) {
    n <= |ports| && forall i | 0 <= i < n :: ports[i] == Core(i / 2, i % 2 == 1)
  }

  ghost predicate CoalescersAt(ports: seq<Sequencer>, at: nat, n: nat) {
    at + n <= |ports| && forall i | 0 <= i < n :: ports[at + i] == Coalescer(i)
  }

  ghost predicate SqcsAt(ports: seq<Sequencer>, at: nat, n: nat) {
    at + n <= |ports| && forall i | 0 <= i < n :: ports[at + i] == Sqc(i)
  }

  ghost predicate ScalarsAt(ports: seq<Sequencer>, at: nat, n: nat) {
    at + n <= |ports| && forall i | 0 <= i < n :: ports[at + i] == Scalar(i)
  }

  ghost predicate CommandsAt(ports: seq<Sequencer>, at: nat, n: nat) {
    at + 2 * n <= |ports| && forall i | 0 <= i < n :: CommandAt(ports, at, i)
  }

  ghost predicate CommandAt(ports: seq<Sequencer>, at: nat, i: nat) {
    at + 2 * i + 1 < |ports| && ports[at + 2 * i] == CommandTcp(i) && ports[at + 2 * i + 1] == CommandSqc(i)
  }

  lemma CommandsStandInPairs(n: nat)
    ensures CommandsAt(Commands(n), 0, n)
  {
    forall i | 0 <= i < n ensures CommandAt(Commands(n), 0, i) {
      assert (2 * i) % 2 == 0 && (2 * i + 1) % 2 == 1 && (2 * i + 1) / 2 == i;
    }
  }

  /** Where the parts of the list are. */
  lemma LayoutAt(o: Options, ports: seq<Sequencer>, g: nat, q: nat, s: nat)
    requires o.Valid() && ports == Layout(o) && g == GpuStart(o) && q == o.Sqcs() && s == o.Scalars()
    ensures |ports| == g + o.cus + q + s + 2 * o.cps && o.cpus <= g && CoresAt(ports, g)
    ensures CoalescersAt(ports, g, o.cus) && SqcsAt(ports, g + o.cus, q) && ScalarsAt(ports, g + o.cus + q, s)
    ensures CommandsAt(ports, g + o.cus + q + s, o.cps)
  {
    var a, b, c, d, e := Cores((o.cpus + 1) / 2), Tcps(o.cus), SqcList(q), ScalarList(s), Commands(o.cps);
    PartsAt(ports, a, b, c, d, e, o.cps);
  }

  lemma PartsAt(ports: seq<Sequencer>, a: seq<Sequencer>, b: seq<Sequencer>, c: seq<Sequencer>, d: seq<Sequencer>,
                e: seq<Sequencer>, cps: nat)
    requires ports == a + b + c + d + e
    requires a == Cores(|a| / 2) && b == Tcps(|b|) && c == SqcList(|c|) && d == ScalarList(|d|) && e == Commands(cps)
    ensures CoresAt(ports, |a|) && CoalescersAt(ports, |a|, |b|)
    ensures SqcsAt(ports, |a| + |b|, |c|) && ScalarsAt(ports, |a| + |b| + |c|, |d|)
    ensures CommandsAt(ports, |a| + |b| + |c| + |d|, cps)
  {
    CommandsStandInPairs(cps);
    var n := |a| + |b| + |c| + |d|;
    forall i | 0 <= i < cps ensures CommandAt(ports, n, i) {
      assert CommandAt(e, 0, i);
    }
  }

  /** The running index of a cache shared by k compute units each. */
  method WireShared(ports: seq<Sequencer>, start: nat, n: nat, k: nat) returns (s: seq<Sequencer>, next: nat)
    requires n >= 1 && k >= 1 && start + CeilDiv(n, k) <= |ports|
    ensures |s| == n && next == start + CeilDiv(n, k)
    ensures forall i | 0 <= i < n :: 0 <= i / k && start + i / k < |ports| && s[i] == ports[start + i / k]
  {
    var idx := start;
    s := [];
    assert 0 / k == 0;
    for i := 0 to n
      invariant |s| == i && idx == start + (if i == 0 then 0 else (i - 1) / k)
      invariant forall j | 0 <= j < i :: 0 <= j / k && start + j / k < |ports| && s[j] == ports[start + j / k]
    {
      if i > 0 {
        Arith.DivModStep(i - 1, k);
        if i % k == 0 {
          idx := idx + 1;
        }
      }
      Arith.DivMonotone(i, n - 1, k);
      Arith.DivMonotone(0, i, k);
      s := s + [ports[idx]];
    }
    next := idx + 1;
  }

  /** The coalescers of the list, in its order. */
  ghost function Coalescers(ports: seq<Sequencer>): seq<Sequencer> {
    if ports == [] then []
    else
      var before, last := Coalescers(ports[..|ports| - 1]), ports[|ports| - 1];
      if last.Coalescer? then before + [last] else before
  }

  lemma {:induction false} CoalescersAppend(a: seq<Sequencer>, b: seq<Sequencer>)
    requires (forall i | 0 <= i < |b| :: b[i].Coalescer?) || (forall i | 0 <= i < |b| :: !b[i].Coalescer?)
    ensures Coalescers(a + b) == if b != [] && b[0].Coalescer? then Coalescers(a) + b else Coalescers(a)
  {
    if b == [] {
      assert a + b == a;
    } else {
      var front, last := b[..|b| - 1], b[|b| - 1];
      CoalescersAppend(a, front);
      assert (a + b)[..|a + b| - 1] == a + front;
      assert Coalescers(a) + b == Coalescers(a) + front + [last];
      assert front == [] ==> Coalescers(a) + [last] == Coalescers(a) + b;
    }
  }

  ghost predicate NoCoalescer(s: seq<Sequencer>) {
    forall i | 0 <= i < |s| :: !s[i].Coalescer?
  }

  lemma CoalescersInTheMiddle(a: seq<Sequencer>, b: seq<Sequencer>, c: seq<Sequencer>)
    requires NoCoalescer(a) && NoCoalescer(c) && forall i | 0 <= i < |b| :: b[i].Coalescer?
    ensures Coalescers(a + b + c) == b
  {
    CoalescersAppend([], a);
    assert [] + a == a;
    CoalescersAppend(a, b);
    CoalescersAppend(a + b, c);
    assert [] + b == b;
  }

  lemma CoalescersOfLayout(o: Options)
    requires o.Valid()
    ensures Coalescers(Layout(o)) == Tcps(o.cus)
  {
    var a, b, c := Cores((o.cpus + 1) / 2), Tcps(o.cus), SqcList(o.Sqcs());
    var d, e := ScalarList(o.Scalars()), Commands(o.cps);
    assert a + b + c + d + e == a + b + (c + d + e);
    CoalescersInTheMiddle(a, b, c + d + e);
  }

  lemma {:induction false} CoalescersSoFar(ports: seq<Sequencer>, i: nat)
    requires i < |ports| && ports[i].Coalescer?
    ensures |Coalescers(ports[..i])| < |Coalescers(ports)|
  {
    if i == |ports| - 1 {
    } else {
      assert ports[..|ports| - 1][..i] == ports[..i];
      CoalescersSoFar(ports[..|ports| - 1], i);
    }
  }

  /** The token ports go to the compute units in the order in which coalescers are found; the
      counter never runs past the last unit. */
  method WireTokens(ports: seq<Sequencer>, cus: nat) returns (s: seq<Sequencer>)
    requires |Coalescers(ports)| == cus
    ensures s == Coalescers(ports)
  {
    s := [];
    var token := 0;
    for i := 0 to |ports|
      invariant s == Coalescers(ports[..i]) && token == |s|
    {
      assert ports[..i + 1][..i] == ports[..i];
      if ports[i].Coalescer? {
        CoalescersSoFar(ports, i);
        assert token < cus;  // the unit exists
        s := s + [ports[i]];
        token := token + 1;
      }
    }
    assert ports[..|ports|] == ports;
  }

  /** What every port is connected to: for each CPU, compute unit and command processor. */
  datatype Wiring = Wiring(cpu: seq<Sequencer>, token: seq<Sequencer>, memory: seq<Sequencer>,
                           sqc: seq<Sequencer>, scalar: seq<Sequencer>, cpData: seq<Sequencer>, cpInst: seq<Sequencer>)

  method WireSqcs(ports: seq<Sequencer>, start: nat, n: nat, k: nat) returns (s: seq<Sequencer>, next: nat)
    requires n >= 1 && k >= 1 && SqcsAt(ports, start, CeilDiv(n, k))
    ensures SqcOf(s, n, k) && next == start + CeilDiv(n, k)
  {
    s, next := WireShared(ports, start, n, k);
    SharedStays(n, k);
  }

  method WireScalars(ports: seq<Sequencer>, start: nat, n: nat, k: nat) returns (s: seq<Sequencer>, next: nat)
    requires n >= 1 && k >= 1 && ScalarsAt(ports, start, CeilDiv(n, k))
    ensures ScalarOf(s, n, k) && next == start + CeilDiv(n, k)
  {
    s, next := WireShared(ports, start, n, k);
    SharedStays(n, k);
  }

  function CommandTcps(n: nat): seq<Sequencer> { seq(n, i requires 0 <= i => CommandTcp(i)) }
  function CommandSqcs(n: nat): seq<Sequencer> { seq(n, i requires 0 <= i => CommandSqc(i)) }

  /** Each command processor takes two sequencers: data first, then instructions. */
  method WireCommands(ports: seq<Sequencer>, start: nat, n: nat) returns (data: seq<Sequencer>, inst: seq<Sequencer>)
    requires CommandsAt(ports, start, n)
    ensures data == CommandTcps(n) && inst == CommandSqcs(n)
  {
    data, inst := [], [];
    for i := 0 to n
      invariant data == CommandTcps(i) && inst == CommandSqcs(i)
    {
      assert CommandAt(ports, start, i);
      data := data + [ports[start + i * 2]];
      inst := inst + [ports[start + i * 2 + 1]];
    }
  }

  method WireMemory(ports: seq<Sequencer>, start: nat, n: nat) returns (s: seq<Sequencer>, next: nat)
    requires CoalescersAt(ports, start, n)
    ensures s == Tcps(n) && next == start + n
  {
    s, next := [], start;
    for i := 0 to n
      invariant s == Tcps(i) && next == start + i
    {
      s := s + [ports[next]];
      next := next + 1;
    }
  }

  method WireCpus(ports: seq<Sequencer>, n: nat) returns (s: seq<Sequencer>)
    requires n <= |ports| && CoresAt(ports, n)
    ensures CoreOf(s, n)
  {
    s := [];
    for i := 0 to n
      invariant |s| == i && forall j | 0 <= j < i :: s[j] == Core(j / 2, j % 2 == 1)
    {
      s := s + [ports[i]];
    }
  }

  /** Which compute unit uses which shared cache. */
  ghost predicate SqcOf(s: seq<Sequencer>, n: nat, k: nat)
    requires k >= 1
  {
    |s| == n && forall i | 0 <= i < n :: 0 <= i / k && s[i] == Sqc(i / k)
  }

  ghost predicate ScalarOf(s: seq<Sequencer>, n: nat, k: nat)
    requires k >= 1
  {
    |s| == n && forall i | 0 <= i < n :: 0 <= i / k && s[i] == Scalar(i / k)
  }

  ghost predicate CoreOf(s: seq<Sequencer>, n: nat) {
    |s| == n && forall i | 0 <= i < n :: s[i] == Core(i / 2, i % 2 == 1)
  }

  /** Counting from the end of the list finds for every unit its own sequencers. */
  method Wire(o: Options, ports: seq<Sequencer>) returns (w: Wiring)
    requires o.Valid() && ports == Layout(o)
    ensures CoreOf(w.cpu, o.cpus) && w.memory == w.token == Tcps(o.cus)
    ensures SqcOf(w.sqc, o.cus, o.cuPerSqc) && ScalarOf(w.scalar, o.cus, o.cuPerScalar)
    ensures w.cpData == CommandTcps(o.cps) && w.cpInst == CommandSqcs(o.cps)
  {
    var sqcs, scalars := o.Sqcs(), o.Scalars();
    LayoutAt(o, ports, GpuStart(o), sqcs, scalars);
    CoalescersOfLayout(o);
    var cpu := WireCpus(ports, o.cpus);
    var token := WireTokens(ports, o.cus);
    var idx := |ports| - o.cus - sqcs - scalars;
    idx := idx - o.cps * 2;
    var memory, sqc, scalar, cpData, cpInst := WireGpu(o, ports, idx);
    w := Wiring(cpu, token, memory, sqc, scalar, cpData, cpInst);
  }

  method WireGpu(o: Options, ports: seq<Sequencer>, start: nat)
    returns (memory: seq<Sequencer>, sqc: seq<Sequencer>, scalar: seq<Sequencer>,
             cpData: seq<Sequencer>, cpInst: seq<Sequencer>)
    requires o.Valid() && CoalescersAt(ports, start, o.cus) && SqcsAt(ports, start + o.cus, o.Sqcs())
    requires ScalarsAt(ports, start + o.cus + o.Sqcs(), o.Scalars())
    requires CommandsAt(ports, start + o.cus + o.Sqcs() + o.Scalars(), o.cps)
    ensures memory == Tcps(o.cus) && SqcOf(sqc, o.cus, o.cuPerSqc) && ScalarOf(scalar, o.cus, o.cuPerScalar)
    ensures cpData == CommandTcps(o.cps) && cpInst == CommandSqcs(o.cps)
  {
    var idx := start;
    memory, idx := WireMemory(ports, idx, o.cus);
    sqc, idx := WireSqcs(ports, idx, o.cus, o.cuPerSqc);
    scalar, idx := WireScalars(ports, idx, o.cus, o.cuPerScalar);
    cpData, cpInst := WireCommands(ports, idx, o.cps);
  }

  lemma SharedStays(n: nat, k: nat)
    requires n >= 1 && k >= 1
    ensures forall i | 0 <= i < n :: 0 <= i / k < CeilDiv(n, k)
  {
    forall i | 0 <= i < n ensures 0 <= i / k < CeilDiv(n, k) {
      Arith.DivMonotone(i, n - 1, k);
      Arith.DivMonotone(0, i, k);
    }
  }
}

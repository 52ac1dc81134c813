/** The coherence protocol does not get stuck: while a cache waits, some message can be taken. */
module MiProgress {
  import opened MessageCounts
  import opened MiProtocol
  import opened MiCoherence
  import opened MiRuns

  // ---------- finding a message ----------

  datatype Field = FGetX | FPutX | FFwdTo | FFwdFor | FAck | FNack | FData | FFetch | FWrite

  function Get(v: View, f: Field): nat {
    match f
    case FGetX => v.getx
    case FPutX => v.putx
    case FFwdTo => v.fwdTo
    case FFwdFor => v.fwdFor
    case FAck => v.ack
    case FNack => v.nack
    case FData => v.data
    case FFetch => v.fetch
    case FWrite => v.write
  }

  lemma GetPlus(a: View, b: View, f: Field)
    ensures Get(Plus(a, b), f) == Get(a, f) + Get(b, f)
  {
  }

  lemma {:induction false} FindIn(n: Node, vs: seq<View>, f: Field) returns (i: nat)
    requires Get(Sum(n, vs), f) > 0
    ensures i < |vs| && Get(vs[i], f) > 0
  {
    var k := |vs| - 1;
    GetPlus(Sum(n, vs[..k]), vs[k], f);
    if Get(vs[k], f) > 0 {
      i := k;
    } else {
      i := FindIn(n, vs[..k], f);
    }
  }

  /** What the messages of a field are. */
  predicate OfField(m: Msg, n: Node, f: Field) {
    match f
    case FGetX => m.GetX?
    case FPutX => m.PutX?
    case FFwdTo => m.Fwd? && m.to == n
    case FFwdFor => m.Fwd? && m.req == n
    case FAck => m.WbAck?
    case FNack => m.WbNack?
    case FData => m.Data?
    case FFetch => m.MemRead? || m.MemData?
    case FWrite => m.MemWrite? || m.MemAck?
  }

  lemma FieldOfOne(m: Msg, n: Node, f: Field)
    requires Get(ViewOne(m, n), f) > 0
    ensures OfField(m, n, f)
  {
  }

  lemma Find(net: seq<Msg>, n: Node, f: Field) returns (i: nat)
    requires Get(ViewOf(net, n), f) > 0
    ensures i < |net| && OfField(net[i], n, f)
  {
    i := FindIn(n, Sights(net, n), f);
    FieldOfOne(net[i], n, f);
  }

  // ---------- the order in which the directory took the requests ----------

  /** A forward goes from an earlier owner to a later one. */
  predicate Ordered(stamp: map<Node, nat>, m: Msg) {
    m.Fwd? ==> m.to in stamp && m.req in stamp && stamp[m.to] < stamp[m.req]
  }

  ghost predicate AllOrdered(stamp: map<Node, nat>, net: seq<Msg>) {
    forall i | 0 <= i < |net| :: Ordered(stamp, net[i])
  }

  ghost predicate Stamps(s: State) {
    && (forall n | n in s.stamp :: s.stamp[n] <= s.clock)
    && (s.owner.Some? ==> s.owner.value in s.stamp) && AllOrdered(s.stamp, s.net)
  }

  /** While the directory waits for memory, a message to or from memory is under way. */
  ghost predicate Busy(s: State) {
    s.dir == DirMI ==> exists j :: 0 <= j < |s.net| && ForMemory(s.net[j])
  }

  ghost predicate Orderly(s: State) {
    Structure(s) && Stamps(s) && Busy(s)
  }

  /** A step in which the directory takes no request. */
  lemma QuietStamps(s: State, s': State)
    requires Stamps(s) && s'.stamp == s.stamp && s'.clock == s.clock && (s'.owner == s.owner || s'.owner == None)
    requires AllOrdered(s.stamp, s'.net)
    ensures Stamps(s')
  {
  }

  lemma OrderedWithout(stamp: map<Node, nat>, net: seq<Msg>, i: nat)
    requires AllOrdered(stamp, net) && i < |net|
    ensures AllOrdered(stamp, Without(net, i))
  {
  }

  lemma OrderedSnoc(stamp: map<Node, nat>, net: seq<Msg>, m: Msg)
    requires AllOrdered(stamp, net) && Ordered(stamp, m)
    ensures AllOrdered(stamp, net + [m])
  {
  }

  /** No forward names a cache whose request has not been taken. */
  lemma NotNamed(s: State, i: nat, n: Node, j: nat)
    requires Structure(s) && i < |s.net| && s.net[i] == GetX(n) && n in s.caches && j < |s.net| && s.net[j].Fwd?
    ensures s.net[j].to != n && s.net[j].req != n
  {
    AtOf(s, n);
    Counted(s.net, i, n);
    Counted(s.net, j, n);
  }

  lemma StillOrdered(stamp: map<Node, nat>, n: Node, t: nat, m: Msg)
    requires Ordered(stamp, m) && (m.Fwd? ==> m.to != n && m.req != n)
    ensures Ordered(stamp[n := t], m)
  {
  }

  lemma TakenOrdered(s: State, i: nat, n: Node)
    requires Structure(s) && Stamps(s) && i < |s.net| && s.net[i] == GetX(n) && n in s.caches
    ensures AllOrdered(s.stamp[n := s.clock + 1], s.net)
  {
    forall j | 0 <= j < |s.net| ensures Ordered(s.stamp[n := s.clock + 1], s.net[j]) {
      if s.net[j].Fwd? {
        NotNamed(s, i, n, j);
      }
      StillOrdered(s.stamp, n, s.clock + 1, s.net[j]);
    }
  }

  lemma TakenStamps(s: State, i: nat, n: Node, dir: DirState, m: Msg)
    requires Structure(s) && Stamps(s) && i < |s.net| && s.net[i] == GetX(n) && n in s.caches
    requires m.Fwd? ==> m.req == n && m.to != n && m.to in s.stamp
    ensures Stamps(Take(s, n, dir, Without(s.net, i) + [m]))
  {
    var stamp := s.stamp[n := s.clock + 1];
    TakenOrdered(s, i, n);
    OrderedWithout(stamp, s.net, i);
    OrderedSnoc(stamp, Without(s.net, i), m);
  }

  // ---------- every step keeps the order ----------

  lemma Remains(net: seq<Msg>, i: nat, j: nat) returns (k: nat)
    requires i < |net| && j < |net| && i != j
    ensures k < |net| - 1 && Without(net, i)[k] == net[j]
  {
    k := if j < i then j else j - 1;
  }

  predicate ForMemory(m: Msg) {
    m.MemWrite? || m.MemAck?
  }

  /** One message is taken, and perhaps another one sent. */
  ghost predicate Delivered(s: State, s': State, i: nat, sent: seq<Msg>) {
    && i < |s.net| && |sent| <= 1 && s'.net == Without(s.net, i) + sent
    && s'.stamp == s.stamp && s'.clock == s.clock && (s'.owner == s.owner || s'.owner == None)
  }

  lemma DeliveredStamps(s: State, s': State, i: nat, sent: seq<Msg>)
    requires Stamps(s) && Delivered(s, s', i, sent) && (sent != [] ==> !sent[0].Fwd?)
    ensures Stamps(s')
  {
    OrderedWithout(s.stamp, s.net, i);
    if sent != [] {
      OrderedSnoc(s.stamp, Without(s.net, i), sent[0]);
      assert sent == [sent[0]];
    }
    QuietStamps(s, s');
  }

  lemma DeliveredBusy(s: State, s': State, i: nat, sent: seq<Msg>)
    requires Busy(s) && i < |s.net| && s'.net == Without(s.net, i) + sent
    requires s'.dir == DirMI ==> (s.dir == DirMI && !ForMemory(s.net[i])) || (sent != [] && ForMemory(sent[0]))
    ensures Busy(s')
  {
    if s'.dir == DirMI {
      var rest := Without(s.net, i);
      if sent != [] && ForMemory(sent[0]) {
        assert s'.net[|rest|] == sent[0];
      } else {
        var j :| 0 <= j < |s.net| && ForMemory(s.net[j]);
        var k := Remains(s.net, i, j);
        assert s'.net[k] == s.net[j];
      }
    }
  }

  ghost predicate KeepsOrder(s: State, e: Event) {
    var out := Do(s, e);
    out.Next? ==> Stamps(out.s) && Busy(out.s)
  }

  lemma DeliveryOrder(s: State, s': State, i: nat, sent: seq<Msg>)
    requires Orderly(s) && Delivered(s, s', i, sent) && (sent != [] ==> !sent[0].Fwd?)
    requires s'.dir == DirMI ==> (s.dir == DirMI && !ForMemory(s.net[i])) || (sent != [] && ForMemory(sent[0]))
    ensures Stamps(s') && Busy(s')
  {
    DeliveredStamps(s, s', i, sent);
    DeliveredBusy(s, s', i, sent);
  }

  lemma GetXOrder(s: State, i: nat)
    requires Orderly(s) && i < |s.net| && s.net[i].GetX?
    ensures KeepsOrder(s, Deliver(i))
  {
    var n := s.net[i].req;
    KnownWithout(s.caches.Keys, s.net, i);
    if s.dir == DirI {
      TakenStamps(s, i, n, DirIM, MemRead(n));
    } else if s.dir == DirM {
      AtOf(s, n);
      Counted(s.net, i, n);
      TakenStamps(s, i, n, DirM, Fwd(s.owner.value, n));
    }
  }

  lemma PutXOrder(s: State, i: nat)
    requires Orderly(s) && i < |s.net| && s.net[i].PutX?
    ensures KeepsOrder(s, Deliver(i))
  {
    var PutX(n, d) := s.net[i];
    var out := Do(s, Deliver(i));
    if out.Next? {
      DeliveryOrder(s, out.s, i, if s.owner != Some(n) then [WbNack(n)] else [MemWrite(n, d)]);
    }
  }

  lemma FwdOrder(s: State, i: nat)
    requires Orderly(s) && i < |s.net| && s.net[i].Fwd?
    ensures KeepsOrder(s, Deliver(i))
  {
    var Fwd(to, req) := s.net[i];
    KnownWithout(s.caches.Keys, s.net, i);
    var out := Do(s, Deliver(i));
    if out.Next? {
      FwdOutcome(s, i, to, req);
      DeliveryOrder(s, out.s, i, [Data(req, Handed(s.caches[to]))]);
    }
  }

  lemma CacheOrder(s: State, i: nat)
    requires Orderly(s) && i < |s.net| && (s.net[i].WbAck? || s.net[i].WbNack? || s.net[i].Data?)
    ensures KeepsOrder(s, Deliver(i))
  {
    var out := Do(s, Deliver(i));
    if out.Next? {
      CacheSendsNothing(s, i);
      DeliveryOrder(s, out.s, i, []);
    }
  }

  lemma CacheSendsNothing(s: State, i: nat)
    requires i < |s.net| && (s.net[i].WbAck? || s.net[i].WbNack? || s.net[i].Data?) && Do(s, Deliver(i)).Next?
    ensures Delivered(s, Do(s, Deliver(i)).s, i, []) && Do(s, Deliver(i)).s.dir == s.dir
  {
    assert Without(s.net, i) + [] == Without(s.net, i);
  }

  lemma MemoryOrder(s: State, i: nat)
    requires Orderly(s) && i < |s.net| && (s.net[i].MemRead? || s.net[i].MemWrite? || s.net[i].MemData? || s.net[i].MemAck?)
    ensures KeepsOrder(s, Deliver(i))
  {
    var m, out := s.net[i], Do(s, Deliver(i));
    if out.Next? {
      var sent := match m
        case MemRead(n) => MemData(n, s.memory)
        case MemWrite(n, _) => MemAck(n)
        case MemData(n, d) => Data(n, d)
        case _ => WbAck(m.req);
      DeliveryOrder(s, out.s, i, [sent]);
    }
  }

  lemma SentOrder(s: State, s': State, sent: seq<Msg>)
    requires Orderly(s) && s'.net == s.net + sent && |sent| <= 1 && (sent != [] ==> !sent[0].Fwd?)
    requires s'.dir == s.dir && s'.owner == s.owner && s'.stamp == s.stamp && s'.clock == s.clock
    ensures Stamps(s') && Busy(s')
  {
    if sent != [] {
      OrderedSnoc(s.stamp, s.net, sent[0]);
      assert sent == [sent[0]];
    }
    if s.dir == DirMI {
      var j :| 0 <= j < |s.net| && ForMemory(s.net[j]);
      assert s'.net[j] == s.net[j];
    }
  }

  lemma CpuSends(s: State, e: Event) returns (sent: seq<Msg>)
    requires !e.Deliver? && e.n in s.caches && Do(s, e).Next?
    ensures var s' := Do(s, e).s;
            && s'.net == s.net + sent && |sent| <= 1 && (sent != [] ==> !sent[0].Fwd?)
            && s'.dir == s.dir && s'.owner == s.owner && s'.stamp == s.stamp && s'.clock == s.clock
  {
    var c := s.caches[e.n];
    if c.st == I && !e.Replace? {
      sent := [GetX(e.n)];
    } else if c.st == M && e.Replace? {
      sent := [PutX(e.n, c.data)];
    } else {
      sent := [];
      assert s.net + sent == s.net;
    }
  }

  lemma OrderKept(s: State, e: Event)
    requires Orderly(s)
    ensures KeepsOrder(s, e)
  {
    if e.Deliver? {
      if e.i < |s.net| {
        match s.net[e.i]
        case GetX(_) => GetXOrder(s, e.i);
        case PutX(_, _) => PutXOrder(s, e.i);
        case Fwd(_, _) => FwdOrder(s, e.i);
        case WbAck(_) => CacheOrder(s, e.i);
        case WbNack(_) => CacheOrder(s, e.i);
        case Data(_, _) => CacheOrder(s, e.i);
        case _ => MemoryOrder(s, e.i);
      }
    } else if e.n in s.caches && Do(s, e).Next? {
      var sent := CpuSends(s, e);
      SentOrder(s, Do(s, e).s, sent);
    }
  }

  lemma {:induction false} EveryRunOrderly(nodes: set<Node>, v: Value, es: seq<Event>)
    ensures var r := Run(Init(nodes, v), es); r.Reached? && Orderly(r.s)
  {
    EveryRun(nodes, v, es);
    if es != [] {
      var front, e := es[..|es| - 1], es[|es| - 1];
      EveryRunOrderly(nodes, v, front);
      EveryRun(nodes, v, front);
      OrderKept(Run(Init(nodes, v), front).s, e);
    }
  }

  // ---------- progress ----------

  ghost predicate CanMove(s: State) {
    exists i :: 0 <= i < |s.net| && Do(s, Deliver(i)).Next?
  }

  /** Messages that a controller can always take: those to or from memory, and answers. */
  predicate Welcome(m: Msg) {
    !m.GetX? && !m.PutX? && !m.Fwd?
  }

  lemma WelcomeIsTaken(s: State, j: nat)
    requires j < |s.net| && Welcome(s.net[j])
    ensures !Do(s, Deliver(j)).Stall?
  {
  }

  lemma WelcomeMoves(s: State, j: nat)
    requires Structure(s) && j < |s.net| && Welcome(s.net[j])
    ensures CanMove(s)
  {
    WelcomeIsTaken(s, j);
    StepMoves(s, j);
  }

  lemma StepMoves(s: State, j: nat)
    requires Structure(s) && j < |s.net| && !Do(s, Deliver(j)).Stall?
    ensures CanMove(s)
  {
    StepKept(s, Deliver(j));
  }

  /** A busy directory waits for memory. */
  lemma BusyMoves(s: State)
    requires Orderly(s) && (s.dir == DirIM || s.dir == DirMI)
    ensures CanMove(s)
  {
    if s.dir == DirIM {
      var n := s.owner.value;
      AtOf(s, n);
      var j := Find(s.net, n, FFetch);
      WelcomeMoves(s, j);
    } else {
      var j :| 0 <= j < |s.net| && ForMemory(s.net[j]);
      WelcomeMoves(s, j);
    }
  }

  lemma RequestIsTaken(s: State, i: nat)
    requires i < |s.net| && (s.net[i].GetX? || s.net[i].PutX?) && s.dir != DirIM && s.dir != DirMI
    ensures !Do(s, Deliver(i)).Stall?
  {
  }

  lemma RequestMoves(s: State, i: nat)
    requires Orderly(s) && i < |s.net| && (s.net[i].GetX? || s.net[i].PutX?)
    ensures CanMove(s)
  {
    if s.dir == DirIM || s.dir == DirMI {
      BusyMoves(s);
    } else {
      RequestIsTaken(s, i);
      StepMoves(s, i);
    }
  }

  predicate Waiting(st: CacheState) {
    st != I && st != M
  }

  lemma ForwardIsTaken(s: State, i: nat)
    requires i < |s.net| && s.net[i].Fwd? && s.net[i].to in s.caches
    requires s.caches[s.net[i].to].st != IS && s.caches[s.net[i].to].st != IM
    ensures !Do(s, Deliver(i)).Stall?
  {
  }

  lemma ForwardMoves(s: State, i: nat)
    requires Orderly(s) && i < |s.net| && s.net[i].Fwd? && s.net[i].to in s.caches
    requires s.caches[s.net[i].to].st != IS && s.caches[s.net[i].to].st != IM
    ensures CanMove(s)
  {
    ForwardIsTaken(s, i);
    StepMoves(s, i);
  }

  /** What a waiting cache waits for. */
  lemma WaitsFor(s: State, n: Node) returns (f: Field)
    requires n in s.caches && At(s, n) && Waiting(s.caches[n].st)
    ensures Get(ViewOf(s.net, n), f) > 0
    ensures f == FFwdTo ==> s.caches[n].st == MII
    ensures f == FFwdFor ==> s.caches[n].st == IS || s.caches[n].st == IM
  {
    var v := ViewOf(s.net, n);
    f := if v.getx > 0 then FGetX else if v.putx > 0 then FPutX else if v.nack > 0 then FNack
         else if v.ack > 0 then FAck else if v.write > 0 then FWrite else if v.data > 0 then FData
         else if v.fetch > 0 then FFetch else if v.fwdFor > 0 then FFwdFor else FFwdTo;
  }

  /** While a cache waits, some message can be taken: its own, or one that somebody waits for
      whose request the directory took earlier. */
  lemma {:induction false} WaitingMoves(s: State, n: Node)
    requires Orderly(s) && n in s.caches && Waiting(s.caches[n].st)
    ensures CanMove(s)
    decreases if n in s.stamp then s.stamp[n] else s.clock + 1, 1
  {
    AtOf(s, n);
    var f := WaitsFor(s, n);
    var i := Find(s.net, n, f);
    match f
    case FGetX => RequestMoves(s, i);
    case FPutX => RequestMoves(s, i);
    case FFwdTo => ForwardMoves(s, i);
    case FFwdFor => ChainMoves(s, i, n);
    case _ => WelcomeMoves(s, i);
  }

  lemma ChainMoves(s: State, i: nat, n: Node)
    requires Orderly(s) && i < |s.net| && s.net[i].Fwd? && s.net[i].req == n && n in s.caches
    ensures CanMove(s)
    decreases if n in s.stamp then s.stamp[n] else s.clock + 1, 0
  {
    KnownWithout(s.caches.Keys, s.net, i);
    assert Ordered(s.stamp, s.net[i]);
    var to := s.net[i].to;
    if s.caches[to].st == IS || s.caches[to].st == IM {
      WaitingMoves(s, to);
    } else {
      ForwardMoves(s, i);
    }
  }

  /** In every state of every run: while a cache waits, some message can be taken. */
  lemma NoDeadlock(nodes: set<Node>, v: Value, es: seq<Event>, n: Node)
    requires var r := Run(Init(nodes, v), es); r.Reached? && n in r.s.caches && Waiting(r.s.caches[n].st)
    ensures CanMove(Run(Init(nodes, v), es).s)
  {
    EveryRunOrderly(nodes, v, es);
    WaitingMoves(Run(Init(nodes, v), es).s, n);
  }
}

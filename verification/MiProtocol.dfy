/** What a network holds for one node of a coherence protocol, counted by kind of message. */
module MessageCounts {

  /** All that the network holds for one node. */
  datatype View = View(node: nat, getx: nat, putx: nat, fwdTo: nat, fwdFor: nat, ack: nat, nack: nat, data: nat,
                       fetch: nat, write: nat)

  function Plus(a: View, b: View): View {
    View(a.node, a.getx + b.getx, a.putx + b.putx, a.fwdTo + b.fwdTo, a.fwdFor + b.fwdFor, a.ack + b.ack, a.nack + b.nack,
         a.data + b.data, a.fetch + b.fetch, a.write + b.write)
  }

  function NoMessages(n: nat): View {
    View(n, 0, 0, 0, 0, 0, 0, 0, 0, 0)
  }

  function Sum(n: nat, vs: seq<View>): View {
    if vs == [] then NoMessages(n) else Plus(Sum(n, vs[..|vs| - 1]), vs[|vs| - 1])
  }

  lemma SumSnoc(n: nat, vs: seq<View>, v: View)
    ensures Sum(n, vs + [v]) == Plus(Sum(n, vs), v)
  {
    assert (vs + [v])[..|vs|] == vs;
  }

  lemma PlusSwaps(a: View, b: View, c: View)
    ensures Plus(Plus(a, b), c) == Plus(Plus(a, c), b)
  {
  }

  lemma {:induction false} SumWithout(n: nat, vs: seq<View>, i: nat)
    requires i < |vs|
    ensures Plus(Sum(n, vs[..i] + vs[i + 1..]), vs[i]) == Sum(n, vs)
  {
    var front, last := vs[..|vs| - 1], vs[|vs| - 1];
    if i == |vs| - 1 {
      assert vs[..i] + vs[i + 1..] == front;
    } else {
      var less := front[..i] + front[i + 1..];
      SumWithout(n, front, i);
      assert vs[..i] + vs[i + 1..] == less + [last];
      SumSnoc(n, less, last);
      PlusSwaps(Sum(n, less), last, vs[i]);
    }
  }
}

/** The MI coherence protocol for one cache line: any number of caches, a directory and a memory,
    and a network that delivers messages in any order and after any time. */
module MiProtocol {
  import opened MessageCounts

  type Node = nat
  /** A block: its words. */
  datatype Value = Block(words: seq<int>)

  datatype CacheState = I | II | M | MI | MII | IS | IM
  datatype DirState = DirI | DirM | DirIM | DirMI
  datatype Option<T> = None | Some(value: T)

  /** A cache: its state, its block, the copy kept for a writeback, and the value that the
      processor waits to store. */
  datatype Cache = Cache(st: CacheState, data: Value, tbe: Value, want: Value)

  /** Requests to the directory, forwards and answers to caches, data, and the messages to and
      from memory. */
  datatype Msg =
    | GetX(req: Node) | PutX(req: Node, data: Value)
    | Fwd(to: Node, req: Node) | WbAck(to: Node) | WbNack(to: Node)
    | Data(to: Node, data: Value)
    | MemRead(req: Node) | MemWrite(req: Node, data: Value) | MemData(req: Node, data: Value) | MemAck(req: Node)

  /** `last` is the value of the latest completed store; `stamp` tells in which order the
      directory took the requests. Both only record what happens. */
  datatype State = State(caches: map<Node, Cache>, dir: DirState, owner: Option<Node>, memory: Value,
                         net: seq<Msg>, last: Value, stamp: map<Node, nat>, clock: nat)

  datatype Event = Load(n: Node) | Store(n: Node, v: Value) | Replace(n: Node) | Deliver(i: nat)

  /** What a processor gets to see: the end of its load or of its store. */
  datatype Seen = Nothing | Loaded(n: Node, value: Value) | Stored(n: Node, value: Value)

  /** A stalled event changes nothing; an undefined one stops the simulation with an error. */
  datatype Outcome = Stall | Undefined | Next(s: State, seen: Seen)

  function Without(net: seq<Msg>, i: nat): seq<Msg>
    requires i < |net|
  {
    net[..i] + net[i + 1..]
  }

  function Set(s: State, n: Node, c: Cache, net: seq<Msg>): State {
    s.(caches := s.caches[n := c], net := net)
  }

  // ---------- the transitions ----------

  /** Events from the processor, and replacement. */
  function DoCpu(s: State, e: Event): Outcome
    requires !e.Deliver? && e.n in s.caches
  {
    var c := s.caches[e.n];
    match (c.st, e)
    case (M, Load(n)) => Next(s, Loaded(n, c.data))
    case (M, Store(n, v)) => Next(Set(s, n, c.(data := v), s.net).(last := v), Stored(n, v))
    case (M, Replace(n)) => Next(Set(s, n, c.(st := MI, tbe := c.data), s.net + [PutX(n, c.data)]), Nothing)
    case (I, Load(n)) => Next(Set(s, n, c.(st := IS), s.net + [GetX(n)]), Nothing)
    case (I, Store(n, v)) => Next(Set(s, n, c.(st := IM, want := v), s.net + [GetX(n)]), Nothing)
    case (I, Replace(_)) => Next(s, Nothing)
    case _ => Stall
  }

  /** Forwards, writeback answers and data that reach a cache. */
  function DoCache(s: State, m: Msg, rest: seq<Msg>): Outcome
    requires m.Fwd? || m.WbAck? || m.WbNack? || m.Data?
  {
    if m.to !in s.caches then Undefined
    else
      var c := s.caches[m.to];
      match (c.st, m)
      case (M, Fwd(n, req)) => Next(Set(s, n, c.(st := I), rest + [Data(req, c.data)]), Nothing)
      case (MI, Fwd(n, req)) => Next(Set(s, n, c.(st := II), rest + [Data(req, c.tbe)]), Nothing)
      case (MII, Fwd(n, req)) => Next(Set(s, n, c.(st := I), rest + [Data(req, c.tbe)]), Nothing)
      case (IS, Fwd(_, _)) => Stall
      case (IM, Fwd(_, _)) => Stall
      case (MI, WbAck(n)) => Next(Set(s, n, c.(st := I), rest), Nothing)
      case (MI, WbNack(n)) => Next(Set(s, n, c.(st := MII), rest), Nothing)
      case (II, WbNack(n)) => Next(Set(s, n, c.(st := I), rest), Nothing)
      case (IS, Data(n, d)) => Next(Set(s, n, c.(st := M, data := d), rest), Loaded(n, d))
      case (IM, Data(n, d)) => Next(Set(s, n, c.(st := M, data := c.want), rest).(last := c.want), Stored(n, c.want))
      case _ => Undefined
  }

  /** Requests that reach the directory, and answers from memory. */
  function DoDirectory(s: State, m: Msg, rest: seq<Msg>): Outcome
    requires m.GetX? || m.PutX? || m.MemData? || m.MemAck?
  {
    match m
    case GetX(n) =>
      if s.dir == DirI then Next(Take(s, n, DirIM, rest + [MemRead(n)]), Nothing)
      else if s.dir == DirM then
        if s.owner.None? then Undefined else Next(Take(s, n, DirM, rest + [Fwd(s.owner.value, n)]), Nothing)
      else Stall
    case PutX(n, d) =>
      if s.dir == DirIM || s.dir == DirMI then Stall
      else if s.owner != Some(n) then Next(s.(net := rest + [WbNack(n)]), Nothing)
      else if s.dir == DirM then Next(s.(dir := DirMI, owner := None, net := rest + [MemWrite(n, d)]), Nothing)
      else Undefined
    case MemData(n, d) =>
      if s.dir != DirIM || s.owner.None? then Undefined
      else Next(s.(dir := DirM, net := rest + [Data(n, d)]), Nothing)
    case MemAck(n) =>
      if s.dir != DirMI || s.owner.Some? then Undefined
      else Next(s.(dir := DirI, net := rest + [WbAck(n)]), Nothing)
  }

  /** The requestor becomes the owner. */
  function Take(s: State, n: Node, dir: DirState, net: seq<Msg>): State {
    s.(dir := dir, owner := Some(n), net := net, stamp := s.stamp[n := s.clock + 1], clock := s.clock + 1)
  }

  function DoMemory(s: State, m: Msg, rest: seq<Msg>): Outcome
    requires m.MemRead? || m.MemWrite?
  {
    match m
    case MemRead(n) => Next(s.(net := rest + [MemData(n, s.memory)]), Nothing)
    case MemWrite(n, d) => Next(s.(memory := d, net := rest + [MemAck(n)]), Nothing)
  }

  function Do(s: State, e: Event): Outcome {
    if e.Deliver? then
      if e.i >= |s.net| then Stall
      else
        var m, rest := s.net[e.i], Without(s.net, e.i);
        match m
        case GetX(_) => DoDirectory(s, m, rest)
        case PutX(_, _) => DoDirectory(s, m, rest)
        case MemData(_, _) => DoDirectory(s, m, rest)
        case MemAck(_) => DoDirectory(s, m, rest)
        case MemRead(_) => DoMemory(s, m, rest)
        case MemWrite(_, _) => DoMemory(s, m, rest)
        case _ => DoCache(s, m, rest)
    else if e.n !in s.caches then Stall
    else DoCpu(s, e)
  }

  // ---------- counting messages ----------

  function Bit(b: bool): nat {
    if b then 1 else 0
  }

  /** One message seen from one node. */
  function ViewOne(m: Msg, n: Node): View {
    View(n, Bit(m.GetX? && m.req == n), Bit(m.PutX? && m.req == n), Bit(m.Fwd? && m.to == n), Bit(m.Fwd? && m.req == n),
         Bit(m.WbAck? && m.to == n), Bit(m.WbNack? && m.to == n), Bit(m.Data? && m.to == n),
         Bit((m.MemRead? || m.MemData?) && m.req == n), Bit((m.MemWrite? || m.MemAck?) && m.req == n))
  }

  /** The messages seen from one node. */
  ghost function Sights(net: seq<Msg>, n: Node): seq<View> {
    seq(|net|, i requires 0 <= i < |net| => ViewOne(net[i], n))
  }

  ghost function ViewOf(net: seq<Msg>, n: Node): View {
    Sum(n, Sights(net, n))
  }

  lemma ViewSnoc(net: seq<Msg>, m: Msg, n: Node)
    ensures ViewOf(net + [m], n) == Plus(ViewOf(net, n), ViewOne(m, n))
  {
    assert Sights(net + [m], n) == Sights(net, n) + [ViewOne(m, n)];
    SumSnoc(n, Sights(net, n), ViewOne(m, n));
  }

  lemma ViewWithout(net: seq<Msg>, i: nat, n: Node)
    requires i < |net|
    ensures Plus(ViewOf(Without(net, i), n), ViewOne(net[i], n)) == ViewOf(net, n)
  {
    var vs := Sights(net, n);
    assert Sights(Without(net, i), n) == vs[..i] + vs[i + 1..];
    SumWithout(n, vs, i);
  }

  // ---------- the invariant ----------

  /** What the messages under way for a cache can be, by its state, and how it stands in the
      line of owners: at the end of it, or told to hand the block on. */
  predicate NodeOk(st: CacheState, v: View, own: bool) {
    var waits := v.getx + v.fwdFor + v.data + v.fetch;
    var writes := v.putx + v.nack + v.ack + v.write;
    match st
    case I => waits == 0 && writes == 0 && v.fwdTo == 0 && !own
    case M => waits == 0 && writes == 0 && v.fwdTo + Bit(own) == 1
    case MII => waits == 0 && writes == 0 && v.fwdTo == 1 && !own
    case II => waits == 0 && writes == 1 && v.ack + v.write == 0 && v.fwdTo == 0 && !own
    case MI =>
      && waits == 0 && writes == 1
      && (v.putx == 1 ==> v.fwdTo + Bit(own) == 1)
      && (v.nack == 1 ==> v.fwdTo == 1 && !own)
      && (v.ack + v.write == 1 ==> v.fwdTo == 0 && !own)
    case _ =>
      && waits == 1 && writes == 0
      && (v.getx == 1 ==> v.fwdTo == 0 && !own)
      && (v.getx == 0 ==> v.fwdTo + Bit(own) == 1)
  }

  /** The node has the block, or it is under way to it. */
  predicate Live(st: CacheState, v: View) {
    st == M || st == MII || (st == MI && v.putx + v.nack == 1) || v.data == 1
  }

  /** The block is at this node, or in memory on its behalf. */
  predicate Place(st: CacheState, v: View) {
    Live(st, v) || v.write > 0 || v.fetch > 0
  }

  /** All that holds of one node: its messages, and what the directory is doing for it. */
  predicate NodeInv(st: CacheState, v: View, own: bool, dir: DirState) {
    && NodeOk(st, v, own)
    && (Live(st, v) ==> dir == DirM)
    && (v.write > 0 ==> dir == DirMI)
    && (v.fetch > 0 ==> dir == DirIM && own)
    && (dir == DirIM && own ==> v.fetch == 1)
  }

  ghost predicate At(s: State, n: Node)
    requires n in s.caches
  {
    NodeInv(s.caches[n].st, ViewOf(s.net, n), s.owner == Some(n), s.dir)
  }

  ghost predicate IsPlace(s: State, n: Node)
    requires n in s.caches
  {
    Place(s.caches[n].st, ViewOf(s.net, n))
  }

  /** Messages name caches that exist. */
  predicate Known(caches: set<Node>, m: Msg) {
    match m
    case Fwd(to, req) => to in caches && req in caches
    case WbAck(to) => to in caches
    case WbNack(to) => to in caches
    case Data(to, _) => to in caches
    case _ => m.req in caches
  }

  ghost predicate AllKnown(caches: set<Node>, net: seq<Msg>) {
    forall i | 0 <= i < |net| :: Known(caches, net[i])
  }

  /** The structure that every step keeps: for every node, and the block in one place only. */
  ghost predicate Structure(s: State) {
    && AllKnown(s.caches.Keys, s.net)
    && (s.owner.Some? <==> s.dir == DirM || s.dir == DirIM) && (s.owner.Some? ==> s.owner.value in s.caches)
    && (forall n | n in s.caches :: At(s, n))
    && (forall n, k | n in s.caches && k in s.caches && IsPlace(s, n) && IsPlace(s, k) :: n == k)
  }

  lemma KnownWithout(caches: set<Node>, net: seq<Msg>, i: nat)
    requires AllKnown(caches, net) && i < |net|
    ensures AllKnown(caches, Without(net, i)) && Known(caches, net[i])
  {
  }

  /** A message taken out, another one put in, seen from one node. */
  lemma Exchange(net: seq<Msg>, i: nat, m: Msg, n: Node)
    requires i < |net|
    ensures var rest := ViewOf(Without(net, i), n);
            ViewOf(net, n) == Plus(rest, ViewOne(net[i], n)) && ViewOf(Without(net, i) + [m], n) == Plus(rest, ViewOne(m, n))
  {
    ViewWithout(net, i, n);
    ViewSnoc(Without(net, i), m, n);
  }

  /** A message that does not concern a node. */
  predicate Foreign(m: Msg, n: Node) {
    ViewOne(m, n) == NoMessages(n)
  }

  lemma ForeignExchange(net: seq<Msg>, i: nat, m: Msg, n: Node)
    requires i < |net| && Foreign(net[i], n)
    ensures ViewOf(Without(net, i), n) == ViewOf(net, n)
    ensures Foreign(m, n) ==> ViewOf(Without(net, i) + [m], n) == ViewOf(net, n)
  {
    Exchange(net, i, m, n);
  }

  lemma ForeignSent(net: seq<Msg>, m: Msg, n: Node)
    requires Foreign(m, n)
    ensures ViewOf(net + [m], n) == ViewOf(net, n)
  {
    ViewSnoc(net, m, n);
  }

  /** A message that concerns one node only. */
  ghost predicate OnlyFor(m: Msg, n: Node) {
    forall k: Node | k != n :: Foreign(m, k)
  }

  lemma OnlyForOne(m: Msg, n: Node)
    requires !m.Fwd? && n == if m.WbAck? || m.WbNack? || m.Data? then m.to else m.req
    ensures OnlyFor(m, n)
  {
  }

  /** A node without the block does not notice what the directory does for others. */
  lemma Bystander(st: CacheState, v: View, dir: DirState, dir': DirState)
    requires NodeInv(st, v, false, dir) && !Place(st, v)
    ensures NodeInv(st, v, false, dir')
  {
  }

  // ---------- what a step does to a node ----------

  lemma ForwardServed(st: CacheState, rest: View, own: bool, dir: DirState, to: Node, req: Node, d: Value)
    requires NodeInv(st, Plus(rest, ViewOne(Fwd(to, req), to)), own, dir)
    ensures st != I && st != II
    ensures st == M || st == MII ==> to != req && NodeInv(I, Plus(rest, ViewOne(Data(req, d), to)), own, dir)
    ensures st == MI ==> to != req && NodeInv(II, Plus(rest, ViewOne(Data(req, d), to)), own, dir)
    ensures st == M || st == MI || st == MII ==>
              Live(st, Plus(rest, ViewOne(Fwd(to, req), to))) && dir == DirM
              && !Place(I, Plus(rest, ViewOne(Data(req, d), to))) && !Place(II, Plus(rest, ViewOne(Data(req, d), to)))
  {
  }

  lemma ForwardPromised(st: CacheState, rest: View, own: bool, to: Node, req: Node, d: Value)
    requires NodeInv(st, Plus(rest, ViewOne(Fwd(to, req), req)), own, DirM) && to != req
    ensures NodeInv(st, Plus(rest, ViewOne(Data(req, d), req)), own, DirM)
  {
  }

  lemma AckTaken(st: CacheState, rest: View, own: bool, dir: DirState, n: Node)
    requires NodeInv(st, Plus(rest, ViewOne(WbAck(n), n)), own, dir)
    ensures st == MI && NodeInv(I, rest, own, dir) && !Place(I, rest)
  {
  }

  lemma NackTaken(st: CacheState, rest: View, own: bool, dir: DirState, n: Node)
    requires NodeInv(st, Plus(rest, ViewOne(WbNack(n), n)), own, dir)
    ensures st == MI || st == II
    ensures st == MI ==> NodeInv(MII, rest, own, dir) && Place(st, Plus(rest, ViewOne(WbNack(n), n)))
    ensures st == II ==> NodeInv(I, rest, own, dir) && !Place(I, rest)
  {
  }

  lemma DataTaken(st: CacheState, rest: View, own: bool, dir: DirState, n: Node, d: Value)
    requires NodeInv(st, Plus(rest, ViewOne(Data(n, d), n)), own, dir)
    ensures (st == IS || st == IM) && NodeInv(M, rest, own, dir) && Place(st, Plus(rest, ViewOne(Data(n, d), n)))
  {
  }

  lemma RequestSent(v: View, own: bool, dir: DirState, n: Node)
    requires NodeInv(I, v, own, dir)
    ensures NodeInv(IS, Plus(v, ViewOne(GetX(n), n)), own, dir) && NodeInv(IM, Plus(v, ViewOne(GetX(n), n)), own, dir)
    ensures !Place(IS, Plus(v, ViewOne(GetX(n), n))) && !Place(IM, Plus(v, ViewOne(GetX(n), n)))
  {
  }

  lemma WritebackSent(v: View, own: bool, dir: DirState, n: Node, d: Value)
    requires NodeInv(M, v, own, dir)
    ensures NodeInv(MI, Plus(v, ViewOne(PutX(n, d), n)), own, dir)
  {
  }

  lemma RequestFetched(st: CacheState, rest: View, own: bool, n: Node)
    requires NodeInv(st, Plus(rest, ViewOne(GetX(n), n)), own, DirI)
    ensures NodeInv(st, Plus(rest, ViewOne(MemRead(n), n)), true, DirIM)
  {
  }

  lemma RequestForwarded(st: CacheState, rest: View, own: bool, n: Node, o: Node)
    requires NodeInv(st, Plus(rest, ViewOne(GetX(n), n)), own, DirM)
    ensures !own && !Place(st, Plus(rest, ViewOne(GetX(n), n)))
    ensures n != o ==> NodeInv(st, Plus(rest, ViewOne(Fwd(o, n), n)), true, DirM) && !Place(st, Plus(rest, ViewOne(Fwd(o, n), n)))
  {
  }

  lemma OwnerTold(st: CacheState, rest: View, n: Node, o: Node)
    requires NodeInv(st, Plus(rest, ViewOne(GetX(n), o)), true, DirM) && n != o
    ensures NodeInv(st, Plus(rest, ViewOne(Fwd(o, n), o)), false, DirM)
    ensures Place(st, Plus(rest, ViewOne(Fwd(o, n), o))) ==> Place(st, Plus(rest, ViewOne(GetX(n), o)))
  {
  }

  lemma WritebackRefused(st: CacheState, rest: View, dir: DirState, n: Node, d: Value)
    requires NodeInv(st, Plus(rest, ViewOne(PutX(n, d), n)), false, dir)
    ensures NodeInv(st, Plus(rest, ViewOne(WbNack(n), n)), false, dir)
    ensures Place(st, Plus(rest, ViewOne(WbNack(n), n))) ==> Place(st, Plus(rest, ViewOne(PutX(n, d), n)))
  {
  }

  lemma WritebackAccepted(st: CacheState, rest: View, n: Node, d: Value)
    requires NodeInv(st, Plus(rest, ViewOne(PutX(n, d), n)), true, DirM)
    ensures st == MI && Place(st, Plus(rest, ViewOne(PutX(n, d), n)))
    ensures NodeInv(st, Plus(rest, ViewOne(MemWrite(n, d), n)), false, DirMI)
  {
  }

  lemma Fetched(st: CacheState, rest: View, own: bool, dir: DirState, n: Node, d: Value)
    requires NodeInv(st, Plus(rest, ViewOne(MemData(n, d), n)), own, dir)
    ensures own && dir == DirIM && Place(st, Plus(rest, ViewOne(MemData(n, d), n)))
    ensures NodeInv(st, Plus(rest, ViewOne(Data(n, d), n)), true, DirM)
  {
  }

  lemma Written(st: CacheState, rest: View, own: bool, dir: DirState, n: Node)
    requires NodeInv(st, Plus(rest, ViewOne(MemAck(n), n)), own, dir)
    ensures !own && dir == DirMI && Place(st, Plus(rest, ViewOne(MemAck(n), n)))
    ensures NodeInv(st, Plus(rest, ViewOne(WbAck(n), n)), false, DirI) && !Place(st, Plus(rest, ViewOne(WbAck(n), n)))
  {
  }

  // ---------- what a step does to the state ----------

  /** The state changes at one node, and one message is exchanged for another. */
  ghost predicate Step1(s: State, s': State, i: nat, m: Msg, n: Node, st: CacheState) {
    && i < |s.net| && n in s.caches && s'.net == Without(s.net, i) + [m] && s'.dir == s.dir && s'.owner == s.owner
    && s'.caches.Keys == s.caches.Keys && s'.caches[n].st == st
    && forall k | k in s.caches && k != n :: s'.caches[k] == s.caches[k]
  }

  lemma ServedAtTo(s: State, s': State, i: nat, to: Node, req: Node, d: Value)
    requires to in s.caches && At(s, to)
    requires Step1(s, s', i, Data(req, d), to, if s.caches[to].st == MI then II else I) && s.net[i] == Fwd(to, req)
    requires s.caches[to].st == M || s.caches[to].st == MI || s.caches[to].st == MII
    ensures to != req && s.dir == DirM && IsPlace(s, to) && At(s', to) && !IsPlace(s', to)
  {
    Exchange(s.net, i, Data(req, d), to);
    ForwardServed(s.caches[to].st, ViewOf(Without(s.net, i), to), s.owner == Some(to), s.dir, to, req, d);
  }

  lemma ServedAtReq(s: State, s': State, i: nat, to: Node, req: Node, d: Value, st: CacheState)
    requires Step1(s, s', i, Data(req, d), to, st) && s.net[i] == Fwd(to, req) && to != req && s.dir == DirM
    requires req in s.caches && At(s, req)
    ensures At(s', req)
  {
    Exchange(s.net, i, Data(req, d), req);
    ForwardPromised(s.caches[req].st, ViewOf(Without(s.net, i), req), s.owner == Some(req), to, req, d);
  }

  lemma ServedAtOther(s: State, s': State, i: nat, to: Node, req: Node, d: Value, st: CacheState, k: Node)
    requires Step1(s, s', i, Data(req, d), to, st) && s.net[i] == Fwd(to, req)
    requires k in s.caches && At(s, k) && k != to && k != req
    ensures At(s', k) && (IsPlace(s', k) <==> IsPlace(s, k))
  {
    ForeignExchange(s.net, i, Data(req, d), k);
  }

  /** Enough for the structure of a state. */
  lemma StructureOf(s: State, p: Node)
    requires AllKnown(s.caches.Keys, s.net)
    requires (s.owner.Some? <==> s.dir == DirM || s.dir == DirIM) && (s.owner.Some? ==> s.owner.value in s.caches)
    requires forall n | n in s.caches :: At(s, n) && (IsPlace(s, n) ==> n == p)
    ensures Structure(s)
  {
  }

  lemma OnlyPlace(s: State, p: Node, n: Node)
    requires Structure(s) && p in s.caches && n in s.caches && IsPlace(s, p) && IsPlace(s, n)
    ensures n == p
  {
  }

  lemma AtOf(s: State, n: Node)
    requires Structure(s) && n in s.caches
    ensures At(s, n)
  {
  }

  lemma ServedAt(s: State, s': State, i: nat, to: Node, req: Node, d: Value, n: Node)
    requires Structure(s) && to in s.caches && req in s.caches && n in s.caches
    requires Step1(s, s', i, Data(req, d), to, if s.caches[to].st == MI then II else I) && s.net[i] == Fwd(to, req)
    requires s.caches[to].st == M || s.caches[to].st == MI || s.caches[to].st == MII
    ensures At(s', n) && (IsPlace(s', n) ==> n == req)
  {
    AtOf(s, to);
    AtOf(s, n);
    ServedAtTo(s, s', i, to, req, d);
    if n == req {
      ServedAtReq(s, s', i, to, req, d, s'.caches[to].st);
    } else if n != to {
      ServedAtOther(s, s', i, to, req, d, s'.caches[to].st, n);
      if IsPlace(s', n) {
        OnlyPlace(s, to, n);
      }
    }
  }

  lemma ServedKeeps(s: State, s': State, i: nat, to: Node, req: Node, d: Value)
    requires Structure(s) && to in s.caches && req in s.caches
    requires Step1(s, s', i, Data(req, d), to, if s.caches[to].st == MI then II else I) && s.net[i] == Fwd(to, req)
    requires s.caches[to].st == M || s.caches[to].st == MI || s.caches[to].st == MII
    ensures Structure(s')
  {
    forall n | n in s'.caches ensures At(s', n) && (IsPlace(s', n) ==> n == req) {
      ServedAt(s, s', i, to, req, d, n);
    }
    KnownWithout(s.caches.Keys, s.net, i);
    KnownSnoc(s.caches.Keys, Without(s.net, i), Data(req, d));
    StructureOf(s', req);
  }

  // A message is taken by a cache.

  ghost predicate Taken(s: State, s': State, i: nat, n: Node, st: CacheState) {
    && i < |s.net| && n in s.caches && s'.net == Without(s.net, i) && s'.dir == s.dir && s'.owner == s.owner
    && s'.caches.Keys == s.caches.Keys && s'.caches[n].st == st
    && forall k | k in s.caches && k != n :: s'.caches[k] == s.caches[k]
  }

  lemma TakenAtOther(s: State, s': State, i: nat, n: Node, st: CacheState, k: Node)
    requires Taken(s, s', i, n, st) && Foreign(s.net[i], k) && k in s.caches && k != n && At(s, k)
    ensures At(s', k) && (IsPlace(s', k) <==> IsPlace(s, k))
  {
    ForeignExchange(s.net, i, s.net[i], k);
  }

  lemma AckAt(s: State, s': State, i: nat, n: Node)
    requires Taken(s, s', i, n, I) && s.net[i] == WbAck(n) && At(s, n)
    ensures At(s', n) && !IsPlace(s', n)
  {
    ViewWithout(s.net, i, n);
    AckTaken(s.caches[n].st, ViewOf(s'.net, n), s.owner == Some(n), s.dir, n);
  }

  lemma AckKeeps(s: State, s': State, i: nat, n: Node)
    requires Structure(s) && Taken(s, s', i, n, I) && s.net[i] == WbAck(n)
    ensures Structure(s')
  {
    AtOf(s, n);
    AckAt(s, s', i, n);
    OnlyForOne(s.net[i], n);
    OthersKeep(s, s', i, n, I);
  }

  lemma NackAt(s: State, s': State, i: nat, n: Node)
    requires n in s.caches && (s.caches[n].st == MI || s.caches[n].st == II) && At(s, n)
    requires Taken(s, s', i, n, if s.caches[n].st == MI then MII else I) && s.net[i] == WbNack(n)
    ensures At(s', n) && (IsPlace(s', n) ==> IsPlace(s, n))
  {
    ViewWithout(s.net, i, n);
    NackTaken(s.caches[n].st, ViewOf(s'.net, n), s.owner == Some(n), s.dir, n);
  }

  lemma NackKeeps(s: State, s': State, i: nat, n: Node)
    requires Structure(s) && n in s.caches && (s.caches[n].st == MI || s.caches[n].st == II)
    requires Taken(s, s', i, n, if s.caches[n].st == MI then MII else I) && s.net[i] == WbNack(n)
    ensures Structure(s')
  {
    AtOf(s, n);
    NackAt(s, s', i, n);
    OnlyForOne(s.net[i], n);
    OthersKeep(s, s', i, n, s'.caches[n].st);
  }

  lemma DataAt(s: State, s': State, i: nat, n: Node, d: Value)
    requires Taken(s, s', i, n, M) && s.net[i] == Data(n, d) && At(s, n)
    ensures At(s', n) && IsPlace(s, n)
  {
    ViewWithout(s.net, i, n);
    DataTaken(s.caches[n].st, ViewOf(s'.net, n), s.owner == Some(n), s.dir, n, d);
  }

  lemma DataKeeps(s: State, s': State, i: nat, n: Node, d: Value)
    requires Structure(s) && Taken(s, s', i, n, M) && s.net[i] == Data(n, d)
    ensures Structure(s')
  {
    AtOf(s, n);
    DataAt(s, s', i, n, d);
    OnlyForOne(s.net[i], n);
    OthersKeep(s, s', i, n, M);
  }

  /** The receiver is in order, and has the block only if it had it before. */
  lemma OthersKeep(s: State, s': State, i: nat, n: Node, st: CacheState)
    requires Structure(s) && Taken(s, s', i, n, st) && OnlyFor(s.net[i], n)
    requires At(s', n) && (IsPlace(s', n) ==> IsPlace(s, n))
    ensures Structure(s')
  {
    forall k | k in s'.caches ensures At(s', k) && (IsPlace(s', k) ==> IsPlace(s, k)) {
      if k != n {
        AtOf(s, k);
        TakenAtOther(s, s', i, n, st, k);
      }
    }
    KnownWithout(s.caches.Keys, s.net, i);
    PlacesKept(s, s');
  }

  lemma PlacesKept(s: State, s': State)
    requires Structure(s) && s'.caches.Keys == s.caches.Keys && AllKnown(s'.caches.Keys, s'.net)
    requires (s'.owner.Some? <==> s'.dir == DirM || s'.dir == DirIM) && (s'.owner.Some? ==> s'.owner.value in s'.caches)
    requires forall k | k in s'.caches :: At(s', k) && (IsPlace(s', k) ==> IsPlace(s, k))
    ensures Structure(s')
  {
  }

  // A cache sends a message.

  ghost predicate Sent(s: State, s': State, m: Msg, n: Node, st: CacheState) {
    && n in s.caches && s'.net == s.net + [m] && s'.dir == s.dir && s'.owner == s.owner
    && s'.caches.Keys == s.caches.Keys && s'.caches[n].st == st
    && forall k | k in s.caches && k != n :: s'.caches[k] == s.caches[k]
  }

  lemma SentAtOther(s: State, s': State, m: Msg, n: Node, st: CacheState, k: Node)
    requires Sent(s, s', m, n, st) && Foreign(m, k) && k in s.caches && k != n && At(s, k)
    ensures At(s', k) && (IsPlace(s', k) <==> IsPlace(s, k))
  {
    ForeignSent(s.net, m, k);
  }

  lemma SentKeeps(s: State, s': State, m: Msg, n: Node, st: CacheState)
    requires Structure(s) && Sent(s, s', m, n, st) && Known(s.caches.Keys, m) && OnlyFor(m, n)
    requires At(s', n) && (IsPlace(s', n) ==> IsPlace(s, n))
    ensures Structure(s')
  {
    forall k | k in s'.caches ensures At(s', k) && (IsPlace(s', k) ==> IsPlace(s, k)) {
      if k != n {
        AtOf(s, k);
        SentAtOther(s, s', m, n, st, k);
      }
    }
    KnownSnoc(s.caches.Keys, s.net, m);
    PlacesKept(s, s');
  }

  lemma KnownSnoc(caches: set<Node>, net: seq<Msg>, m: Msg)
    requires AllKnown(caches, net) && Known(caches, m)
    ensures AllKnown(caches, net + [m])
  {
  }

  lemma RequestAt(s: State, s': State, n: Node, st: CacheState)
    requires n in s.caches && s.caches[n].st == I && (st == IS || st == IM) && Sent(s, s', GetX(n), n, st) && At(s, n)
    ensures At(s', n) && !IsPlace(s', n)
  {
    ViewSnoc(s.net, GetX(n), n);
    RequestSent(ViewOf(s.net, n), s.owner == Some(n), s.dir, n);
  }

  lemma RequestKeeps(s: State, s': State, n: Node, st: CacheState)
    requires Structure(s) && n in s.caches && s.caches[n].st == I && (st == IS || st == IM) && Sent(s, s', GetX(n), n, st)
    ensures Structure(s')
  {
    AtOf(s, n);
    RequestAt(s, s', n, st);
    OnlyForOne(GetX(n), n);
    SentKeeps(s, s', GetX(n), n, st);
  }

  lemma ReplaceAt(s: State, s': State, n: Node, d: Value)
    requires n in s.caches && s.caches[n].st == M && Sent(s, s', PutX(n, d), n, MI) && At(s, n)
    ensures At(s', n) && IsPlace(s, n)
  {
    ViewSnoc(s.net, PutX(n, d), n);
    WritebackSent(ViewOf(s.net, n), s.owner == Some(n), s.dir, n, d);
  }

  lemma ReplaceKeeps(s: State, s': State, n: Node, d: Value)
    requires Structure(s) && n in s.caches && s.caches[n].st == M && Sent(s, s', PutX(n, d), n, MI)
    ensures Structure(s')
  {
    AtOf(s, n);
    ReplaceAt(s, s', n, d);
    OnlyForOne(PutX(n, d), n);
    SentKeeps(s, s', PutX(n, d), n, MI);
  }

  // The directory or the memory exchanges a message for another one.

  ghost predicate Answered(s: State, s': State, i: nat, m: Msg, dir: DirState, owner: Option<Node>) {
    && i < |s.net| && s'.net == Without(s.net, i) + [m] && s'.caches == s.caches && s'.dir == dir && s'.owner == owner
  }

  lemma AnsweredKnown(s: State, s': State, i: nat, m: Msg, dir: DirState, owner: Option<Node>)
    requires Structure(s) && Answered(s, s', i, m, dir, owner) && Known(s.caches.Keys, m)
    ensures AllKnown(s'.caches.Keys, s'.net) && Known(s.caches.Keys, s.net[i])
  {
    KnownWithout(s.caches.Keys, s.net, i);
  }

  /** Nobody else has the block, and the answer is for n. */
  lemma AnsweredAtOther(s: State, s': State, i: nat, m: Msg, dir: DirState, owner: Option<Node>, k: Node)
    requires Answered(s, s', i, m, dir, owner) && k in s.caches && At(s, k) && !IsPlace(s, k)
    requires Foreign(s.net[i], k) && Foreign(m, k) && s.owner != Some(k) && owner != Some(k)
    ensures At(s', k) && !IsPlace(s', k)
  {
    ForeignExchange(s.net, i, m, k);
    Bystander(s.caches[k].st, ViewOf(s.net, k), s.dir, dir);
  }

  /** Another node has the block: this one stays as it is. */
  lemma AnsweredElsewhere(s: State, s': State, i: nat, m: Msg, dir: DirState, owner: Option<Node>, n: Node, k: Node)
    requires Structure(s) && Answered(s, s', i, m, dir, owner) && n in s.caches && k in s.caches && k != n
    requires IsPlace(s, n) && OnlyFor(s.net[i], n) && OnlyFor(m, n) && s.owner != Some(k) && owner != Some(k)
    ensures At(s', k) && !IsPlace(s', k)
  {
    AtOf(s, k);
    if IsPlace(s, k) {
      OnlyPlace(s, n, k);
    }
    AnsweredAtOther(s, s', i, m, dir, owner, k);
  }

  lemma FetchAt(s: State, s': State, i: nat, n: Node, k: Node)
    requires Structure(s) && s.dir == DirI && Answered(s, s', i, MemRead(n), DirIM, Some(n)) && s.net[i] == GetX(n)
    requires k in s.caches
    ensures At(s', k) && (IsPlace(s', k) ==> k == n)
  {
    AtOf(s, k);
    if k == n {
      Exchange(s.net, i, MemRead(n), n);
      RequestFetched(s.caches[n].st, ViewOf(Without(s.net, i), n), s.owner == Some(n), n);
    } else {
      AnsweredAtOther(s, s', i, MemRead(n), DirIM, Some(n), k);
    }
  }

  lemma FetchKeeps(s: State, s': State, i: nat, n: Node)
    requires Structure(s) && s.dir == DirI && Answered(s, s', i, MemRead(n), DirIM, Some(n)) && s.net[i] == GetX(n)
    ensures Structure(s')
  {
    KnownWithout(s.caches.Keys, s.net, i);
    AnsweredKnown(s, s', i, MemRead(n), DirIM, Some(n));
    forall k | k in s'.caches ensures At(s', k) && (IsPlace(s', k) ==> k == n) {
      FetchAt(s, s', i, n, k);
    }
    StructureOf(s', n);
  }

  lemma RedirectAt(s: State, s': State, i: nat, n: Node, o: Node, k: Node)
    requires Structure(s) && s.dir == DirM && s.owner == Some(o) && i < |s.net| && s.net[i] == GetX(n)
    requires Answered(s, s', i, Fwd(o, n), DirM, Some(n)) && k in s.caches && n in s.caches
    ensures n != o && At(s', k) && (IsPlace(s', k) ==> IsPlace(s, k))
  {
    AtOf(s, n);
    AtOf(s, k);
    Exchange(s.net, i, Fwd(o, n), n);
    RequestForwarded(s.caches[n].st, ViewOf(Without(s.net, i), n), s.owner == Some(n), n, o);
    if k == o {
      Exchange(s.net, i, Fwd(o, n), o);
      OwnerTold(s.caches[o].st, ViewOf(Without(s.net, i), o), n, o);
    } else if k != n {
      ForeignExchange(s.net, i, Fwd(o, n), k);
    }
  }

  lemma RedirectKeeps(s: State, s': State, i: nat, n: Node, o: Node)
    requires Structure(s) && s.dir == DirM && s.owner == Some(o) && i < |s.net| && s.net[i] == GetX(n)
    requires Answered(s, s', i, Fwd(o, n), DirM, Some(n))
    ensures Structure(s')
  {
    KnownWithout(s.caches.Keys, s.net, i);
    AnsweredKnown(s, s', i, Fwd(o, n), DirM, Some(n));
    forall k | k in s'.caches ensures At(s', k) && (IsPlace(s', k) ==> IsPlace(s, k)) {
      RedirectAt(s, s', i, n, o, k);
    }
    PlacesKept(s, s');
  }

  lemma RefuseAtSelf(s: State, s': State, i: nat, n: Node, d: Value)
    requires s.owner != Some(n) && i < |s.net| && s.net[i] == PutX(n, d) && n in s.caches && At(s, n)
    requires Answered(s, s', i, WbNack(n), s.dir, s.owner)
    ensures At(s', n) && (IsPlace(s', n) ==> IsPlace(s, n))
  {
    Exchange(s.net, i, WbNack(n), n);
    WritebackRefused(s.caches[n].st, ViewOf(Without(s.net, i), n), s.dir, n, d);
  }

  lemma RefuseAt(s: State, s': State, i: nat, n: Node, d: Value, k: Node)
    requires Structure(s) && s.owner != Some(n) && i < |s.net| && s.net[i] == PutX(n, d) && k in s.caches
    requires Answered(s, s', i, WbNack(n), s.dir, s.owner)
    ensures At(s', k) && (IsPlace(s', k) ==> IsPlace(s, k))
  {
    AtOf(s, k);
    if k == n {
      RefuseAtSelf(s, s', i, n, d);
    } else {
      OnlyForOne(s.net[i], n);
      OnlyForOne(WbNack(n), n);
      SameSight(s.net, i, WbNack(n), k);
    }
  }

  lemma RefuseKeeps(s: State, s': State, i: nat, n: Node, d: Value)
    requires Structure(s) && s.owner != Some(n) && i < |s.net| && s.net[i] == PutX(n, d)
    requires Answered(s, s', i, WbNack(n), s.dir, s.owner)
    ensures Structure(s')
  {
    KnownWithout(s.caches.Keys, s.net, i);
    AnsweredKnown(s, s', i, WbNack(n), s.dir, s.owner);
    forall k | k in s'.caches ensures At(s', k) && (IsPlace(s', k) ==> IsPlace(s, k)) {
      RefuseAt(s, s', i, n, d, k);
    }
    PlacesKept(s, s');
  }

  lemma AcceptAt(s: State, s': State, i: nat, n: Node, d: Value, k: Node)
    requires Structure(s) && s.dir == DirM && s.owner == Some(n) && i < |s.net| && s.net[i] == PutX(n, d)
    requires Answered(s, s', i, MemWrite(n, d), DirMI, None) && k in s.caches && n in s.caches
    ensures At(s', k) && (IsPlace(s', k) ==> k == n)
  {
    AtOf(s, n);
    AcceptAtSelf(s, s', i, n, d);
    if k != n {
      OnlyForOne(s.net[i], n);
      OnlyForOne(MemWrite(n, d), n);
      AnsweredElsewhere(s, s', i, MemWrite(n, d), DirMI, None, n, k);
    }
  }

  lemma AcceptAtSelf(s: State, s': State, i: nat, n: Node, d: Value)
    requires s.dir == DirM && s.owner == Some(n) && i < |s.net| && s.net[i] == PutX(n, d) && n in s.caches && At(s, n)
    requires Answered(s, s', i, MemWrite(n, d), DirMI, None)
    ensures s.caches[n].st == MI && IsPlace(s, n) && At(s', n)
  {
    Exchange(s.net, i, MemWrite(n, d), n);
    WritebackAccepted(s.caches[n].st, ViewOf(Without(s.net, i), n), n, d);
  }

  lemma AcceptKeeps(s: State, s': State, i: nat, n: Node, d: Value)
    requires Structure(s) && s.dir == DirM && s.owner == Some(n) && i < |s.net| && s.net[i] == PutX(n, d)
    requires Answered(s, s', i, MemWrite(n, d), DirMI, None)
    ensures Structure(s')
  {
    KnownWithout(s.caches.Keys, s.net, i);
    AnsweredKnown(s, s', i, MemWrite(n, d), DirMI, None);
    forall k | k in s'.caches ensures At(s', k) && (IsPlace(s', k) ==> k == n) {
      AcceptAt(s, s', i, n, d, k);
    }
    StructureOf(s', n);
  }

  lemma FetchedAtSelf(s: State, s': State, i: nat, n: Node, d: Value)
    requires i < |s.net| && s.net[i] == MemData(n, d) && n in s.caches && At(s, n)
    requires Answered(s, s', i, Data(n, d), DirM, s.owner)
    ensures s.dir == DirIM && s.owner == Some(n) && IsPlace(s, n) && At(s', n)
  {
    Exchange(s.net, i, Data(n, d), n);
    Fetched(s.caches[n].st, ViewOf(Without(s.net, i), n), s.owner == Some(n), s.dir, n, d);
  }

  lemma FetchedAt(s: State, s': State, i: nat, n: Node, d: Value, k: Node)
    requires Structure(s) && i < |s.net| && s.net[i] == MemData(n, d) && k in s.caches && n in s.caches
    requires Answered(s, s', i, Data(n, d), DirM, s.owner)
    ensures s.dir == DirIM && s.owner == Some(n) && At(s', k) && (IsPlace(s', k) ==> k == n)
  {
    AtOf(s, n);
    FetchedAtSelf(s, s', i, n, d);
    if k != n {
      OnlyForOne(s.net[i], n);
      OnlyForOne(Data(n, d), n);
      AnsweredElsewhere(s, s', i, Data(n, d), DirM, s.owner, n, k);
    }
  }

  lemma FetchedKeeps(s: State, s': State, i: nat, n: Node, d: Value)
    requires Structure(s) && i < |s.net| && s.net[i] == MemData(n, d) && Answered(s, s', i, Data(n, d), DirM, s.owner)
    ensures Structure(s')
  {
    KnownWithout(s.caches.Keys, s.net, i);
    AnsweredKnown(s, s', i, Data(n, d), DirM, s.owner);
    FetchedAt(s, s', i, n, d, n);
    forall k | k in s'.caches ensures At(s', k) && (IsPlace(s', k) ==> k == n) {
      FetchedAt(s, s', i, n, d, k);
    }
    StructureOf(s', n);
  }

  lemma WrittenAtSelf(s: State, s': State, i: nat, n: Node)
    requires i < |s.net| && s.net[i] == MemAck(n) && n in s.caches && At(s, n)
    requires (s.owner.Some? <==> s.dir == DirM || s.dir == DirIM) && Answered(s, s', i, WbAck(n), DirI, s.owner)
    ensures s.dir == DirMI && s.owner == None && IsPlace(s, n) && At(s', n) && !IsPlace(s', n)
  {
    Exchange(s.net, i, WbAck(n), n);
    Written(s.caches[n].st, ViewOf(Without(s.net, i), n), s.owner == Some(n), s.dir, n);
  }

  lemma WrittenAt(s: State, s': State, i: nat, n: Node, k: Node)
    requires Structure(s) && i < |s.net| && s.net[i] == MemAck(n) && k in s.caches && n in s.caches
    requires Answered(s, s', i, WbAck(n), DirI, s.owner)
    ensures s.dir == DirMI && s.owner == None && At(s', k) && !IsPlace(s', k)
  {
    AtOf(s, n);
    WrittenAtSelf(s, s', i, n);
    if k != n {
      OnlyForOne(s.net[i], n);
      OnlyForOne(WbAck(n), n);
      AnsweredElsewhere(s, s', i, WbAck(n), DirI, s.owner, n, k);
    }
  }

  lemma WrittenKeeps(s: State, s': State, i: nat, n: Node)
    requires Structure(s) && i < |s.net| && s.net[i] == MemAck(n) && Answered(s, s', i, WbAck(n), DirI, s.owner)
    ensures Structure(s')
  {
    KnownWithout(s.caches.Keys, s.net, i);
    AnsweredKnown(s, s', i, WbAck(n), DirI, s.owner);
    WrittenAt(s, s', i, n, n);
    forall k | k in s'.caches ensures At(s', k) && (IsPlace(s', k) ==> k == n) {
      WrittenAt(s, s', i, n, k);
    }
    StructureOf(s', n);
  }

  lemma SameSight(net: seq<Msg>, i: nat, m: Msg, k: Node)
    requires i < |net| && ViewOne(net[i], k) == ViewOne(m, k)
    ensures ViewOf(Without(net, i) + [m], k) == ViewOf(net, k)
  {
    Exchange(net, i, m, k);
  }

  lemma MemorySight(m: Msg, m': Msg, k: Node)
    requires ((m.MemRead? && m'.MemData?) || (m.MemWrite? && m'.MemAck?)) && m.req == m'.req
    ensures ViewOne(m, k) == ViewOne(m', k)
  {
  }

  lemma MemoryAt(s: State, s': State, i: nat, m: Msg, k: Node)
    requires i < |s.net| && Answered(s, s', i, m, s.dir, s.owner) && k in s.caches && At(s, k)
    requires ((s.net[i].MemRead? && m.MemData?) || (s.net[i].MemWrite? && m.MemAck?)) && m.req == s.net[i].req
    ensures At(s', k) && (IsPlace(s', k) ==> IsPlace(s, k))
  {
    MemorySight(s.net[i], m, k);
    SameSight(s.net, i, m, k);
  }

  /** Memory answers: nobody sees a difference. */
  lemma MemoryKeeps(s: State, s': State, i: nat, m: Msg)
    requires Structure(s) && i < |s.net| && Answered(s, s', i, m, s.dir, s.owner)
    requires ((s.net[i].MemRead? && m.MemData?) || (s.net[i].MemWrite? && m.MemAck?)) && m.req == s.net[i].req
    ensures Structure(s')
  {
    KnownWithout(s.caches.Keys, s.net, i);
    AnsweredKnown(s, s', i, m, s.dir, s.owner);
    forall k | k in s'.caches ensures At(s', k) && (IsPlace(s', k) ==> IsPlace(s, k)) {
      AtOf(s, k);
      MemoryAt(s, s', i, m, k);
    }
    PlacesKept(s, s');
  }

  // ---------- every step keeps the structure, and none is undefined ----------

  ghost predicate Kept(s: State, e: Event) {
    var out := Do(s, e);
    !out.Undefined? && (out.Next? ==> Structure(out.s))
  }

  lemma FwdKept(s: State, i: nat)
    requires Structure(s) && i < |s.net| && s.net[i].Fwd?
    ensures Kept(s, Deliver(i))
  {
    var Fwd(to, req) := s.net[i];
    KnownWithout(s.caches.Keys, s.net, i);
    AtOf(s, to);
    FwdFinds(s, i, to, req);
    var c, out := s.caches[to], Do(s, Deliver(i));
    if out.Next? {
      ServedKeeps(s, out.s, i, to, req, if c.st == M then c.data else c.tbe);
    }
  }

  lemma FwdFinds(s: State, i: nat, to: Node, req: Node)
    requires i < |s.net| && s.net[i] == Fwd(to, req) && to in s.caches && At(s, to)
    ensures s.caches[to].st != I && s.caches[to].st != II
  {
    ViewWithout(s.net, i, to);
    ForwardServed(s.caches[to].st, ViewOf(Without(s.net, i), to), s.owner == Some(to), s.dir, to, req, s.last);
  }

  lemma AckFinds(s: State, i: nat, n: Node)
    requires i < |s.net| && s.net[i] == WbAck(n) && n in s.caches && At(s, n)
    ensures s.caches[n].st == MI
  {
    ViewWithout(s.net, i, n);
    AckTaken(s.caches[n].st, ViewOf(Without(s.net, i), n), s.owner == Some(n), s.dir, n);
  }

  lemma AckKept(s: State, i: nat)
    requires Structure(s) && i < |s.net| && s.net[i].WbAck?
    ensures Kept(s, Deliver(i))
  {
    var n := s.net[i].to;
    KnownWithout(s.caches.Keys, s.net, i);
    AtOf(s, n);
    AckFinds(s, i, n);
    AckKeeps(s, Do(s, Deliver(i)).s, i, n);
  }

  lemma NackFinds(s: State, i: nat, n: Node)
    requires i < |s.net| && s.net[i] == WbNack(n) && n in s.caches && At(s, n)
    ensures s.caches[n].st == MI || s.caches[n].st == II
  {
    ViewWithout(s.net, i, n);
    NackTaken(s.caches[n].st, ViewOf(Without(s.net, i), n), s.owner == Some(n), s.dir, n);
  }

  lemma NackKept(s: State, i: nat)
    requires Structure(s) && i < |s.net| && s.net[i].WbNack?
    ensures Kept(s, Deliver(i))
  {
    var n := s.net[i].to;
    KnownWithout(s.caches.Keys, s.net, i);
    AtOf(s, n);
    NackFinds(s, i, n);
    NackKeeps(s, Do(s, Deliver(i)).s, i, n);
  }

  lemma DataFinds(s: State, i: nat, n: Node, d: Value)
    requires i < |s.net| && s.net[i] == Data(n, d) && n in s.caches && At(s, n)
    ensures s.caches[n].st == IS || s.caches[n].st == IM
  {
    ViewWithout(s.net, i, n);
    DataTaken(s.caches[n].st, ViewOf(Without(s.net, i), n), s.owner == Some(n), s.dir, n, d);
  }

  lemma DataKept(s: State, i: nat)
    requires Structure(s) && i < |s.net| && s.net[i].Data?
    ensures Kept(s, Deliver(i))
  {
    var Data(n, d) := s.net[i];
    KnownWithout(s.caches.Keys, s.net, i);
    AtOf(s, n);
    DataFinds(s, i, n, d);
    DataKeeps(s, Do(s, Deliver(i)).s, i, n, d);
  }

  lemma GetXKept(s: State, i: nat)
    requires Structure(s) && i < |s.net| && s.net[i].GetX?
    ensures Kept(s, Deliver(i))
  {
    var n, out := s.net[i].req, Do(s, Deliver(i));
    if s.dir == DirI {
      FetchKeeps(s, out.s, i, n);
    } else if s.dir == DirM {
      RedirectKeeps(s, out.s, i, n, s.owner.value);
    }
  }

  lemma PutXKept(s: State, i: nat)
    requires Structure(s) && i < |s.net| && s.net[i].PutX?
    ensures Kept(s, Deliver(i))
  {
    var PutX(n, d) := s.net[i];
    var out := Do(s, Deliver(i));
    if s.dir == DirI || s.dir == DirM {
      if s.owner != Some(n) {
        RefuseKeeps(s, out.s, i, n, d);
      } else {
        AcceptKeeps(s, out.s, i, n, d);
      }
    }
  }

  lemma MemDataFinds(s: State, i: nat, n: Node, d: Value)
    requires i < |s.net| && s.net[i] == MemData(n, d) && n in s.caches && At(s, n)
    ensures s.owner == Some(n) && s.dir == DirIM
  {
    ViewWithout(s.net, i, n);
    Fetched(s.caches[n].st, ViewOf(Without(s.net, i), n), s.owner == Some(n), s.dir, n, d);
  }

  lemma MemDataKept(s: State, i: nat)
    requires Structure(s) && i < |s.net| && s.net[i].MemData?
    ensures Kept(s, Deliver(i))
  {
    var MemData(n, d) := s.net[i];
    KnownWithout(s.caches.Keys, s.net, i);
    AtOf(s, n);
    MemDataFinds(s, i, n, d);
    FetchedKeeps(s, Do(s, Deliver(i)).s, i, n, d);
  }

  lemma MemAckFinds(s: State, i: nat, n: Node)
    requires i < |s.net| && s.net[i] == MemAck(n) && n in s.caches && At(s, n)
    ensures s.owner != Some(n) && s.dir == DirMI
  {
    ViewWithout(s.net, i, n);
    Written(s.caches[n].st, ViewOf(Without(s.net, i), n), s.owner == Some(n), s.dir, n);
  }

  lemma MemAckKept(s: State, i: nat)
    requires Structure(s) && i < |s.net| && s.net[i].MemAck?
    ensures Kept(s, Deliver(i))
  {
    var n := s.net[i].req;
    KnownWithout(s.caches.Keys, s.net, i);
    AtOf(s, n);
    MemAckFinds(s, i, n);
    WrittenKeeps(s, Do(s, Deliver(i)).s, i, n);
  }

  lemma MemoryKept(s: State, i: nat)
    requires Structure(s) && i < |s.net| && (s.net[i].MemRead? || s.net[i].MemWrite?)
    ensures Kept(s, Deliver(i))
  {
    var s', m := Do(s, Deliver(i)).s, s.net[i];
    MemoryKeeps(s, s', i, if m.MemRead? then MemData(m.req, s.memory) else MemAck(m.req));
  }

  lemma CpuKept(s: State, e: Event)
    requires Structure(s) && !e.Deliver? && e.n in s.caches
    ensures Kept(s, e)
  {
    var st := s.caches[e.n].st;
    if st == I {
      IdleKept(s, e);
    } else if st == M {
      OwnerKept(s, e);
    }
  }

  lemma IdleKept(s: State, e: Event)
    requires Structure(s) && !e.Deliver? && e.n in s.caches && s.caches[e.n].st == I
    ensures Kept(s, e)
  {
    if e.Load? {
      RequestKeeps(s, Do(s, e).s, e.n, IS);
    } else if e.Store? {
      RequestKeeps(s, Do(s, e).s, e.n, IM);
    }
  }

  lemma OwnerKept(s: State, e: Event)
    requires Structure(s) && !e.Deliver? && e.n in s.caches && s.caches[e.n].st == M
    ensures Kept(s, e)
  {
    if e.Replace? {
      ReplaceKeeps(s, Do(s, e).s, e.n, s.caches[e.n].data);
    } else if e.Store? {
      SameStructure(s, Do(s, e).s);
    }
  }

  lemma SameStructure(s: State, s': State)
    requires Structure(s) && s'.net == s.net && s'.dir == s.dir && s'.owner == s.owner
    requires s'.caches.Keys == s.caches.Keys && forall k | k in s.caches :: s'.caches[k].st == s.caches[k].st
    ensures Structure(s')
  {
    forall k | k in s'.caches ensures At(s', k) && (IsPlace(s', k) ==> IsPlace(s, k)) {
      AtOf(s, k);
    }
    PlacesKept(s, s');
  }

  /** Whatever happens next: there is a transition for it, and the structure is kept. */
  lemma StepKept(s: State, e: Event)
    requires Structure(s)
    ensures Kept(s, e)
  {
    if e.Deliver? {
      if e.i < |s.net| {
        match s.net[e.i]
        case GetX(_) => GetXKept(s, e.i);
        case PutX(_, _) => PutXKept(s, e.i);
        case Fwd(_, _) => FwdKept(s, e.i);
        case WbAck(_) => AckKept(s, e.i);
        case WbNack(_) => NackKept(s, e.i);
        case Data(_, _) => DataKept(s, e.i);
        case MemData(_, _) => MemDataKept(s, e.i);
        case MemAck(_) => MemAckKept(s, e.i);
        case _ => MemoryKept(s, e.i);
      }
    } else if e.n in s.caches {
      CpuKept(s, e);
    }
  }
}

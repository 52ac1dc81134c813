/** What the coherence protocol is for: a load sees the latest store. */
module MiCoherence {
  import opened MessageCounts
  import opened MiProtocol

  // ---------- where the latest value is ----------

  ghost predicate CacheVal(s: State, n: Node)
    requires n in s.caches
  {
    var c, v := s.caches[n], ViewOf(s.net, n);
    (c.st == M ==> c.data == s.last) && (c.st == MII || (c.st == MI && v.putx + v.nack == 1) ==> c.tbe == s.last)
  }

  /** Data under way is the latest value; a writeback carries what its sender has kept. */
  predicate MsgVal(s: State, m: Msg) {
    match m
    case Data(_, d) => d == s.last
    case MemData(_, d) => d == s.last
    case MemWrite(_, d) => d == s.last
    case MemAck(_) => s.memory == s.last
    case PutX(n, d) => n in s.caches && s.caches[n].st == MI ==> d == s.caches[n].tbe
    case _ => true
  }

  ghost predicate Values(s: State) {
    && (s.dir == DirI || s.dir == DirIM ==> s.memory == s.last)
    && (forall n | n in s.caches :: CacheVal(s, n))
    && (forall i | 0 <= i < |s.net| :: MsgVal(s, s.net[i]))
  }

  ghost predicate Inv(s: State) {
    Structure(s) && Values(s)
  }

  /** A message in the network is counted. */
  lemma Counted(net: seq<Msg>, i: nat, n: Node)
    requires i < |net|
    ensures var one, v := ViewOne(net[i], n), ViewOf(net, n);
            && one.getx <= v.getx && one.putx <= v.putx && one.fwdTo <= v.fwdTo && one.fwdFor <= v.fwdFor
            && one.ack <= v.ack && one.nack <= v.nack && one.data <= v.data && one.fetch <= v.fetch && one.write <= v.write
  {
    ViewWithout(net, i, n);
  }

  predicate Carries(m: Msg) {
    m.Data? || m.MemData? || m.MemWrite? || m.MemAck?
  }

  function Receiver(m: Msg): Node
    requires Carries(m)
  {
    if m.Data? then m.to else m.req
  }

  /** A message that carries the block makes its receiver the place of the block. */
  lemma CarrierIsPlace(s: State, i: nat)
    requires Structure(s) && i < |s.net| && Carries(s.net[i])
    ensures Receiver(s.net[i]) in s.caches && IsPlace(s, Receiver(s.net[i]))
  {
    var n := Receiver(s.net[i]);
    KnownWithout(s.caches.Keys, s.net, i);
    AtOf(s, n);
    Counted(s.net, i, n);
  }

  /** A cache in M: no message carries the block. */
  lemma NothingCarried(s: State, n: Node, i: nat)
    requires Structure(s) && n in s.caches && s.caches[n].st == M && i < |s.net|
    ensures !Carries(s.net[i]) && s.dir == DirM
  {
    AtOf(s, n);
    if Carries(s.net[i]) {
      CarrierIsPlace(s, i);
      OnlyPlace(s, n, Receiver(s.net[i]));
      Counted(s.net, i, n);
    }
  }

  /** Writebacks carry what their senders have kept. */
  ghost predicate KeptCopies(s: State) {
    forall i | 0 <= i < |s.net| && s.net[i].PutX? :: MsgVal(s, s.net[i])
  }

  /** The place of the block decides about all values. */
  lemma CacheValElsewhere(s: State, p: Node, n: Node)
    requires Structure(s) && p in s.caches && n in s.caches && IsPlace(s, p) && n != p
    ensures CacheVal(s, n)
  {
    AtOf(s, n);
    if IsPlace(s, n) {
      OnlyPlace(s, p, n);
    }
  }

  /** With a cache in M that has the latest value, all values are right. */
  lemma ValuesAtOwner(s: State, n: Node)
    requires Structure(s) && n in s.caches && s.caches[n].st == M && s.caches[n].data == s.last && KeptCopies(s)
    ensures Values(s)
  {
    AtOf(s, n);
    forall k | k in s.caches ensures CacheVal(s, k) {
      if k != n {
        CacheValElsewhere(s, n, k);
      }
    }
    forall i | 0 <= i < |s.net| ensures MsgVal(s, s.net[i]) {
      NothingCarried(s, n, i);
    }
  }

  // ---------- steps that move values but do not change them ----------

  /** Nothing but the latest value is written, and no cache starts a writeback. */
  ghost predicate SameValues(s: State, s': State) {
    && s'.last == s.last && (s'.memory == s.memory || s'.memory == s'.last) && s'.caches.Keys == s.caches.Keys
    && forall n | n in s.caches && s'.caches[n].st == MI :: s.caches[n].st == MI && s'.caches[n].tbe == s.caches[n].tbe
  }

  lemma MsgValKept(s: State, s': State, m: Msg)
    requires SameValues(s, s') && MsgVal(s, m)
    ensures MsgVal(s', m)
  {
  }

  ghost predicate NetVals(s: State, net: seq<Msg>) {
    forall i | 0 <= i < |net| :: MsgVal(s, net[i])
  }

  lemma NetValsWithout(s: State, s': State, i: nat)
    requires SameValues(s, s') && NetVals(s, s.net) && i < |s.net|
    ensures NetVals(s', Without(s.net, i)) && MsgVal(s, s.net[i])
  {
    var rest := Without(s.net, i);
    forall j | 0 <= j < |rest| ensures MsgVal(s', rest[j]) {
      assert rest[j] == s.net[if j < i then j else j + 1];
      MsgValKept(s, s', rest[j]);
    }
  }

  lemma NetValsSnoc(s: State, net: seq<Msg>, m: Msg)
    requires NetVals(s, net) && MsgVal(s, m)
    ensures NetVals(s, net + [m])
  {
  }

  /** An unchanged cache keeps its value when no writeback of it is started or refused. */
  lemma CacheValKept(s: State, s': State, n: Node)
    requires n in s.caches && n in s'.caches && s'.caches[n] == s.caches[n] && s'.last == s.last
    requires At(s, n) && CacheVal(s, n)
    requires ViewOf(s'.net, n).putx + ViewOf(s'.net, n).nack <= ViewOf(s.net, n).putx + ViewOf(s.net, n).nack
    ensures CacheVal(s', n)
  {
  }

  lemma WritebacksExchanged(net: seq<Msg>, i: nat, m: Msg, n: Node)
    requires i < |net| && !m.PutX? && (m.WbNack? ==> net[i].PutX? && net[i].req == m.to)
    ensures var v, v' := ViewOf(net, n), ViewOf(Without(net, i) + [m], n);
            v'.putx + v'.nack <= v.putx + v.nack
  {
    Exchange(net, i, m, n);
  }

  lemma WritebacksDropped(net: seq<Msg>, i: nat, n: Node)
    requires i < |net|
    ensures var v, v' := ViewOf(net, n), ViewOf(Without(net, i), n); v'.putx + v'.nack <= v.putx + v.nack
  {
    ViewWithout(net, i, n);
  }

  lemma CacheValExchanged(s: State, s': State, i: nat, m: Msg, n: Node)
    requires Inv(s) && i < |s.net| && SameValues(s, s') && s'.net == Without(s.net, i) + [m]
    requires !m.PutX? && (m.WbNack? ==> s.net[i].PutX? && s.net[i].req == m.to)
    requires n in s.caches && s'.caches[n] == s.caches[n]
    ensures CacheVal(s', n)
  {
    AtOf(s, n);
    WritebacksExchanged(s.net, i, m, n);
    CacheValKept(s, s', n);
  }

  /** The directory, or the holder of the block, exchanges a message for another one. */
  lemma ExchangeKeepsValues(s: State, s': State, i: nat, m: Msg)
    requires Inv(s) && i < |s.net| && SameValues(s, s') && s'.net == Without(s.net, i) + [m] && MsgVal(s', m)
    requires !m.PutX? && (m.WbNack? ==> s.net[i].PutX? && s.net[i].req == m.to)
    requires s'.dir == DirI || s'.dir == DirIM ==> s'.memory == s'.last
    requires forall n | n in s.caches :: s'.caches[n] == s.caches[n] || s'.caches[n].st == I || s'.caches[n].st == II
    ensures Values(s')
  {
    NetValsWithout(s, s', i);
    NetValsSnoc(s', Without(s.net, i), m);
    forall n | n in s'.caches ensures CacheVal(s', n) {
      if s'.caches[n] == s.caches[n] {
        CacheValExchanged(s, s', i, m, n);
      }
    }
  }

  /** A cache takes an answer to its writeback. */
  lemma AnswerKeepsValues(s: State, s': State, i: nat, n: Node)
    requires Inv(s) && i < |s.net| && SameValues(s, s') && s'.net == Without(s.net, i) && s'.dir == s.dir
    requires n in s.caches && CacheVal(s', n) && forall k | k in s.caches && k != n :: s'.caches[k] == s.caches[k]
    ensures Values(s')
  {
    NetValsWithout(s, s', i);
    forall k | k in s'.caches ensures CacheVal(s', k) {
      if k != n {
        AtOf(s, k);
        WritebacksDropped(s.net, i, k);
        CacheValKept(s, s', k);
      }
    }
  }

  // ---------- every step keeps the values ----------

  ghost predicate KeepsValues(s: State, e: Event) {
    var out := Do(s, e);
    out.Next? ==> Values(out.s)
  }

  /** A cache that is told to hand the block on, and can, has the latest value. */
  lemma HolderHasLast(s: State, i: nat, to: Node, req: Node)
    requires Inv(s) && i < |s.net| && s.net[i] == Fwd(to, req) && to in s.caches
    ensures var c := s.caches[to];
            (c.st == M ==> c.data == s.last) && (c.st == MI || c.st == MII ==> c.tbe == s.last)
  {
    AtOf(s, to);
    Counted(s.net, i, to);
    assert CacheVal(s, to);
  }

  function Handed(c: Cache): Value {
    if c.st == M then c.data else c.tbe
  }

  lemma FwdOutcome(s: State, i: nat, to: Node, req: Node)
    requires i < |s.net| && s.net[i] == Fwd(to, req) && to in s.caches && Do(s, Deliver(i)).Next?
    ensures var c := s.caches[to];
            && (c.st == M || c.st == MI || c.st == MII)
            && Do(s, Deliver(i)).s == Set(s, to, c.(st := if c.st == MI then II else I), Without(s.net, i) + [Data(req, Handed(c))])
  {
  }

  lemma HandingIsPlain(s: State, s': State, to: Node, net: seq<Msg>)
    requires to in s.caches
    requires var c := s.caches[to]; s' == Set(s, to, c.(st := if c.st == MI then II else I), net)
    ensures SameValues(s, s')
  {
  }

  lemma FwdValsAfter(s: State, s': State, i: nat, to: Node, req: Node)
    requires Inv(s) && i < |s.net| && s.net[i] == Fwd(to, req) && to in s.caches
    requires var c := s.caches[to];
             && (c.st == M || c.st == MI || c.st == MII)
             && s' == Set(s, to, c.(st := if c.st == MI then II else I), Without(s.net, i) + [Data(req, Handed(c))])
    ensures Values(s')
  {
    HolderHasLast(s, i, to, req);
    HandingIsPlain(s, s', to, s'.net);
    ExchangeKeepsValues(s, s', i, Data(req, Handed(s.caches[to])));
  }

  lemma FwdVals(s: State, i: nat)
    requires Inv(s) && i < |s.net| && s.net[i].Fwd?
    ensures KeepsValues(s, Deliver(i))
  {
    var Fwd(to, req) := s.net[i];
    KnownWithout(s.caches.Keys, s.net, i);
    if Do(s, Deliver(i)).Next? {
      FwdOutcome(s, i, to, req);
      FwdValsAfter(s, Do(s, Deliver(i)).s, i, to, req);
    }
  }

  lemma NackedHasLast(s: State, i: nat, n: Node)
    requires Inv(s) && i < |s.net| && s.net[i] == WbNack(n) && n in s.caches && s.caches[n].st == MI
    ensures s.caches[n].tbe == s.last
  {
    AtOf(s, n);
    Counted(s.net, i, n);
    assert CacheVal(s, n);
  }

  lemma AnswerOutcome(s: State, i: nat, n: Node)
    requires i < |s.net| && (s.net[i] == WbAck(n) || s.net[i] == WbNack(n)) && Do(s, Deliver(i)).Next?
    ensures n in s.caches && (s.caches[n].st == MI || s.caches[n].st == II)
    ensures var c := s.caches[n];
            Do(s, Deliver(i)).s == Set(s, n, c.(st := if c.st == MI && s.net[i].WbNack? then MII else I), Without(s.net, i))
  {
  }

  lemma AnswerIsPlain(s: State, s': State, i: nat, n: Node)
    requires i < |s.net| && n in s.caches
    requires var c := s.caches[n];
             && s' == Set(s, n, c.(st := if c.st == MI && s.net[i].WbNack? then MII else I), Without(s.net, i))
             && (c.st == MI && s.net[i].WbNack? ==> c.tbe == s.last)
    ensures SameValues(s, s') && CacheVal(s', n) && s'.net == Without(s.net, i) && s'.dir == s.dir
    ensures forall k | k in s.caches && k != n :: s'.caches[k] == s.caches[k]
  {
  }

  lemma AnswerValsAfter(s: State, s': State, i: nat, n: Node)
    requires Inv(s) && i < |s.net| && (s.net[i] == WbAck(n) || s.net[i] == WbNack(n)) && n in s.caches
    requires var c := s.caches[n];
             s' == Set(s, n, c.(st := if c.st == MI && s.net[i].WbNack? then MII else I), Without(s.net, i))
    ensures Values(s')
  {
    if s.caches[n].st == MI && s.net[i].WbNack? {
      NackedHasLast(s, i, n);
    }
    AnswerIsPlain(s, s', i, n);
    AnswerKeepsValues(s, s', i, n);
  }

  lemma AnswerVals(s: State, i: nat)
    requires Inv(s) && i < |s.net| && (s.net[i].WbAck? || s.net[i].WbNack?)
    ensures KeepsValues(s, Deliver(i))
  {
    if Do(s, Deliver(i)).Next? {
      AnswerOutcome(s, i, s.net[i].to);
      AnswerValsAfter(s, Do(s, Deliver(i)).s, i, s.net[i].to);
    }
  }

  /** A cache takes the block and has the latest value then. */
  ghost predicate Settles(s: State, s': State, i: nat, n: Node) {
    && i < |s.net| && s'.net == Without(s.net, i) && s'.caches.Keys == s.caches.Keys
    && n in s.caches && s'.caches[n].st == M && s'.caches[n].data == s'.last
    && forall k | k in s.caches && k != n :: s'.caches[k] == s.caches[k]
  }

  lemma CopyKept(s: State, s': State, n: Node, m: Msg)
    requires m.PutX? && MsgVal(s, m) && s'.caches.Keys == s.caches.Keys && n in s.caches && s'.caches[n].st != MI
    requires forall k | k in s.caches && k != n :: s'.caches[k] == s.caches[k]
    ensures MsgVal(s', m)
  {
  }

  lemma CopiesWithout(s: State, s': State, i: nat, n: Node)
    requires NetVals(s, s.net) && Settles(s, s', i, n)
    ensures KeptCopies(s')
  {
    forall j | 0 <= j < |s'.net| && s'.net[j].PutX? ensures MsgVal(s', s'.net[j]) {
      assert s'.net[j] == s.net[if j < i then j else j + 1];
      CopyKept(s, s', n, s'.net[j]);
    }
  }

  lemma SettledVals(s: State, s': State, i: nat, n: Node)
    requires Inv(s) && Structure(s') && Settles(s, s', i, n)
    ensures Values(s')
  {
    CopiesWithout(s, s', i, n);
    ValuesAtOwner(s', n);
  }

  lemma DataSettles(s: State, i: nat, n: Node)
    requires i < |s.net| && s.net[i] == Data(n, s.last) && Do(s, Deliver(i)).Next?
    ensures Settles(s, Do(s, Deliver(i)).s, i, n)
  {
  }

  lemma DataVals(s: State, i: nat)
    requires Inv(s) && i < |s.net| && s.net[i].Data?
    ensures KeepsValues(s, Deliver(i))
  {
    assert MsgVal(s, s.net[i]);
    var n, out := s.net[i].to, Do(s, Deliver(i));
    if out.Next? {
      StepKept(s, Deliver(i));
      DataSettles(s, i, n);
      SettledVals(s, out.s, i, n);
    }
  }

  lemma GetXVals(s: State, i: nat)
    requires Inv(s) && i < |s.net| && s.net[i].GetX?
    ensures KeepsValues(s, Deliver(i))
  {
    var n, out := s.net[i].req, Do(s, Deliver(i));
    if s.dir == DirI {
      ExchangeKeepsValues(s, out.s, i, MemRead(n));
    } else if out.Next? {
      ExchangeKeepsValues(s, out.s, i, Fwd(s.owner.value, n));
    }
  }

  /** What the owner writes back is the latest value. */
  lemma WritebackHasLast(s: State, i: nat, n: Node, d: Value)
    requires Inv(s) && i < |s.net| && s.net[i] == PutX(n, d) && s.owner == Some(n) && n in s.caches
    ensures d == s.last
  {
    AtOf(s, n);
    Counted(s.net, i, n);
    assert CacheVal(s, n) && MsgVal(s, s.net[i]);
  }

  lemma PutXVals(s: State, i: nat)
    requires Inv(s) && i < |s.net| && s.net[i].PutX?
    ensures KeepsValues(s, Deliver(i))
  {
    var PutX(n, d) := s.net[i];
    var out := Do(s, Deliver(i));
    KnownWithout(s.caches.Keys, s.net, i);
    if out.Next? {
      if s.owner != Some(n) {
        ExchangeKeepsValues(s, out.s, i, WbNack(n));
      } else {
        WritebackHasLast(s, i, n, d);
        ExchangeKeepsValues(s, out.s, i, MemWrite(n, d));
      }
    }
  }

  lemma MemAnswerVals(s: State, i: nat)
    requires Inv(s) && i < |s.net| && (s.net[i].MemData? || s.net[i].MemAck?)
    ensures KeepsValues(s, Deliver(i))
  {
    var m, out := s.net[i], Do(s, Deliver(i));
    assert MsgVal(s, m);
    if out.Next? {
      ExchangeKeepsValues(s, out.s, i, if m.MemData? then Data(m.req, m.data) else WbAck(m.req));
    }
  }

  lemma FetchIsLast(s: State, i: nat)
    requires Inv(s) && i < |s.net| && s.net[i].MemRead?
    ensures s.dir == DirIM && s.memory == s.last
  {
    KnownWithout(s.caches.Keys, s.net, i);
    AtOf(s, s.net[i].req);
    Counted(s.net, i, s.net[i].req);
  }

  lemma MemoryVals(s: State, i: nat)
    requires Inv(s) && i < |s.net| && (s.net[i].MemRead? || s.net[i].MemWrite?)
    ensures KeepsValues(s, Deliver(i))
  {
    var m, out := s.net[i], Do(s, Deliver(i));
    assert MsgVal(s, m);
    if m.MemRead? {
      FetchIsLast(s, i);
      ExchangeKeepsValues(s, out.s, i, MemData(m.req, s.memory));
    } else {
      ExchangeKeepsValues(s, out.s, i, MemAck(m.req));
    }
  }

  // ---------- the processor ----------

  ghost predicate SendsOnly(s: State, s': State, n: Node, m: Msg) {
    && n in s.caches && s'.net == s.net + [m] && s'.dir == s.dir && s'.memory == s.memory && s'.last == s.last
    && s'.caches.Keys == s.caches.Keys && forall k | k in s.caches && k != n :: s'.caches[k] == s.caches[k]
  }

  lemma SendKeepsOthers(s: State, s': State, n: Node, m: Msg, k: Node)
    requires Inv(s) && SendsOnly(s, s', n, m) && k in s.caches && k != n && OnlyFor(m, n)
    ensures CacheVal(s', k)
  {
    AtOf(s, k);
    ForeignSent(s.net, m, k);
    CacheValKept(s, s', k);
  }

  lemma RequestCacheVal(s: State, s': State, n: Node, k: Node)
    requires Inv(s) && SendsOnly(s, s', n, GetX(n)) && (s'.caches[n].st == IS || s'.caches[n].st == IM) && k in s'.caches
    ensures CacheVal(s', k)
  {
    if k != n {
      OnlyForOne(GetX(n), n);
      SendKeepsOthers(s, s', n, GetX(n), k);
    }
  }

  lemma RequestMsgVal(s: State, s': State, n: Node, j: nat)
    requires Inv(s) && SendsOnly(s, s', n, GetX(n)) && (s'.caches[n].st == IS || s'.caches[n].st == IM) && j < |s'.net|
    ensures MsgVal(s', s'.net[j])
  {
    if j < |s.net| {
      MsgValKept(s, s', s.net[j]);
    }
  }

  lemma RequestVals(s: State, s': State, n: Node)
    requires Inv(s) && SendsOnly(s, s', n, GetX(n)) && (s'.caches[n].st == IS || s'.caches[n].st == IM)
    ensures Values(s')
  {
    forall k | k in s'.caches ensures CacheVal(s', k) {
      RequestCacheVal(s, s', n, k);
    }
    forall j | 0 <= j < |s'.net| ensures MsgVal(s', s'.net[j]) {
      RequestMsgVal(s, s', n, j);
    }
  }

  lemma NoWritebackYet(s: State, n: Node, j: nat)
    requires Structure(s) && n in s.caches && s.caches[n].st == M && j < |s.net|
    ensures !(s.net[j].PutX? && s.net[j].req == n)
  {
    AtOf(s, n);
    Counted(s.net, j, n);
  }

  lemma ReplaceVals(s: State, s': State, n: Node)
    requires Inv(s) && n in s.caches && s.caches[n].st == M && SendsOnly(s, s', n, PutX(n, s.caches[n].data))
    requires s'.caches[n] == s.caches[n].(st := MI, tbe := s.caches[n].data)
    ensures Values(s')
  {
    assert CacheVal(s, n);
    forall k | k in s'.caches ensures CacheVal(s', k) {
      if k != n {
        OnlyForOne(PutX(n, s.caches[n].data), n);
        SendKeepsOthers(s, s', n, PutX(n, s.caches[n].data), k);
      }
    }
    forall j | 0 <= j < |s'.net| ensures MsgVal(s', s'.net[j]) {
      if j < |s.net| {
        NoWritebackYet(s, n, j);
        assert MsgVal(s, s.net[j]);
      }
    }
  }

  lemma StoreVals(s: State, s': State, n: Node, v: Value)
    requires Inv(s) && n in s.caches && s.caches[n].st == M && Structure(s')
    requires s' == Set(s, n, s.caches[n].(data := v), s.net).(last := v)
    ensures Values(s')
  {
    forall j | 0 <= j < |s'.net| && s'.net[j].PutX? ensures MsgVal(s', s'.net[j]) {
      assert MsgVal(s, s.net[j]);
    }
    ValuesAtOwner(s', n);
  }

  lemma IdleAsks(s: State, e: Event)
    requires !e.Deliver? && !e.Replace? && e.n in s.caches && s.caches[e.n].st == I
    ensures var out := Do(s, e);
            out.Next? && SendsOnly(s, out.s, e.n, GetX(e.n)) && (out.s.caches[e.n].st == IS || out.s.caches[e.n].st == IM)
  {
  }

  lemma IdleVals(s: State, e: Event)
    requires Inv(s) && !e.Deliver? && e.n in s.caches && s.caches[e.n].st == I
    ensures KeepsValues(s, e)
  {
    if !e.Replace? {
      IdleAsks(s, e);
      RequestVals(s, Do(s, e).s, e.n);
    }
  }

  lemma OwnerVals(s: State, e: Event)
    requires Inv(s) && !e.Deliver? && e.n in s.caches && s.caches[e.n].st == M
    ensures KeepsValues(s, e)
  {
    if e.Store? {
      StepKept(s, e);
      StoreVals(s, Do(s, e).s, e.n, e.v);
    } else if e.Replace? {
      ReplaceVals(s, Do(s, e).s, e.n);
    }
  }

  lemma CpuVals(s: State, e: Event)
    requires Inv(s) && !e.Deliver? && e.n in s.caches
    ensures KeepsValues(s, e)
  {
    var st := s.caches[e.n].st;
    if st == I {
      IdleVals(s, e);
    } else if st == M {
      OwnerVals(s, e);
    }
  }

  /** Every step keeps the invariant, and there is a transition for it. */
  lemma InvKept(s: State, e: Event)
    requires Inv(s)
    ensures var out := Do(s, e); !out.Undefined? && (out.Next? ==> Inv(out.s))
  {
    StepKept(s, e);
    if e.Deliver? {
      if e.i < |s.net| {
        match s.net[e.i]
        case GetX(_) => GetXVals(s, e.i);
        case PutX(_, _) => PutXVals(s, e.i);
        case Fwd(_, _) => FwdVals(s, e.i);
        case WbAck(_) => AnswerVals(s, e.i);
        case WbNack(_) => AnswerVals(s, e.i);
        case Data(_, _) => DataVals(s, e.i);
        case MemData(_, _) => MemAnswerVals(s, e.i);
        case MemAck(_) => MemAnswerVals(s, e.i);
        case _ => MemoryVals(s, e.i);
      }
    } else if e.n in s.caches {
      CpuVals(s, e);
    }
  }
}

/** The coherence protocol comes to rest: when the processors ask for nothing more, only so many
    messages can still be delivered, and when none is left every request has been served. */
module MiService {
  import opened MiProtocol
  import opened MiRuns
  import opened MiProgress

  // ---------- every delivery takes the network closer to rest ----------

  /** How many deliveries a message can still cause. */
  function Weight(m: Msg): nat {
    match m
    case GetX(_) => 4
    case PutX(_, _) => 4
    case MemRead(_) => 3
    case MemWrite(_, _) => 3
    case MemData(_, _) => 2
    case MemAck(_) => 2
    case Fwd(_, _) => 2
    case WbAck(_) => 1
    case WbNack(_) => 1
    case Data(_, _) => 1
  }

  function Total(net: seq<Msg>): nat {
    if net == [] then 0 else Total(net[..|net| - 1]) + Weight(net[|net| - 1])
  }

  lemma TotalSnoc(net: seq<Msg>, m: Msg)
    ensures Total(net + [m]) == Total(net) + Weight(m)
  {
    assert (net + [m])[..|net|] == net;
  }

  lemma {:induction false} TotalWithout(net: seq<Msg>, i: nat)
    requires i < |net|
    ensures Total(Without(net, i)) == Total(net) - Weight(net[i])
  {
    var front, last := net[..|net| - 1], net[|net| - 1];
    if i == |front| {
      assert Without(net, i) == front;
    } else {
      TotalWithout(front, i);
      assert Without(net, i) == Without(front, i) + [last];
      TotalSnoc(Without(front, i), last);
    }
  }

  /** A delivery replaces a message by nothing, or by one that can cause fewer. */
  lemma DeliveryNet(s: State, i: nat)
    requires i < |s.net| && Do(s, Deliver(i)).Next?
    ensures var rest, net := Without(s.net, i), Do(s, Deliver(i)).s.net;
            net == rest || (|net| == |rest| + 1 && net == rest + [net[|rest|]] && Weight(net[|rest|]) < Weight(s.net[i]))
  {
  }

  lemma DeliveryLowers(s: State, e: Event)
    requires e.Deliver? && Do(s, e).Next?
    ensures Total(Do(s, e).s.net) < Total(s.net)
  {
    var rest, net := Without(s.net, e.i), Do(s, e).s.net;
    DeliveryNet(s, e.i);
    TotalWithout(s.net, e.i);
    if net != rest {
      TotalSnoc(rest, net[|rest|]);
    }
  }

  // ---------- runs of deliveries ----------

  ghost predicate Quiet(es: seq<Event>) {
    forall i | 0 <= i < |es| :: es[i].Deliver?
  }

  /** Without new requests, only so many deliveries take place. */
  lemma {:induction false} QuietRunIsShort(s: State, es: seq<Event>)
    requires Quiet(es) && Run(s, es).Reached?
    ensures |Run(s, es).log| + Total(Run(s, es).s.net) <= Total(s.net)
  {
    if es != [] {
      var front, e := es[..|es| - 1], es[|es| - 1];
      QuietRunIsShort(s, front);
      var before := Run(s, front);
      if Do(before.s, e).Next? {
        DeliveryLowers(before.s, e);
      }
    }
  }

  lemma {:induction false} RunOn(s: State, a: seq<Event>, b: seq<Event>)
    requires Run(s, a).Reached?
    ensures var r, all := Run(Run(s, a).s, b), Run(s, a + b);
            r.Reached? <==> all.Reached?
    ensures var r, all := Run(Run(s, a).s, b), Run(s, a + b);
            r.Reached? ==> r.s == all.s && all.log == Run(s, a).log + r.log
    decreases |b|
  {
    if b == [] {
      assert a + b == a;
    } else {
      RunOn(s, a, b[..|b| - 1]);
      assert (a + b)[..|a + b| - 1] == a + b[..|b| - 1] && (a + b)[|a + b| - 1] == b[|b| - 1];
    }
  }

  lemma RunSnoc(s: State, es: seq<Event>, e: Event)
    requires Run(s, es).Reached? && Do(Run(s, es).s, e).Next?
    ensures Run(s, es + [e]).Reached? && Run(s, es + [e]).s == Do(Run(s, es).s, e).s
  {
    assert (es + [e])[..|es|] == es;
  }

  lemma MessageToTake(s: State) returns (e: Event)
    requires CanMove(s)
    ensures e.Deliver? && Do(s, e).Next?
  {
    var i :| 0 <= i < |s.net| && Do(s, Deliver(i)).Next?;
    e := Deliver(i);
  }

  /** From any state the deliveries that can take place may be carried out until none is left. */
  lemma {:induction false} Drain(s: State, begun: seq<Event>) returns (es: seq<Event>)
    requires Quiet(begun) && Run(s, begun).Reached?
    ensures Quiet(es) && Run(s, es).Reached? && !CanMove(Run(s, es).s)
    decreases Total(Run(s, begun).s.net)
  {
    es := begun;
    if CanMove(Run(s, begun).s) {
      var e := MessageToTake(Run(s, begun).s);
      RunSnoc(s, begun, e);
      DeliveryLowers(Run(s, begun).s, e);
      es := Drain(s, begun + [e]);
    }
  }

  // ---------- requests are served ----------

  /** The processor of n has got the answer to the request that c records. */
  ghost predicate Answered(c: Cache, n: Node, log: seq<Seen>) {
    exists i :: 0 <= i < |log| && Answer(c, n, log[i])
  }

  predicate Answer(c: Cache, n: Node, seen: Seen) {
    (c.st == IS && seen.Loaded? && seen.n == n) || (c.st == IM && seen == Stored(n, c.want))
  }

  lemma AnswerStays(c: Cache, n: Node, log: seq<Seen>, x: Seen)
    ensures Answered(c, n, log) ==> Answered(c, n, log + [x])
    ensures Answer(c, n, x) ==> Answered(c, n, log + [x])
  {
    if i :| 0 <= i < |log| && Answer(c, n, log[i]) {
      assert (log + [x])[i] == log[i];
    }
    assert (log + [x])[|log|] == x;
  }

  lemma StepAnswers(s: State, e: Event, n: Node)
    requires e.Deliver? && Do(s, e).Next? && n in s.caches
    ensures n in Do(s, e).s.caches
    ensures s.caches[n].st == IS || s.caches[n].st == IM ==>
              Do(s, e).s.caches[n] == s.caches[n] || Answer(s.caches[n], n, Do(s, e).seen)
  {
  }

  /** A cache that waits for the block goes on waiting until it answers its processor. */
  lemma {:induction false} WaitsOrAnswers(s: State, es: seq<Event>, n: Node)
    requires Quiet(es) && Run(s, es).Reached? && n in s.caches
    ensures n in Run(s, es).s.caches
    ensures s.caches[n].st == IS || s.caches[n].st == IM ==>
              Run(s, es).s.caches[n] == s.caches[n] || Answered(s.caches[n], n, Run(s, es).log)
  {
    if es != [] {
      var front, e := es[..|es| - 1], es[|es| - 1];
      WaitsOrAnswers(s, front, n);
      var before := Run(s, front);
      if Do(before.s, e).Next? {
        StepAnswers(before.s, e, n);
        AnswerStays(s.caches[n], n, before.log, Do(before.s, e).seen);
      }
    }
  }

  /** The main result on progress. After any run, let the processors ask for nothing more and
      messages be delivered in any order: at most as many deliveries take place as the weight of
      the network allows, and once no message can be taken, no cache waits any more and every
      load and store that was waiting has been answered, the stores with their own values. */
  lemma EveryRequestIsServed(nodes: set<Node>, v: Value, es: seq<Event>, quiet: seq<Event>, n: Node)
    requires Quiet(quiet) && Run(Init(nodes, v), es).Reached? && n in Run(Init(nodes, v), es).s.caches
    ensures var s := Run(Init(nodes, v), es).s;
            var r := Run(s, quiet);
            && r.Reached? && n in r.s.caches && |r.log| <= Total(s.net)
            && (!CanMove(r.s) ==> !Waiting(r.s.caches[n].st))
            && (!CanMove(r.s) && (s.caches[n].st == IS || s.caches[n].st == IM) ==> Answered(s.caches[n], n, r.log))
  {
    var start := Init(nodes, v);
    var s := Run(start, es).s;
    RunOn(start, es, quiet);
    EveryRunOrderly(nodes, v, es + quiet);
    EveryRun(nodes, v, es + quiet);
    QuietRunIsShort(s, quiet);
    WaitsOrAnswers(s, quiet, n);
    var r := Run(s, quiet);
    if Waiting(r.s.caches[n].st) {
      WaitingMoves(r.s, n);
    }
  }

  /** And the network can always be brought to rest that way. */
  lemma CanComeToRest(nodes: set<Node>, v: Value, es: seq<Event>)
    requires Run(Init(nodes, v), es).Reached?
    ensures exists quiet :: Quiet(quiet) && Run(Run(Init(nodes, v), es).s, quiet).Reached?
                            && !CanMove(Run(Run(Init(nodes, v), es).s, quiet).s)
  {
    var quiet := Drain(Run(Init(nodes, v), es).s, []);
  }
}

/** Whole runs of the coherence protocol: single writer, loads that see the latest store, no
    undefined transition. */
module MiRuns {
  import opened MessageCounts
  import opened MiProtocol
  import opened MiCoherence

  // ---------- runs ----------

  /** All caches empty, the block in memory. */
  function Init(nodes: set<Node>, v: Value): State {
    State(map n | n in nodes :: Cache(I, v, v, v), DirI, None, v, [], v, map[], 0)
  }

  /** A run: where it leads, unless it hits an undefined transition, and what the processors saw. */
  datatype Result = Error | Reached(s: State, log: seq<Seen>)

  function Run(s: State, es: seq<Event>): Result {
    if es == [] then Reached(s, [])
    else
      var before := Run(s, es[..|es| - 1]);
      if before.Error? then Error
      else
        match Do(before.s, es[|es| - 1])
        case Stall => before
        case Undefined => Error
        case Next(s', seen) => Reached(s', before.log + [seen])
  }

  /** The value of the latest store in a log, or the initial one. */
  function Latest(v: Value, log: seq<Seen>): Value {
    if log == [] then v
    else if log[|log| - 1].Stored? then log[|log| - 1].value
    else Latest(v, log[..|log| - 1])
  }

  /** Every load of a log sees the latest store before it. */
  ghost predicate Coherent(v: Value, log: seq<Seen>) {
    forall i | 0 <= i < |log| && log[i].Loaded? :: log[i].value == Latest(v, log[..i])
  }

  lemma LatestSnoc(v: Value, log: seq<Seen>, x: Seen)
    ensures Latest(v, log + [x]) == if x.Stored? then x.value else Latest(v, log)
  {
    assert (log + [x])[..|log|] == log;
  }

  lemma CoherentSnoc(v: Value, log: seq<Seen>, x: Seen)
    requires Coherent(v, log) && (x.Loaded? ==> x.value == Latest(v, log))
    ensures Coherent(v, log + [x])
  {
    var all := log + [x];
    forall i | 0 <= i < |all| && all[i].Loaded? ensures all[i].value == Latest(v, all[..i]) {
      if i < |log| {
        assert all[..i] == log[..i] && all[i] == log[i];
      } else {
        assert all[..i] == log;
      }
    }
  }

  lemma InitView(n: Node)
    ensures ViewOf([], n) == NoMessages(n)
  {
  }

  lemma InitInv(nodes: set<Node>, v: Value)
    ensures Inv(Init(nodes, v))
  {
    var s := Init(nodes, v);
    forall n | n in s.caches ensures At(s, n) && !IsPlace(s, n) && CacheVal(s, n) {
      InitView(n);
    }
    StructureOf(s, 0);
  }

  lemma DeliveryShows(s: State, i: nat)
    requires i < |s.net| && MsgVal(s, s.net[i]) && Do(s, Deliver(i)).Next?
    ensures var out := Do(s, Deliver(i));
            && (out.seen.Loaded? ==> out.seen.value == s.last)
            && out.s.last == if out.seen.Stored? then out.seen.value else s.last
  {
  }

  lemma RequestShows(s: State, e: Event)
    requires !e.Deliver? && e.n in s.caches && CacheVal(s, e.n) && Do(s, e).Next?
    ensures var out := Do(s, e);
            && (out.seen.Loaded? ==> out.seen.value == s.last)
            && out.s.last == if out.seen.Stored? then out.seen.value else s.last
  {
  }

  /** What a step shows is the latest value, and stores change it. */
  lemma StepShows(s: State, e: Event)
    requires Inv(s) && Do(s, e).Next?
    ensures var out := Do(s, e);
            && (out.seen.Loaded? ==> out.seen.value == s.last)
            && out.s.last == if out.seen.Stored? then out.seen.value else s.last
  {
    if e.Deliver? {
      DeliveryShows(s, e.i);
    } else {
      RequestShows(s, e);
    }
  }

  /** The main result. Whatever the caches, the initial value, the requests of the processors
      and the order and delay of messages: no undefined transition is met, the invariant holds,
      and every load sees the latest store. */
  lemma {:induction false} EveryRun(nodes: set<Node>, v: Value, es: seq<Event>)
    ensures var r := Run(Init(nodes, v), es);
            r.Reached? && Inv(r.s) && Coherent(v, r.log) && r.s.last == Latest(v, r.log)
  {
    if es == [] {
      InitInv(nodes, v);
    } else {
      var front, e := es[..|es| - 1], es[|es| - 1];
      EveryRun(nodes, v, front);
      var before := Run(Init(nodes, v), front);
      InvKept(before.s, e);
      var out := Do(before.s, e);
      if out.Next? {
        StepShows(before.s, e);
        LatestSnoc(v, before.log, out.seen);
        CoherentSnoc(v, before.log, out.seen);
      }
    }
  }

  /** In every state of every run, at most one cache has the block, and if one has it, no other
      cache has a copy that will be used and the directory knows. */
  lemma SingleWriter(nodes: set<Node>, v: Value, es: seq<Event>, n: Node, k: Node)
    requires var r := Run(Init(nodes, v), es);
             r.Reached? && n in r.s.caches && k in r.s.caches && r.s.caches[n].st == M
    ensures var r := Run(Init(nodes, v), es);
            r.s.dir == DirM && (r.s.caches[k].st == M || r.s.caches[k].st == MII ==> k == n)
  {
    EveryRun(nodes, v, es);
    var s := Run(Init(nodes, v), es).s;
    AtOf(s, n);
    AtOf(s, k);
    if s.caches[k].st == M || s.caches[k].st == MII {
      OnlyPlace(s, n, k);
    }
  }

  /** No store is lost: when the directory has no owner and is not busy, memory has the latest
      value; and whenever a cache has the block, it has it. */
  lemma NoStoreLost(nodes: set<Node>, v: Value, es: seq<Event>, n: Node)
    requires var r := Run(Init(nodes, v), es); r.Reached? && n in r.s.caches
    ensures var r := Run(Init(nodes, v), es);
            && (r.s.dir == DirI ==> r.s.memory == Latest(v, r.log))
            && (r.s.caches[n].st == M ==> r.s.caches[n].data == Latest(v, r.log))
  {
    EveryRun(nodes, v, es);
    assert CacheVal(Run(Init(nodes, v), es).s, n);
  }
}

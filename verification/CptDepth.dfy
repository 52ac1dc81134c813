/** When a migration ends, told before it starts, for any mixture of upgraders and downgraders:
    by the length of the chains of upgrades that are still missing. */
module CptDepth {
  import opened CptRounds

  /** The upgrades that t depends on and the checkpoint does not have. */
  ghost function Missing(reg: Registry, tags: set<Tag>, t: Tag): set<Tag> {
    if t in reg.deps then set d | d in reg.deps[t] && d in reg.ups && d !in tags else {}
  }

  /** A list of scripts, each depending on the next, which is a missing upgrade. */
  ghost predicate Chain(reg: Registry, tags: set<Tag>, w: seq<Tag>) {
    w != [] && forall i | 0 <= i < |w| - 1 :: w[i + 1] in Missing(reg, tags, w[i])
  }

  /** One more than the deepest missing upgrade it depends on, or zero without any. */
  ghost predicate DepthAt(reg: Registry, tags: set<Tag>, h: map<Tag, nat>, t: Tag)
    requires t in h
  {
    && (forall u | u in Missing(reg, tags, t) :: u in h && h[u] < h[t])
    && (h[t] > 0 ==> exists u :: u in Missing(reg, tags, t) && u in h && h[u] == h[t] - 1)
  }

  ghost predicate IsDepth(reg: Registry, tags: set<Tag>, h: map<Tag, nat>) {
    h.Keys == ToApply(reg, tags) && forall t | t in h :: DepthAt(reg, tags, h, t)
  }

  // ---------- the depth is the length of the longest chain ----------

  lemma {:induction false} ChainsAreShort(reg: Registry, tags: set<Tag>, h: map<Tag, nat>, w: seq<Tag>)
    requires IsDepth(reg, tags, h) && Chain(reg, tags, w) && w[0] in h
    ensures |w| <= h[w[0]] + 1
    decreases |w|
  {
    if |w| > 1 {
      assert w[0 + 1] in Missing(reg, tags, w[0]) && DepthAt(reg, tags, h, w[0]);
      forall i | 0 <= i < |w[1..]| - 1 ensures w[1..][i + 1] in Missing(reg, tags, w[1..][i]) {
        assert w[i + 1 + 1] in Missing(reg, tags, w[i + 1]);
      }
      ChainsAreShort(reg, tags, h, w[1..]);
    }
  }

  lemma {:induction false} ChainThatLong(reg: Registry, tags: set<Tag>, h: map<Tag, nat>, t: Tag)
    returns (w: seq<Tag>)
    requires IsDepth(reg, tags, h) && t in h
    ensures Chain(reg, tags, w) && w[0] == t && |w| == h[t] + 1
    decreases h[t]
  {
    w := [t];
    assert DepthAt(reg, tags, h, t);
    if h[t] > 0 {
      var u :| u in Missing(reg, tags, t) && u in h && h[u] == h[t] - 1;
      var v := ChainThatLong(reg, tags, h, u);
      w := [t] + v;
      forall i | 0 <= i < |w| - 1 ensures w[i + 1] in Missing(reg, tags, w[i]) {
        assert i > 0 ==> v[i - 1 + 1] in Missing(reg, tags, v[i - 1]);
      }
    }
  }

  /** The depth of a script is the number of steps of a longest chain that starts with it. */
  lemma DepthIsLongestChain(reg: Registry, tags: set<Tag>, h: map<Tag, nat>, t: Tag)
    requires IsDepth(reg, tags, h) && t in h
    ensures exists w :: Chain(reg, tags, w) && w[0] == t && |w| == h[t] + 1
    ensures forall w | Chain(reg, tags, w) && w[0] == t :: |w| <= h[t] + 1
  {
    var w := ChainThatLong(reg, tags, h, t);
    forall v | Chain(reg, tags, v) && v[0] == t ensures |v| <= h[t] + 1 {
      ChainsAreShort(reg, tags, h, v);
    }
  }

  // ---------- there is a depth exactly without a cycle ----------

  lemma {:induction false} Deepest(h: map<Tag, nat>, s: set<Tag>) returns (m: Tag)
    requires s != {} && s <= h.Keys
    ensures m in s && forall u | u in s :: h[u] <= h[m]
  {
    m :| m in s;
    if s != {m} {
      var n := Deepest(h, s - {m});
      m := if h[n] > h[m] then n else m;
    }
  }

  /** The depths of some of the scripts, and with each those of all it waits for. */
  ghost predicate PartDepth(reg: Registry, tags: set<Tag>, h: map<Tag, nat>) {
    h.Keys <= ToApply(reg, tags) && forall t | t in h :: DepthAt(reg, tags, h, t)
  }

  lemma DepthStays(reg: Registry, tags: set<Tag>, h: map<Tag, nat>, t: Tag, k: nat, u: Tag)
    requires u in h && t !in h && DepthAt(reg, tags, h, u)
    ensures DepthAt(reg, tags, h[t := k], u)
  {
    var g := h[t := k];
    if h[u] > 0 {
      var v :| v in Missing(reg, tags, u) && v in h && h[v] == h[u] - 1;
      assert v in g && g[v] == g[u] - 1;
    }
  }

  lemma AddDepth(reg: Registry, tags: set<Tag>, h: map<Tag, nat>, t: Tag) returns (g: map<Tag, nat>)
    requires PartDepth(reg, tags, h) && t in ToApply(reg, tags) && t !in h && Missing(reg, tags, t) <= h.Keys
    ensures PartDepth(reg, tags, g) && g.Keys == h.Keys + {t}
  {
    if Missing(reg, tags, t) == {} {
      g := h[t := 0];
    } else {
      var m := Deepest(h, Missing(reg, tags, t));
      g := h[t := h[m] + 1];
      assert m in Missing(reg, tags, t) && m in g && g[m] == g[t] - 1;
    }
    forall u | u in g ensures DepthAt(reg, tags, g, u) {
      if u != t {
        DepthStays(reg, tags, h, t, g[t], u);
      }
    }
  }

  /** If each remaining script waits for a remaining one, some of them wait in a cycle. */
  lemma RestHasCycle(reg: Registry, tags: set<Tag>, done: set<Tag>, t: Tag) returns (c: seq<Tag>)
    requires reg.Consistent() && t in ToApply(reg, tags) - done
    requires forall u | u in ToApply(reg, tags) - done :: !(Missing(reg, tags, u) <= done)
    ensures Cycle(reg, c, reg.ups - tags)
  {
    var rest := (reg.ups - tags) - done;
    forall u | u in ToApply(reg, tags) - done ensures Waits(reg, u, rest) {
      var d :| d in Missing(reg, tags, u) && d !in done;
    }
    assert Waits(reg, t, rest);
    c := BlockedHasCycle(reg, rest);
  }

  lemma {:induction false} DepthOrCycle(reg: Registry, tags: set<Tag>, part: map<Tag, nat>)
    returns (h: map<Tag, nat>, c: seq<Tag>)
    requires reg.Consistent() && PartDepth(reg, tags, part)
    ensures IsDepth(reg, tags, h) || Cycle(reg, c, reg.ups - tags)
    decreases ToApply(reg, tags) - part.Keys
  {
    h, c := part, [];
    if t :| t in ToApply(reg, tags) - part.Keys && Missing(reg, tags, t) <= part.Keys {
      var more := AddDepth(reg, tags, part, t);
      h, c := DepthOrCycle(reg, tags, more);
    } else if ToApply(reg, tags) - part.Keys != {} {
      var t :| t in ToApply(reg, tags) - part.Keys;
      c := RestHasCycle(reg, tags, part.Keys, t);
    } else {
      forall t | t in ToApply(reg, tags) ensures t in part {
        assert t !in ToApply(reg, tags) - part.Keys;
      }
    }
  }

  lemma {:induction false} CycleStep(reg: Registry, tags: set<Tag>, h: map<Tag, nat>, c: seq<Tag>, i: nat)
    requires IsDepth(reg, tags, h) && Cycle(reg, c, reg.ups - tags) && i < |c|
    ensures c[i] in h && c[0] in h && h[c[i]] + i <= h[c[0]]
  {
    assert c[0] in reg.ups - tags && c[i] in reg.ups - tags;
    if i > 0 {
      CycleStep(reg, tags, h, c, i - 1);
      assert c[i - 1 + 1] in reg.deps[c[i - 1]];
      assert DepthAt(reg, tags, h, c[i - 1]) && c[i] in Missing(reg, tags, c[i - 1]);
    }
  }

  lemma DepthExistsIff(reg: Registry, tags: set<Tag>)
    requires reg.Consistent()
    ensures (exists h :: IsDepth(reg, tags, h)) <==> !exists c :: Cycle(reg, c, reg.ups - tags)
  {
    var h, c := DepthOrCycle(reg, tags, map[]);
    forall g, b | IsDepth(reg, tags, g) && Cycle(reg, b, reg.ups - tags) ensures false {
      var n := |b| - 1;
      assert b[0] in Missing(reg, tags, b[n]);
      CycleStep(reg, tags, g, b, n);
    }
  }

  // ---------- every round takes the scripts of one depth ----------

  ghost function Need(h: map<Tag, nat>, k: nat): set<Tag> {
    set t | t in h && h[t] >= k
  }

  ghost function Level(h: map<Tag, nat>, k: nat): set<Tag> {
    set t | t in h && h[t] == k
  }

  /** The tags when the scripts of smaller depth than k have been applied. */
  ghost function TagsAt(reg: Registry, tags: set<Tag>, h: map<Tag, nat>, k: nat): set<Tag> {
    (tags + set t | t in h && h[t] < k && t in reg.ups) - set t | t in h && h[t] < k && t in reg.downs
  }

  /** A tag that no upgrader makes must be there, and be removed no earlier than t is applied. */
  ghost predicate FitsAt(reg: Registry, tags: set<Tag>, h: map<Tag, nat>, t: Tag)
    requires t in h
  {
    t in reg.deps && forall d | d in reg.deps[t] && d !in reg.ups ::
      d in tags && (d in reg.downs && d in h ==> h[t] <= h[d])
  }

  ghost predicate Fits(reg: Registry, tags: set<Tag>, h: map<Tag, nat>) {
    forall t | t in h :: FitsAt(reg, tags, h, t)
  }

  lemma DependencyThere(reg: Registry, tags: set<Tag>, h: map<Tag, nat>, t: Tag, d: Tag)
    requires reg.Consistent() && IsDepth(reg, tags, h) && t in h && FitsAt(reg, tags, h, t) && d in reg.deps[t]
    ensures d in TagsAt(reg, tags, h, h[t])
  {
    assert DepthAt(reg, tags, h, t);
    assert d in reg.ups && d !in tags ==> d in Missing(reg, tags, t);
  }

  lemma DeeperWaits(reg: Registry, tags: set<Tag>, h: map<Tag, nat>, k: nat, t: Tag)
    requires reg.Consistent() && IsDepth(reg, tags, h) && t in h && h[t] > k
    ensures t !in Ready(reg, Need(h, k), TagsAt(reg, tags, h, k))
  {
    assert DepthAt(reg, tags, h, t);
    var u :| u in Missing(reg, tags, t) && u in h && h[u] == h[t] - 1;
    assert u !in TagsAt(reg, tags, h, k);
  }

  lemma ReadyAt(reg: Registry, tags: set<Tag>, h: map<Tag, nat>, k: nat)
    requires reg.Consistent() && IsDepth(reg, tags, h) && forall t | t in Level(h, k) :: FitsAt(reg, tags, h, t)
    ensures Ready(reg, Need(h, k), TagsAt(reg, tags, h, k)) == Level(h, k)
  {
    forall t | t in h && h[t] > k ensures t !in Ready(reg, Need(h, k), TagsAt(reg, tags, h, k)) {
      DeeperWaits(reg, tags, h, k, t);
    }
    forall t | t in Level(h, k) ensures t in reg.deps && IsReady(reg.deps[t], TagsAt(reg, tags, h, k)) {
      assert FitsAt(reg, tags, h, t);
      forall d | d in reg.deps[t] ensures d in TagsAt(reg, tags, h, k) {
        DependencyThere(reg, tags, h, t, d);
      }
    }
  }

  lemma NextRound(reg: Registry, tags: set<Tag>, h: map<Tag, nat>, k: nat)
    requires reg.Consistent() && h.Keys == ToApply(reg, tags)
    ensures Apply(reg, Level(h, k), TagsAt(reg, tags, h, k)) == TagsAt(reg, tags, h, k + 1)
    ensures Need(h, k) - Level(h, k) == Need(h, k + 1)
  {
  }

  /** No depth is left out below a depth that occurs. */
  lemma {:induction false} LevelOccurs(reg: Registry, tags: set<Tag>, h: map<Tag, nat>, k: nat, t: Tag)
    requires IsDepth(reg, tags, h) && t in h && k <= h[t]
    ensures Level(h, k) != {}
    decreases h[t]
  {
    if h[t] == k {
      assert t in Level(h, k);
    } else {
      assert DepthAt(reg, tags, h, t);
      var u :| u in Missing(reg, tags, t) && u in h && h[u] == h[t] - 1;
      LevelOccurs(reg, tags, h, k, u);
    }
  }

  ghost function RoundsFrom(reg: Registry, tags: set<Tag>, h: map<Tag, nat>, k: nat): Outcome {
    Rounds(reg, Need(h, k), TagsAt(reg, tags, h, k))
  }

  lemma OneLevel(reg: Registry, tags: set<Tag>, h: map<Tag, nat>, k: nat)
    requires reg.Consistent() && IsDepth(reg, tags, h) && Need(h, k) != {}
    requires forall t | t in Level(h, k) :: FitsAt(reg, tags, h, t)
    ensures RoundsFrom(reg, tags, h, k) == RoundsFrom(reg, tags, h, k + 1) && |Need(h, k + 1)| < |Need(h, k)|
  {
    var t :| t in Need(h, k);
    LevelOccurs(reg, tags, h, k, t);
    ReadyAt(reg, tags, h, k);
    NextRound(reg, tags, h, k);
    RemainderIsSmaller(Need(h, k), Level(h, k));
  }

  lemma {:induction false} FittingEnds(reg: Registry, tags: set<Tag>, h: map<Tag, nat>, k: nat)
    requires reg.Consistent() && IsDepth(reg, tags, h) && Fits(reg, tags, h)
    ensures RoundsFrom(reg, tags, h, k).Done?
    decreases |Need(h, k)|
  {
    if Need(h, k) != {} {
      OneLevel(reg, tags, h, k);
      FittingEnds(reg, tags, h, k + 1);
    }
  }

  lemma MisfitBlocks(reg: Registry, tags: set<Tag>, h: map<Tag, nat>, t: Tag)
    requires reg.Consistent() && IsDepth(reg, tags, h) && t in h && !FitsAt(reg, tags, h, t)
    ensures RoundsFrom(reg, tags, h, h[t]).Stuck?
  {
    var d :| d in reg.deps[t] && d !in reg.ups && !(d in tags && (d in reg.downs && d in h ==> h[t] <= h[d]));
    assert d !in TagsAt(reg, tags, h, h[t]);
    AbsentBlocks(reg, Need(h, h[t]), TagsAt(reg, tags, h, h[t]), t, d);
  }

  lemma {:induction false} EndingFits(reg: Registry, tags: set<Tag>, h: map<Tag, nat>, k: nat)
    requires reg.Consistent() && IsDepth(reg, tags, h) && RoundsFrom(reg, tags, h, k).Done?
    ensures forall t | t in h && h[t] >= k :: FitsAt(reg, tags, h, t)
    decreases |Need(h, k)|
  {
    forall t | t in Level(h, k) ensures FitsAt(reg, tags, h, t) {
      if !FitsAt(reg, tags, h, t) {
        MisfitBlocks(reg, tags, h, t);
      }
    }
    if Need(h, k) != {} {
      OneLevel(reg, tags, h, k);
      EndingFits(reg, tags, h, k + 1);
    }
    assert forall t | t in h && h[t] >= k :: t in Need(h, k);
  }

  lemma AtStart(reg: Registry, tags: set<Tag>, h: map<Tag, nat>)
    requires h.Keys == ToApply(reg, tags)
    ensures RoundsFrom(reg, tags, h, 0) == Rounds(reg, ToApply(reg, tags), tags)
  {
    assert Need(h, 0) == ToApply(reg, tags) && TagsAt(reg, tags, h, 0) == tags;
  }

  // ---------- the main results ----------

  /** With upgraders and downgraders, whatever they depend on: the loop ends without aborting
      exactly when the missing upgrades have no cycle, every other tag that a needed script
      depends on is there, and none of these has a downgrader of smaller depth than the script. */
  lemma DoneIff(reg: Registry, tags: set<Tag>)
    requires reg.Consistent()
    ensures Rounds(reg, ToApply(reg, tags), tags).Done? <==>
            exists h :: IsDepth(reg, tags, h) && Fits(reg, tags, h)
  {
    if Rounds(reg, ToApply(reg, tags), tags).Done? {
      var h, c := DepthOrCycle(reg, tags, map[]);
      if Cycle(reg, c, reg.ups - tags) {
        CycleIsBlocked(reg, c, reg.ups - tags);
        BlockedStays(reg, ToApply(reg, tags), tags, set i | 0 <= i < |c| :: c[i]);
      }
      AtStart(reg, tags, h);
      EndingFits(reg, tags, h, 0);
      assert Fits(reg, tags, h);
    }
    if h :| IsDepth(reg, tags, h) && Fits(reg, tags, h) {
      AtStart(reg, tags, h);
      FittingEnds(reg, tags, h, 0);
    }
  }

  /** Without a cycle the depths decide alone, whichever way they are found. */
  lemma DepthsDecide(reg: Registry, tags: set<Tag>, h: map<Tag, nat>)
    requires reg.Consistent() && IsDepth(reg, tags, h)
    ensures Rounds(reg, ToApply(reg, tags), tags).Done? <==> Fits(reg, tags, h)
  {
    AtStart(reg, tags, h);
    if Rounds(reg, ToApply(reg, tags), tags).Done? {
      EndingFits(reg, tags, h, 0);
    }
    if Fits(reg, tags, h) {
      FittingEnds(reg, tags, h, 0);
    }
  }

  /** In a run that ends, every script is applied in the round of its depth. */
  lemma {:induction false} RoundIsDepth(reg: Registry, tags: set<Tag>, h: map<Tag, nat>, rounds: seq<seq<Tag>>)
    requires reg.Consistent() && IsDepth(reg, tags, h) && Fits(reg, tags, h) && Carried(reg, tags, rounds)
    ensures After(reg, tags, rounds) == TagsAt(reg, tags, h, |rounds|)
    ensures ToApply(reg, After(reg, tags, rounds)) == Need(h, |rounds|)
    ensures forall k | 0 <= k < |rounds| :: Members(rounds[k]) == Level(h, k)
  {
    if rounds == [] {
      assert Need(h, 0) == ToApply(reg, tags) && TagsAt(reg, tags, h, 0) == tags;
    } else {
      var n := |rounds| - 1;
      RoundIsDepth(reg, tags, h, rounds[..n]);
      RoundKeepsNeed(reg, After(reg, tags, rounds[..n]));
      ReadyAt(reg, tags, h, n);
      NextRound(reg, tags, h, n);
    }
  }

  // ---------- when a downgrader can run first ----------

  lemma {:induction false} Listing(s: set<Tag>) returns (w: seq<Tag>)
    ensures Distinct(w) && Members(w) == s
  {
    if s == {} {
      w := [];
    } else {
      var t :| t in s;
      var v := Listing(s - {t});
      MembersSnoc(v, t);
      w := v + [t];
    }
  }

  lemma RoundOfDepth(reg: Registry, tags: set<Tag>, h: map<Tag, nat>, rounds: seq<seq<Tag>>, round: seq<Tag>)
    requires reg.Consistent() && IsDepth(reg, tags, h) && Fits(reg, tags, h) && Carried(reg, tags, rounds)
    requires Distinct(round) && round != [] && Members(round) == Level(h, |rounds|)
    ensures Carried(reg, tags, rounds + [round])
  {
    RoundIsDepth(reg, tags, h, rounds);
    ReadyAt(reg, tags, h, |rounds|);
    assert (rounds + [round])[..|rounds|] == rounds;
  }

  /** There is a run as far as the round of any script. */
  lemma {:induction false} RunUpTo(reg: Registry, tags: set<Tag>, h: map<Tag, nat>, t: Tag, k: nat)
    returns (rounds: seq<seq<Tag>>)
    requires reg.Consistent() && IsDepth(reg, tags, h) && Fits(reg, tags, h) && t in h && k <= h[t]
    ensures Carried(reg, tags, rounds) && |rounds| == k
  {
    rounds := [];
    if k > 0 {
      var before := RunUpTo(reg, tags, h, t, k - 1);
      LevelOccurs(reg, tags, h, k - 1, t);
      var round := Listing(Level(h, k - 1));
      assert round != [] by { assert round == [] ==> Members(round) == {}; }
      RoundOfDepth(reg, tags, h, before, round);
      rounds := before + [round];
    }
  }

  /** Some run carries out d before t. */
  ghost predicate CanRunAfter(reg: Registry, tags: set<Tag>, t: Tag, d: Tag) {
    exists rounds, r: nat, j: nat {:trigger RunsAfterAt(reg, tags, rounds, r, j, t, d)} ::
      RunsAfterAt(reg, tags, rounds, r, j, t, d)
  }

  ghost predicate RunsAfterAt(reg: Registry, tags: set<Tag>, rounds: seq<seq<Tag>>, r: nat, j: nat, t: Tag, d: Tag) {
    Carried(reg, tags, rounds) && r < |rounds| && j < |rounds[r]| && rounds[r][j] == t && RunsAfter(rounds, r, j, d)
  }

  lemma SameDepthCan(reg: Registry, tags: set<Tag>, h: map<Tag, nat>, t: Tag, d: Tag)
    requires reg.Consistent() && IsDepth(reg, tags, h) && Fits(reg, tags, h)
    requires t in h && d in h && h[d] == h[t] && t != d
    ensures CanRunAfter(reg, tags, t, d)
  {
    var k := h[t];
    var before := RunUpTo(reg, tags, h, t, k);
    var level := Listing(Level(h, k));
    assert t in Level(h, k) && d in Level(h, k);
    MembersHas(level, d);
    var i :| 0 <= i < |level| && level[i] == d;
    var round := MoveToFront(level, i);
    RoundOfDepth(reg, tags, h, before, round);
    MembersHas(round, t);
    var j :| 0 <= j < |round| && round[j] == t;
    var rounds := before + [round];
    assert rounds[k] == round && round[..j][0] == d;
    assert RunsAfterAt(reg, tags, rounds, k, j, t, d);
  }

  /** The condition for the documented order that can be told before the migration: of a script and
      the downgrader of a tag it depends on, the downgrader can run first if and only if it is
      needed and has the same depth. */
  lemma CanRunAfterIff(reg: Registry, tags: set<Tag>, h: map<Tag, nat>, t: Tag, d: Tag)
    requires reg.Consistent() && IsDepth(reg, tags, h) && Fits(reg, tags, h)
    requires t in h && t in reg.deps && d in reg.deps[t] && d in reg.downs && t != d
    ensures CanRunAfter(reg, tags, t, d) <==> d in h && h[d] == h[t]
  {
    if CanRunAfter(reg, tags, t, d) {
      var rounds, r: nat, j: nat :| RunsAfterAt(reg, tags, rounds, r, j, t, d);
      RemovedFirstIff(reg, tags, rounds, r, j, d);
      RoundIsDepth(reg, tags, h, rounds);
      MembersHas(rounds[r], t);
      MembersHas(rounds[r], d);
    }
    if d in h && h[d] == h[t] {
      SameDepthCan(reg, tags, h, t, d);
    }
  }
}

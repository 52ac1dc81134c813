/** Checkpoint migration: in rounds, all upgraders (and downgraders) whose dependencies are
    among the checkpoint's tags are applied, until none is left or none is ready. */
module CptRounds {

  type Tag = string

  /** The registered scripts: what each depends on, and whether it adds or removes its tag. */
  datatype Registry = Registry(deps: map<Tag, seq<Tag>>, ups: set<Tag>, downs: set<Tag>) {
    /** Every script registers under its own tag, as an upgrader or as a downgrader. */
    ghost predicate Consistent() {
      ups + downs == deps.Keys && ups !! downs
    }
  }

  predicate IsReady(depends: seq<Tag>, tags: set<Tag>) {
    forall d | d in depends :: d in tags
  }

  function Ready(reg: Registry, toApply: set<Tag>, tags: set<Tag>): set<Tag> {
    set t | t in toApply && t in reg.deps && IsReady(reg.deps[t], tags)
  }

  /** The tags after a whole round. */
  function Apply(reg: Registry, ready: set<Tag>, tags: set<Tag>): set<Tag> {
    (tags + ready * reg.ups) - ready * reg.downs
  }

  datatype Outcome = Done(tags: set<Tag>) | Stuck(left: set<Tag>, tags: set<Tag>)

  function Rounds(reg: Registry, toApply: set<Tag>, tags: set<Tag>): Outcome
    decreases |toApply|
  {
    if toApply == {} then Done(tags)
    else
      var ready := Ready(reg, toApply, tags);
      if ready == {} then Stuck(toApply, tags)
      else
        RemainderIsSmaller(toApply, ready);
        Rounds(reg, toApply - ready, Apply(reg, ready, tags))
  }

  lemma RemainderIsSmaller(s: set<Tag>, r: set<Tag>)
    requires r != {} && r <= s
    ensures |s - r| < |s|
  {
    assert s == (s - r) + r;
    assert |s| == |s - r| + |r|;
  }

  /** What a checkpoint with these tags needs: missing upgrades, and present tags to be removed. */
  function ToApply(reg: Registry, tags: set<Tag>): set<Tag> {
    (reg.ups - tags) + (reg.downs * tags)
  }

  // ---------- what every round keeps ----------

  /** After any round, what is left is again exactly what the current tags need. */
  lemma RoundKeepsNeed(reg: Registry, tags: set<Tag>)
    requires reg.Consistent()
    ensures var need := ToApply(reg, tags);
            var ready := Ready(reg, need, tags);
            need - ready == ToApply(reg, Apply(reg, ready, tags))
  {
  }

  lemma RoundKeepsGoal(reg: Registry, ready: set<Tag>, tags: set<Tag>)
    requires reg.ups !! reg.downs
    ensures (Apply(reg, ready, tags) + reg.ups) - reg.downs == (tags + reg.ups) - reg.downs
  {
  }

  lemma NothingNeeded(reg: Registry, tags: set<Tag>)
    requires ToApply(reg, tags) == {}
    ensures tags == (tags + reg.ups) - reg.downs
  {
    forall t ensures t in reg.ups ==> t in tags { assert t !in ToApply(reg, tags); }
    forall t ensures t in tags ==> t !in reg.downs { assert t !in ToApply(reg, tags); }
  }

  /** A run that ends leaves all upgrade tags in, all downgrade tags out, and no other changed. */
  lemma {:induction false} DoneTags(reg: Registry, tags: set<Tag>)
    requires reg.Consistent()
    ensures var out := Rounds(reg, ToApply(reg, tags), tags);
            out.Done? ==> out.tags == (tags + reg.ups) - reg.downs
    decreases |ToApply(reg, tags)|
  {
    var need := ToApply(reg, tags);
    var ready := Ready(reg, need, tags);
    if need != {} && ready != {} {
      RemainderIsSmaller(need, ready);
      RoundKeepsNeed(reg, tags);
      RoundKeepsGoal(reg, ready, tags);
      DoneTags(reg, Apply(reg, ready, tags));
    } else if need == {} {
      NothingNeeded(reg, tags);
    }
  }

  // ---------- when it gets stuck ----------

  /** Nothing in s can be applied first: each member waits for another one. */
  ghost predicate Blocked(reg: Registry, s: set<Tag>) {
    forall t {:trigger Waits(reg, t, s)} | t in s :: Waits(reg, t, s)
  }

  ghost predicate Waits(reg: Registry, t: Tag, s: set<Tag>) {
    t in reg.deps && exists d :: d in reg.deps[t] && d in s
  }

  lemma {:induction false} StuckIsNeeded(reg: Registry, tags: set<Tag>)
    requires reg.Consistent()
    ensures var out := Rounds(reg, ToApply(reg, tags), tags);
            out.Stuck? ==> out.left == ToApply(reg, out.tags) && out.left != {}
                           && Ready(reg, out.left, out.tags) == {}
    decreases |ToApply(reg, tags)|
  {
    var need := ToApply(reg, tags);
    var ready := Ready(reg, need, tags);
    if need != {} && ready != {} {
      RemainderIsSmaller(need, ready);
      RoundKeepsNeed(reg, tags);
      StuckIsNeeded(reg, Apply(reg, ready, tags));
    }
  }

  /** With dependencies that all exist: a stuck script waits for another stuck one, or for a
      tag that has a downgrader and is not there. */
  lemma StuckWaits(reg: Registry, tags: set<Tag>, t: Tag)
    requires reg.Consistent()
    requires forall u, d | u in reg.deps && d in reg.deps[u] :: d in reg.deps
    requires Rounds(reg, ToApply(reg, tags), tags).Stuck?
    requires t in Rounds(reg, ToApply(reg, tags), tags).left
    ensures var out := Rounds(reg, ToApply(reg, tags), tags);
            t in reg.deps && exists d :: d in reg.deps[t] && d !in out.tags && (d in out.left || d in reg.downs)
  {
    var out := Rounds(reg, ToApply(reg, tags), tags);
    StuckIsNeeded(reg, tags);
    assert t !in Ready(reg, out.left, out.tags);
    var d :| d in reg.deps[t] && d !in out.tags;
    assert d in reg.deps;
  }

  lemma BlockedNotReady(reg: Registry, toApply: set<Tag>, tags: set<Tag>, s: set<Tag>)
    requires Blocked(reg, s) && s !! tags
    ensures s !! Ready(reg, toApply, tags)
  {
    forall t | t in s ensures t !in Ready(reg, toApply, tags) {
      assert Waits(reg, t, s);
      var d :| d in reg.deps[t] && d in s;
    }
  }

  /** No round ever applies a member of a blocked set. */
  lemma {:induction false} BlockedStays(reg: Registry, toApply: set<Tag>, tags: set<Tag>, s: set<Tag>)
    requires Blocked(reg, s) && s <= toApply && s !! tags && s != {} && s !! reg.downs
    ensures var out := Rounds(reg, toApply, tags); out.Stuck? && s <= out.left
    decreases |toApply|
  {
    var ready := Ready(reg, toApply, tags);
    BlockedNotReady(reg, toApply, tags, s);
    if ready != {} {
      RemainderIsSmaller(toApply, ready);
      BlockedStays(reg, toApply - ready, Apply(reg, ready, tags), s);
    }
  }

  // ---------- upgraders only: stuck means a cycle ----------

  /** Only upgraders, and every dependency is registered. */
  ghost predicate UpgradersOnly(reg: Registry) {
    && reg.Consistent() && reg.downs == {}
    && forall u, d | u in reg.deps && d in reg.deps[u] :: d in reg.deps
  }

  /** What is left when the loop gives up is the largest blocked set among the missing tags. */
  lemma LeftIsLargestBlocked(reg: Registry, tags: set<Tag>)
    requires UpgradersOnly(reg) && Rounds(reg, ToApply(reg, tags), tags).Stuck?
    ensures var left := Rounds(reg, ToApply(reg, tags), tags).left;
            Blocked(reg, left) && left <= reg.ups - tags && left != {} &&
            forall s | Blocked(reg, s) && s <= reg.ups - tags :: s <= left
  {
    LeftIsBlocked(reg, tags);
    forall s | Blocked(reg, s) && s <= reg.ups - tags
      ensures s <= Rounds(reg, ToApply(reg, tags), tags).left
    {
      if s != {} {
        BlockedStays(reg, ToApply(reg, tags), tags, s);
      }
    }
  }

  lemma LeftIsBlocked(reg: Registry, tags: set<Tag>)
    requires UpgradersOnly(reg) && Rounds(reg, ToApply(reg, tags), tags).Stuck?
    ensures var left := Rounds(reg, ToApply(reg, tags), tags).left;
            Blocked(reg, left) && left <= reg.ups - tags && left != {}
  {
    var out := Rounds(reg, ToApply(reg, tags), tags);
    StuckIsNeeded(reg, tags);
    TagsOnlyGrow(reg, ToApply(reg, tags), tags);
    forall t | t in out.left ensures Waits(reg, t, out.left) {
      StuckWaits(reg, tags, t);
    }
  }

  lemma {:induction false} TagsOnlyGrow(reg: Registry, toApply: set<Tag>, tags: set<Tag>)
    requires reg.downs == {}
    ensures tags <= Rounds(reg, toApply, tags).tags
    decreases |toApply|
  {
    var ready := Ready(reg, toApply, tags);
    if toApply != {} && ready != {} {
      RemainderIsSmaller(toApply, ready);
      TagsOnlyGrow(reg, toApply - ready, Apply(reg, ready, tags));
    }
  }

  /** A dependency cycle inside s: each member depends on the next, the last on the first. */
  ghost predicate Cycle(reg: Registry, c: seq<Tag>, s: set<Tag>) {
    && c != [] && (forall i | 0 <= i < |c| :: c[i] in s && c[i] in reg.deps)
    && (forall i | 0 <= i < |c| - 1 :: c[i + 1] in reg.deps[c[i]])
    && c[0] in reg.deps[c[|c| - 1]]
  }

  ghost predicate Distinct(w: seq<Tag>) {
    forall i, j | 0 <= i < j < |w| :: w[i] != w[j]
  }

  /** A list without repetition is no longer than any set that holds its members. */
  lemma {:induction false} DistinctFits(w: seq<Tag>, s: set<Tag>)
    requires Distinct(w) && forall i | 0 <= i < |w| :: w[i] in s
    ensures |w| <= |s|
  {
    if w != [] {
      var last := w[|w| - 1];
      DistinctFits(w[..|w| - 1], s - {last});
      assert |s - {last}| == |s| - 1;
    }
  }

  /** A walk along dependencies inside s. */
  ghost predicate Walk(reg: Registry, w: seq<Tag>, s: set<Tag>) {
    && (forall i | 0 <= i < |w| :: w[i] in s && w[i] in reg.deps)
    && (forall i | 0 <= i < |w| - 1 :: w[i + 1] in reg.deps[w[i]])
  }

  /** Inside a blocked set one can walk for ever. */
  lemma {:induction false} LongWalk(reg: Registry, s: set<Tag>, n: nat) returns (w: seq<Tag>)
    requires Blocked(reg, s) && s != {}
    ensures |w| == n + 1 && Walk(reg, w, s)
  {
    if n == 0 {
      var t :| t in s;
      assert Waits(reg, t, s);
      w := [t];
    } else {
      var v := LongWalk(reg, s, n - 1);
      assert Waits(reg, v[n - 1], s);
      var d :| d in reg.deps[v[n - 1]] && d in s;
      assert Waits(reg, d, s);
      w := v + [d];
    }
  }

  lemma BlockedHasCycle(reg: Registry, s: set<Tag>) returns (c: seq<Tag>)
    requires Blocked(reg, s) && s != {}
    ensures Cycle(reg, c, s)
  {
    var w := LongWalk(reg, s, |s|);
    if Distinct(w) {
      DistinctFits(w, s);
    }
    var i, j :| 0 <= i < j < |w| && w[i] == w[j];
    c := w[i..j];
    forall k | 0 <= k < |c| - 1 ensures c[k + 1] in reg.deps[c[k]] {
      assert w[i + k + 1] in reg.deps[w[i + k]];
    }
    assert w[j - 1 + 1] in reg.deps[w[j - 1]];
  }

  lemma CycleIsBlocked(reg: Registry, c: seq<Tag>, s: set<Tag>)
    requires Cycle(reg, c, s)
    ensures var m := set i | 0 <= i < |c| :: c[i]; Blocked(reg, m) && m <= s && m != {}
  {
    var m := set i | 0 <= i < |c| :: c[i];
    assert c[0] in m;
    forall t | t in m ensures Waits(reg, t, m) {
      var i :| 0 <= i < |c| && c[i] == t;
      if i < |c| - 1 {
        assert c[i + 1] in reg.deps[t] && c[i + 1] in m;
      } else {
        assert c[0] in reg.deps[t] && c[0] in m;
      }
    }
  }

  /** The main result on giving up: with upgraders only, the loop ends without aborting exactly
      when the tags missing from the checkpoint have no dependency cycle among them. */
  lemma AbortsIffCycle(reg: Registry, tags: set<Tag>)
    requires UpgradersOnly(reg)
    ensures Rounds(reg, ToApply(reg, tags), tags).Stuck? <==> exists c :: Cycle(reg, c, reg.ups - tags)
    ensures Rounds(reg, ToApply(reg, tags), tags).Stuck? ==>
              exists c :: Cycle(reg, c, Rounds(reg, ToApply(reg, tags), tags).left)
  {
    var out := Rounds(reg, ToApply(reg, tags), tags);
    if out.Stuck? {
      LeftIsBlocked(reg, tags);
      var c := BlockedHasCycle(reg, out.left);
      assert Cycle(reg, c, reg.ups - tags);
    }
    if c :| Cycle(reg, c, reg.ups - tags) {
      CycleIsBlocked(reg, c, reg.ups - tags);
      var m := set i | 0 <= i < |c| :: c[i];
      BlockedStays(reg, ToApply(reg, tags), tags, m);
    }
  }

  /** A tag that no upgrader adds and that is not there now is never there again: whoever depends
      on it is never applied. */
  lemma {:induction false} AbsentBlocks(reg: Registry, toApply: set<Tag>, tags: set<Tag>, t: Tag, d: Tag)
    requires t in toApply && t in reg.deps && d in reg.deps[t] && d !in reg.ups && d !in tags
    ensures var out := Rounds(reg, toApply, tags); out.Stuck? && t in out.left
    decreases |toApply|
  {
    var ready := Ready(reg, toApply, tags);
    if ready != {} {
      RemainderIsSmaller(toApply, ready);
      AbsentBlocks(reg, toApply - ready, Apply(reg, ready, tags), t, d);
    }
  }

  // ---------- rounds as they are carried out ----------

  function Members(w: seq<Tag>): set<Tag> {
    set t | t in w
  }

  /** The tags after some rounds, each a list of the scripts it applied. */
  function After(reg: Registry, start: set<Tag>, rounds: seq<seq<Tag>>): set<Tag> {
    if rounds == [] then start
    else Apply(reg, Members(rounds[|rounds| - 1]), After(reg, start, rounds[..|rounds| - 1]))
  }

  ghost function Applied(rounds: seq<seq<Tag>>): set<Tag> {
    if rounds == [] then {} else Applied(rounds[..|rounds| - 1]) + Members(rounds[|rounds| - 1])
  }

  /** A round takes all scripts that are ready, in any order. */
  ghost predicate IsRound(reg: Registry, tags: set<Tag>, round: seq<Tag>) {
    round != [] && Distinct(round) && Members(round) == Ready(reg, ToApply(reg, tags), tags)
  }

  ghost predicate Carried(reg: Registry, start: set<Tag>, rounds: seq<seq<Tag>>) {
    rounds == [] ||
    var before, last := rounds[..|rounds| - 1], rounds[|rounds| - 1];
    Carried(reg, start, before) && IsRound(reg, After(reg, start, before), last)
  }

  /** Adding or removing the tag of one script; removing wants the tag to be there. */
  method Update(reg: Registry, tag: Tag, tags: set<Tag>) returns (r: set<Tag>)
    requires tag in reg.ups || tag in tags
    ensures tag in reg.ups ==> r == tags + {tag}
    ensures tag !in reg.ups ==> r == tags - {tag} && |r| == |tags| - 1
  {
    if tag in reg.ups {
      r := tags + {tag};
    } else {
      r := tags - {tag};
    }
  }

  lemma ApplyOne(reg: Registry, done: set<Tag>, t: Tag, tags: set<Tag>)
    requires reg.Consistent() && t in reg.deps && t !in done
    ensures Apply(reg, done + {t}, tags) ==
            if t in reg.ups then Apply(reg, done, tags) + {t} else Apply(reg, done, tags) - {t}
    ensures t in tags ==> t in Apply(reg, done, tags)
  {
  }

  lemma MembersHas(w: seq<Tag>, t: Tag)
    ensures t in w <==> t in Members(w)
  {
  }

  lemma MembersSnoc(w: seq<Tag>, t: Tag)
    requires Distinct(w) && t !in Members(w)
    ensures Distinct(w + [t]) && Members(w + [t]) == Members(w) + {t}
  {
  }

  /** Every ready script is a missing upgrader, or a downgrader whose tag is there. */
  lemma ReadyFits(reg: Registry, tags: set<Tag>, t: Tag)
    requires reg.Consistent() && t in Ready(reg, ToApply(reg, tags), tags)
    ensures t in reg.deps && (t in reg.ups || t in tags)
  {
  }

  /** One pass over the ready set, in any order; every removal finds its tag. */
  method ApplyAll(reg: Registry, ready: set<Tag>, tags0: set<Tag>) returns (tags: set<Tag>, round: seq<Tag>)
    requires reg.Consistent() && ready == Ready(reg, ToApply(reg, tags0), tags0)
    ensures tags == Apply(reg, ready, tags0) && Distinct(round) && Members(round) == ready
  {
    tags, round := tags0, [];
    var todo := ready;
    assert ready - todo == Members([]) && Apply(reg, {}, tags0) == tags0;
    while todo != {}
      invariant todo <= ready && tags == Apply(reg, ready - todo, tags0)
      invariant Distinct(round) && Members(round) == ready - todo
      decreases todo
    {
      var tag :| tag in todo;
      ReadyFits(reg, tags0, tag);
      ApplyOne(reg, ready - todo, tag, tags0);
      MembersSnoc(round, tag);
      assert ready - todo + {tag} == ready - (todo - {tag});
      tags := Update(reg, tag, tags);
      todo, round := todo - {tag}, round + [tag];
    }
    assert ready - {} == ready;
  }

  /** The migration loop between two rounds. */
  ghost predicate Migrating(reg: Registry, start: set<Tag>, tags: set<Tag>, toApply: set<Tag>, rounds: seq<seq<Tag>>) {
    && toApply == ToApply(reg, tags) && Rounds(reg, toApply, tags) == Rounds(reg, ToApply(reg, start), start)
    && Carried(reg, start, rounds) && tags == After(reg, start, rounds)
  }

  lemma RoundCarried(reg: Registry, start: set<Tag>, tags: set<Tag>, toApply: set<Tag>, rounds: seq<seq<Tag>>,
                     round: seq<Tag>)
    requires reg.Consistent() && Migrating(reg, start, tags, toApply, rounds) && toApply != {}
    requires Distinct(round) && Members(round) == Ready(reg, toApply, tags) != {}
    ensures Migrating(reg, start, Apply(reg, Members(round), tags), toApply - Members(round), rounds + [round])
  {
    RoundKeepsNeed(reg, tags);
    assert (rounds + [round])[..|rounds|] == rounds;
    assert round == [] ==> Members(round) == {};
  }

  lemma MigratingEnds(reg: Registry, start: set<Tag>, tags: set<Tag>, toApply: set<Tag>, rounds: seq<seq<Tag>>)
    requires reg.Consistent() && Migrating(reg, start, tags, toApply, rounds)
    ensures Applied(rounds) == ToApply(reg, start) - toApply
    ensures toApply == {} ==> Rounds(reg, ToApply(reg, start), start) == Done(tags)
    ensures toApply != {} && Ready(reg, toApply, tags) == {} ==>
              Rounds(reg, ToApply(reg, start), start) == Stuck(toApply, tags)
  {
    CarriedTags(reg, start, rounds);
  }

  lemma MigratingStarts(reg: Registry, start: set<Tag>)
    ensures Migrating(reg, start, start, ToApply(reg, start), [])
  {
  }

  /** The migration loop of one checkpoint. Whatever order a round is carried out in, the
      outcome is the same. */
  method Migrate(reg: Registry, start: set<Tag>) returns (out: Outcome, rounds: seq<seq<Tag>>)
    requires reg.Consistent()
    ensures out == Rounds(reg, ToApply(reg, start), start)
    ensures Carried(reg, start, rounds) && out.tags == After(reg, start, rounds)
    ensures Applied(rounds) == ToApply(reg, start) - if out.Stuck? then out.left else {}
  {
    var tags, toApply := start, ToApply(reg, start);
    rounds := [];
    MigratingStarts(reg, start);
    while toApply != {}
      invariant Migrating(reg, start, tags, toApply, rounds)
      decreases |toApply|
    {
      var ready := Ready(reg, toApply, tags);
      if ready == {} {
        MigratingEnds(reg, start, tags, toApply, rounds);
        return Stuck(toApply, tags), rounds;
      }
      RemainderIsSmaller(toApply, ready);
      ghost var tags0 := tags;
      var round: seq<Tag>;
      tags, round := ApplyAll(reg, ready, tags);
      RoundCarried(reg, start, tags0, toApply, rounds, round);
      toApply, rounds := toApply - ready, rounds + [round];
    }
    MigratingEnds(reg, start, tags, toApply, rounds);
    out := Done(tags);
  }

  // ---------- what a run applies, and when ----------

  lemma RoundTags(reg: Registry, start: set<Tag>, applied: set<Tag>, tags: set<Tag>, ready: set<Tag>)
    requires reg.Consistent() && applied <= ToApply(reg, start)
    requires tags == (start + applied * reg.ups) - applied * reg.downs && ready <= ToApply(reg, start) - applied
    ensures Apply(reg, ready, tags) == (start + (applied + ready) * reg.ups) - (applied + ready) * reg.downs
  {
  }

  lemma NeedAfter(reg: Registry, start: set<Tag>, applied: set<Tag>, tags: set<Tag>)
    requires reg.Consistent() && applied <= ToApply(reg, start)
    requires tags == (start + applied * reg.ups) - applied * reg.downs
    ensures ToApply(reg, tags) == ToApply(reg, start) - applied
  {
  }

  /** Only needed scripts are applied; the tags are the first ones, with those of the applied
      upgraders added and those of the applied downgraders removed. */
  lemma {:induction false} CarriedTags(reg: Registry, start: set<Tag>, rounds: seq<seq<Tag>>)
    requires reg.Consistent() && Carried(reg, start, rounds)
    ensures Applied(rounds) <= ToApply(reg, start)
    ensures After(reg, start, rounds) == (start + Applied(rounds) * reg.ups) - Applied(rounds) * reg.downs
    ensures ToApply(reg, After(reg, start, rounds)) == ToApply(reg, start) - Applied(rounds)
  {
    if rounds != [] {
      var before, last := rounds[..|rounds| - 1], rounds[|rounds| - 1];
      CarriedTags(reg, start, before);
      RoundTags(reg, start, Applied(before), After(reg, start, before), Members(last));
    }
    NeedAfter(reg, start, Applied(rounds), After(reg, start, rounds));
  }

  lemma {:induction false} CarriedPrefix(reg: Registry, start: set<Tag>, rounds: seq<seq<Tag>>, r: nat)
    requires Carried(reg, start, rounds) && r < |rounds|
    ensures Carried(reg, start, rounds[..r]) && IsRound(reg, After(reg, start, rounds[..r]), rounds[r])
  {
    if r < |rounds| - 1 {
      CarriedPrefix(reg, start, rounds[..|rounds| - 1], r);
      assert rounds[..|rounds| - 1][..r] == rounds[..r];
    }
  }

  /** What a script depends on is there when its round starts: an upgrade that the checkpoint had
      or that an earlier round made; a tag with a downgrader only if the checkpoint had it and no
      earlier round removed it; and any other tag only if the checkpoint had it. */
  lemma WhenApplied(reg: Registry, start: set<Tag>, rounds: seq<seq<Tag>>, r: nat, t: Tag, d: Tag)
    requires reg.Consistent() && Carried(reg, start, rounds) && r < |rounds| && t in rounds[r]
    requires t in reg.deps && d in reg.deps[t]
    ensures d in reg.ups ==> d in start || d in Applied(rounds[..r])
    ensures d in reg.downs ==> d in start && d !in Applied(rounds[..r])
    ensures d !in reg.ups ==> d in start
  {
    CarriedPrefix(reg, start, rounds, r);
    CarriedTags(reg, start, rounds[..r]);
    assert t in Members(rounds[r]);
  }

  lemma {:induction false} AppliedHas(rounds: seq<seq<Tag>>, q: nat, t: Tag)
    requires q < |rounds| && t in rounds[q]
    ensures t in Applied(rounds)
  {
    if q < |rounds| - 1 {
      AppliedHas(rounds[..|rounds| - 1], q, t);
    } else {
      assert t in Members(rounds[q]);
    }
  }

  lemma {:induction false} AppliedIn(rounds: seq<seq<Tag>>, t: Tag) returns (q: nat)
    requires t in Applied(rounds)
    ensures q < |rounds| && t in rounds[q]
  {
    if t in Members(rounds[|rounds| - 1]) {
      q := |rounds| - 1;
    } else {
      q := AppliedIn(rounds[..|rounds| - 1], t);
    }
  }

  /** No script is applied in two rounds; within a round no script comes twice. */
  lemma AppliedOnce(reg: Registry, start: set<Tag>, rounds: seq<seq<Tag>>, q: nat, r: nat, t: Tag)
    requires reg.Consistent() && Carried(reg, start, rounds)
    requires q < |rounds| && r < |rounds| && t in rounds[q] && t in rounds[r]
    ensures q == r && Distinct(rounds[r])
  {
    CarriedPrefix(reg, start, rounds, r);
    CarriedPrefix(reg, start, rounds, q);
    if q < r {
      NotAgain(reg, start, rounds, q, r, t);
    } else if r < q {
      NotAgain(reg, start, rounds, r, q, t);
    }
  }

  lemma NotAgain(reg: Registry, start: set<Tag>, rounds: seq<seq<Tag>>, q: nat, r: nat, t: Tag)
    requires reg.Consistent() && Carried(reg, start, rounds) && q < r < |rounds| && t in rounds[q]
    ensures t !in rounds[r]
  {
    CarriedPrefix(reg, start, rounds, r);
    CarriedTags(reg, start, rounds[..r]);
    AppliedHas(rounds[..r], q, t);
    MembersHas(rounds[r], t);
  }

  // ---------- tags with downgraders ----------

  /** The script at a place of the log runs after another one. */
  ghost predicate RunsAfter(rounds: seq<seq<Tag>>, r: nat, j: nat, d: Tag)
    requires r < |rounds| && j < |rounds[r]|
  {
    d in Applied(rounds[..r]) || d in rounds[r][..j]
  }

  /** The documentation says that depending on a tag with a downgrader means that the downgrader
      is executed first. In the code that happens exactly when both run in the same round and the
      iteration over that round happens to take the downgrader first. */
  lemma RemovedFirstIff(reg: Registry, start: set<Tag>, rounds: seq<seq<Tag>>, r: nat, j: nat, d: Tag)
    requires reg.Consistent() && Carried(reg, start, rounds) && r < |rounds| && j < |rounds[r]|
    requires rounds[r][j] in reg.deps && d in reg.deps[rounds[r][j]] && d in reg.downs
    ensures RunsAfter(rounds, r, j, d) <==> d in rounds[r][..j]
  {
    WhenApplied(reg, start, rounds, r, rounds[r][j], d);
  }

  /** Another order of the rounds is carried out just as well. */
  ghost predicate Reordered(a: seq<seq<Tag>>, b: seq<seq<Tag>>) {
    |a| == |b| && forall i | 0 <= i < |a| :: Members(a[i]) == Members(b[i]) && Distinct(b[i])
  }

  lemma {:induction false} AnyOrder(reg: Registry, start: set<Tag>, a: seq<seq<Tag>>, b: seq<seq<Tag>>)
    requires Carried(reg, start, a) && Reordered(a, b)
    ensures Carried(reg, start, b) && After(reg, start, b) == After(reg, start, a)
  {
    if a != [] {
      var n := |a| - 1;
      AnyOrder(reg, start, a[..n], b[..n]);
      assert a[n][0] in Members(a[n]) && Members(a[n]) == Members(b[n]);
    }
  }

  lemma MoveToFront(w: seq<Tag>, j: nat) returns (v: seq<Tag>)
    requires Distinct(w) && j < |w|
    ensures Distinct(v) && Members(v) == Members(w) && v != [] && v[0] == w[j]
  {
    v := [w[j]] + w[..j] + w[j + 1..];
    forall t ensures t in v <==> t in w {
      assert w == w[..j] + [w[j]] + w[j + 1..];
    }
  }

  /** So the documented order is never guaranteed: any run in which such a script is applied
      can also go so that the script runs while the tag is still there. */
  lemma RemovalNeverGuaranteed(reg: Registry, start: set<Tag>, rounds: seq<seq<Tag>>, r: nat, j: nat, d: Tag)
    returns (other: seq<seq<Tag>>)
    requires reg.Consistent() && Carried(reg, start, rounds) && r < |rounds| && j < |rounds[r]|
    requires rounds[r][j] in reg.deps && d in reg.deps[rounds[r][j]] && d in reg.downs
    ensures Reordered(rounds, other) && Carried(reg, start, other)
    ensures other[r] != [] && other[r][0] == rounds[r][j] && !RunsAfter(other, r, 0, d)
  {
    forall i | 0 <= i < |rounds| ensures Distinct(rounds[i]) {
      CarriedPrefix(reg, start, rounds, i);
    }
    var round := MoveToFront(rounds[r], j);
    other := rounds[r := round];
    AnyOrder(reg, start, rounds, other);
    RemovedFirstIff(reg, start, other, r, 0, d);
  }

  lemma OneRound(reg: Registry, start: set<Tag>, round: seq<Tag>)
    requires IsRound(reg, start, round)
    ensures Carried(reg, start, [round]) && Applied([round][..0]) == {}
  {
    var rounds := [round];
    assert rounds[..0] == [];
  }

  /** A checkpoint on which the two orders differ: an upgrader and the downgrader of the tag it
      depends on are ready together, and one order runs the upgrader without the tag. */
  lemma SameRoundRace()
    ensures var reg, start := Registry(map["t" := ["d"], "d" := []], {"t"}, {"d"}), {"d"};
            && reg.Consistent() && Carried(reg, start, [["d", "t"]]) && Carried(reg, start, [["t", "d"]])
            && Rounds(reg, ToApply(reg, start), start) == Done({"t"})
            && RunsAfter([["d", "t"]], 0, 1, "d") && !RunsAfter([["t", "d"]], 0, 0, "d")
            && "d" !in Apply(reg, {"d"}, start)
  {
    var reg, start := Registry(map["t" := ["d"], "d" := []], {"t"}, {"d"}), {"d"};
    var need := ToApply(reg, start);
    assert need == {"t", "d"};
    assert Ready(reg, need, start) == {"t", "d"};
    assert Apply(reg, {"t", "d"}, start) == {"t"};
    assert need - {"t", "d"} == {};
    var a, b := ["d", "t"], ["t", "d"];
    assert a[0] == "d" && a[1] == "t" && b[0] == "t" && b[1] == "d";
    assert Members(a) == {"t", "d"} && Members(b) == {"t", "d"};
    OneRound(reg, start, a);
    OneRound(reg, start, b);
    assert a[..1] == ["d"] && b[..0] == [];
  }
}

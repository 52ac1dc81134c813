/** The memory test's tree of caches: the number of testers computed in advance, and the
    recursive construction that numbers the subsystems of each level. */
module Memtest {

  /** Caches at all levels, testers at the uppermost one, one more tester entry than cache entries. */
  predicate ValidSpec(caches: seq<nat>, testers: seq<nat>) {
    && |caches| >= 1 && |testers| == |caches| + 1 && testers[|caches|] >= 1
    && forall i | 0 <= i < |caches| :: caches[i] >= 1
  }

  /** How many subsystems there are k levels above one whose fan-outs are these. */
  function Fan(s: seq<nat>, k: nat): nat
    requires k <= |s|
  {
    if k == 0 then 1 else s[0] * Fan(s[1..], k - 1)
  }

  /** The testers of a subtree: its own, and those of each of its subtrees. */
  function InTree(s: seq<nat>, t: seq<nat>): nat
    requires |t| == |s| + 1
  {
    if s == [] then t[0] else t[0] + s[0] * InTree(s[1..], t[1..])
  }

  // ---------- counting in advance ----------

  ghost function Weighted(t: seq<nat>, m: seq<nat>): nat
    requires |t| == |m|
  {
    if t == [] then 0 else Weighted(t[..|t| - 1], m[..|m| - 1]) + t[|t| - 1] * m[|m| - 1]
  }

  lemma {:induction false} FanSnoc(s: seq<nat>, k: nat)
    requires k < |s|
    ensures Fan(s, k + 1) == Fan(s, k) * s[k]
  {
    if k > 0 {
      FanSnoc(s[1..], k - 1);
      Reassociate(s[0], Fan(s[1..], k - 1), s[k]);
    }
  }

  lemma Reassociate(x: nat, y: nat, z: nat)
    ensures x * (y * z) == (x * y) * z
  {
  }

  ghost function Fans(s: seq<nat>, n: nat): seq<nat>
    requires n <= |s| + 1
  {
    seq(n, i requires 0 <= i < n => Fan(s, i))
  }

  /** Weighing every level with its number of subsystems counts the whole tree. */
  lemma {:induction false} WeightedIsTree(s: seq<nat>, t: seq<nat>)
    requires |t| == |s| + 1
    ensures Weighted(t, Fans(s, |t|)) == InTree(s, t)
  {
    WeightedCons(t, Fans(s, |t|));
    if s != [] {
      WeightedIsTree(s[1..], t[1..]);
      WeightedScale(t[1..], Fans(s[1..], |s|), s[0]);
      assert Fans(s, |t|)[1..] == Scaled(Fans(s[1..], |s|), s[0]);
    } else {
      assert Weighted(t[1..], Fans(s, |t|)[1..]) == 0;
    }
  }

  ghost function Scaled(m: seq<nat>, c: nat): seq<nat> {
    seq(|m|, i requires 0 <= i < |m| => c * m[i])
  }

  lemma {:induction false} WeightedScale(t: seq<nat>, m: seq<nat>, c: nat)
    requires |t| == |m|
    ensures Weighted(t, Scaled(m, c)) == c * Weighted(t, m)
  {
    if t != [] {
      var n := |t| - 1;
      WeightedScale(t[..n], m[..n], c);
      assert Scaled(m, c)[..n] == Scaled(m[..n], c);
      Distribute(c, Weighted(t[..n], m[..n]), t[n], m[n]);
    }
  }

  lemma Distribute(c: nat, w: nat, t: nat, m: nat)
    ensures c * w + t * (c * m) == c * (w + t * m)
  {
    assert t * (c * m) == c * (t * m);
  }

  lemma {:induction false} WeightedCons(t: seq<nat>, m: seq<nat>)
    requires |t| == |m| >= 1
    ensures Weighted(t, m) == t[0] * m[0] + Weighted(t[1..], m[1..])
  {
    var n := |t| - 1;
    if n > 0 {
      WeightedCons(t[..n], m[..n]);
      assert t[..n][1..] == t[1..][..n - 1] && m[..n][1..] == m[1..][..n - 1];
    } else {
      assert Weighted(t[1..], m[1..]) == 0 && Weighted(t[..n], m[..n]) == 0;
    }
  }

  method NumTesters(caches: seq<nat>, testers: seq<nat>) returns (total: nat)
    requires |testers| == |caches| + 1
    ensures total == InTree(caches, testers)
  {
    var multiplier := [1];
    for i := 0 to |caches|
      invariant multiplier == Fans(caches, i + 1)
    {
      FanSnoc(caches, i);
      multiplier := multiplier + [multiplier[|multiplier| - 1] * caches[i]];
    }
    total := 0;
    for i := 0 to |testers|
      invariant total == Weighted(testers[..i], multiplier[..i])
    {
      assert testers[..i + 1][..i] == testers[..i] && multiplier[..i + 1][..i] == multiplier[..i];
      total := total + testers[i] * multiplier[i];
    }
    assert testers[..|testers|] == testers && multiplier[..|testers|] == multiplier;
    WeightedIsTree(caches, testers);
  }

  // ---------- building ----------

  datatype Name = Name(level: nat, index: nat)

  /** The next index of a level once `times` subtrees with these fan-outs were built. */
  ghost function AddedAt(next: nat, s: seq<nat>, times: nat, l: nat): nat {
    if l <= |s| then next + times * Fan(s, |s| - l) else next
  }

  ghost function Added(next: seq<nat>, s: seq<nat>, times: nat): seq<nat> {
    seq(|next|, l requires 0 <= l < |next| => AddedAt(next[l], s, times, l))
  }

  lemma AddedNone(next: seq<nat>, s: seq<nat>)
    ensures Added(next, s, 0) == next
  {
  }

  lemma OneMore(n: nat, times: nat, f: nat)
    ensures n + times * f + 1 * f == n + (times + 1) * f
  {
  }

  lemma AddedOneMore(next: seq<nat>, s: seq<nat>, times: nat)
    ensures Added(Added(next, s, times), s, 1) == Added(next, s, times + 1)
  {
    forall l | 0 <= l < |next|
      ensures AddedAt(AddedAt(next[l], s, times, l), s, 1, l) == AddedAt(next[l], s, times + 1, l)
    {
      if l <= |s| {
        OneMore(next[l], times, Fan(s, |s| - l));
      }
    }
  }

  lemma AddedLevel(next: seq<nat>, s: seq<nat>)
    requires s != [] && |s| < |next|
    ensures Added(next[|s| := next[|s|] + 1], s[1..], s[0]) == Added(next, s, 1)
  {
    var up := next[|s| := next[|s|] + 1];
    forall l | 0 <= l < |next| ensures AddedAt(up[l], s[1..], s[0], l) == AddedAt(next[l], s, 1, l) {
      if l < |s| {
        assert Fan(s, |s| - l) == s[0] * Fan(s[1..], |s[1..]| - l);
      } else if l == |s| {
        assert Fan(s, 0) == 1;
      }
    }
  }

  lemma AddedTop(next: seq<nat>)
    requires next != []
    ensures Added(next, [], 1) == next[0 := next[0] + 1]
  {
    assert Fan([], 0) == 1;
  }

  lemma TreeTail(s: seq<nat>, t: seq<nat>, from: nat)
    requires from < |t| && |t| - from == |s| + 1 && s != []
    ensures InTree(s, t[from..]) == t[from] + s[0] * InTree(s[1..], t[from + 1..])
  {
    assert t[from..][1..] == t[from + 1..];
  }

  class Builder {
    const caches: seq<nat>
    const testerSpec: seq<nat>
    var nextIndex: seq<nat>
    var system: map<Name, nat>  // the subsystems, each with its number of testers
    var testers: nat

    /** The names in use are those below the counters. */
    ghost predicate Valid()
      reads this
    {
      && ValidSpec(caches, testerSpec) && |nextIndex| == |caches| + 1
      && (forall n: Name :: n in system <==> n.level < |nextIndex| && n.index < nextIndex[n.level])
      && forall n | n in system :: n.level <= |caches| && system[n] == testerSpec[|caches| - n.level]
    }

    constructor (caches: seq<nat>, testerSpec: seq<nat>)
      requires ValidSpec(caches, testerSpec)
      ensures Valid() && this.caches == caches && this.testerSpec == testerSpec
      ensures nextIndex == seq(|caches| + 1, _ => 0) && system == map[] && testers == 0
    {
      this.caches, this.testerSpec := caches, testerSpec;
      nextIndex := seq(|caches| + 1, _ => 0);
      system := map[];
      testers := 0;
    }

    /** Takes the next name of a level; no subsystem is there yet. */
    method AddSubsystem(level: nat) returns (ntesters: nat)
      requires Valid() && level <= |caches|
      modifies this
      ensures Valid() && ntesters == testerSpec[|caches| - level] && testers == old(testers) + ntesters
      ensures nextIndex == old(nextIndex)[level := old(nextIndex)[level] + 1]
      ensures Name(level, old(nextIndex)[level]) !in old(system)
      ensures system == old(system)[Name(level, old(nextIndex)[level]) := ntesters]
    {
      var index := nextIndex[level];
      nextIndex := nextIndex[level := index + 1];
      ntesters := testerSpec[|caches| - level];
      system := system[Name(level, index) := ntesters];
      testers := testers + ntesters;
    }

    /** A subtree: its subsystem, then one subtree behind each of its caches. */
    method MakeCacheLevel(ncaches: seq<nat>, prototypes: seq<nat>, level: nat)
      requires Valid() && level <= |caches| && ncaches == caches[|caches| - level..] && |prototypes| == level
      modifies this
      ensures Valid() && nextIndex == Added(old(nextIndex), ncaches, 1)
      ensures testers == old(testers) + InTree(ncaches, testerSpec[|caches| - level..])
      ensures forall n | n in old(system) :: n in system && system[n] == old(system[n])
      decreases level, 1
    {
      var ntesters := AddSubsystem(level);
      if level != 0 {
        var size := prototypes[0];  // the prototype of this level's caches
        MakeSubtrees(ncaches, prototypes, level);
        AddedLevel(old(nextIndex), ncaches);
        TreeTail(ncaches, testerSpec, |caches| - level);
      } else {
        assert ntesters >= 1;  // the uppermost level has a tester to connect
        AddedTop(old(nextIndex));
      }
    }

    method MakeSubtrees(ncaches: seq<nat>, prototypes: seq<nat>, level: nat)
      requires Valid() && 1 <= level <= |caches| && ncaches == caches[|caches| - level..] && |prototypes| == level
      modifies this
      ensures Valid() && nextIndex == Added(old(nextIndex), ncaches[1..], ncaches[0])
      ensures testers == old(testers) + ncaches[0] * InTree(ncaches[1..], testerSpec[|caches| - level + 1..])
      ensures forall n | n in old(system) :: n in system && system[n] == old(system[n])
      decreases level, 0
    {
      ghost var sub := InTree(ncaches[1..], testerSpec[|caches| - level + 1..]);
      AddedNone(nextIndex, ncaches[1..]);
      for k := 0 to ncaches[0]
        invariant Valid() && nextIndex == Added(old(nextIndex), ncaches[1..], k) && testers == old(testers) + k * sub
        invariant forall n | n in old(system) :: n in system && system[n] == old(system[n])
      {
        MakeCacheLevel(ncaches[1..], prototypes[1..], level - 1);
        AddedOneMore(old(nextIndex), ncaches[1..], k);
        OneMore(old(testers), k, sub);
      }
    }
  }

  /** The whole tree: at every level as many subsystems as the fan-outs below it multiply to,
      numbered from zero, one at the bottom, and as many testers as computed in advance. */
  method BuildTree(caches: seq<nat>, testerSpec: seq<nat>) returns (system: map<Name, nat>, testers: nat)
    requires ValidSpec(caches, testerSpec)
    ensures forall n: Name :: n in system <==> n.level <= |caches| && n.index < Fan(caches, |caches| - n.level)
    ensures forall n | n in system :: n.level <= |caches| && system[n] == testerSpec[|caches| - n.level]
    ensures testers == InTree(caches, testerSpec)
  {
    var b := new Builder(caches, testerSpec);
    assert caches[0..] == caches && testerSpec[0..] == testerSpec;
    b.MakeCacheLevel(caches, seq(|caches|, _ => 0), |caches|);
    system, testers := b.system, b.testers;
    forall l: nat | l <= |caches| ensures b.nextIndex[l] == Fan(caches, |caches| - l) {
      assert b.nextIndex[l] == AddedAt(0, caches, 1, l);
    }
  }
}

/** Loading the upgrade scripts: the chain of the legacy versions, forward dependencies turned
    round, and the audit that every tag named as a dependency exists. */
module CptLoad {
  import opened CptRounds

  class Upgrader {
    const tag: Tag
    const fwdDepends: seq<Tag>
    var depends: seq<Tag>

    constructor (tag: Tag, depends: seq<Tag>, fwdDepends: seq<Tag>)
      ensures this.tag == tag && this.depends == depends && this.fwdDepends == fwdDepends
    {
      this.tag, this.depends, this.fwdDepends := tag, depends, fwdDepends;
    }
  }

  type Scripts = map<Tag, Upgrader>

  /** Scripts are found under their own tags; a tag has one script, a script one version. */
  ghost predicate Registered(byTag: Scripts, legacy: map<int, Upgrader>) {
    && (forall t | t in byTag :: byTag[t].tag == t)
    && (forall v | v in legacy :: legacy[v].tag in byTag && byTag[legacy[v].tag] == legacy[v])
    && (forall v, w | v in legacy && w in legacy && legacy[v] == legacy[w] :: v == w)
  }

  ghost function Depends(byTag: Scripts): map<Tag, seq<Tag>>
    reads byTag.Values
  {
    map t | t in byTag :: byTag[t].depends
  }

  method SetDepends(byTag: Scripts, upg: Upgrader, depends: seq<Tag>)
    requires upg.tag in byTag && byTag[upg.tag] == upg && forall t | t in byTag :: byTag[t].tag == t
    modifies upg
    ensures Depends(byTag) == old(Depends(byTag))[upg.tag := depends]
  {
    upg.depends := depends;
  }

  // ---------- the legacy chain ----------

  function TagsOf(legacy: map<int, Upgrader>): map<int, Tag> {
    map v | v in legacy :: legacy[v].tag
  }

  /** The versions from 3 up to this one are all there, and so is version 2. */
  ghost predicate Counted(tags: map<int, Tag>, top: int) {
    3 <= top && (3 < top ==> 2 in tags) && forall v | 3 <= v < top :: v in tags
  }

  /** The dependencies after the versions 3 to top - 1 were each made to depend on the one before. */
  ghost function Chained(tags: map<int, Tag>, deps: map<Tag, seq<Tag>>, top: int): map<Tag, seq<Tag>>
    requires Counted(tags, top)
    decreases top
  {
    if top == 3 then deps
    else Chained(tags, deps, top - 1)[tags[top - 1] := [tags[top - 2]]]
  }

  /** The first version from 3 on that no script has. */
  method LinkLegacy(byTag: Scripts, legacy: map<int, Upgrader>) returns (ok: bool, ghost top: int)
    requires Registered(byTag, legacy)
    modifies byTag.Values
    ensures ok <==> (3 in legacy ==> 2 in legacy)
    ensures ok ==> Counted(TagsOf(legacy), top) && top !in legacy
                   && Depends(byTag) == Chained(TagsOf(legacy), old(Depends(byTag)), top)
  {
    if 3 in legacy && 2 !in legacy {
      return false, 3;
    }
    ghost var tags := TagsOf(legacy);
    var i := 3;
    ghost var left := legacy.Keys;
    while i in legacy
      invariant Counted(tags, i) && (i in legacy ==> i - 1 in legacy)
      invariant left <= legacy.Keys && forall v | v in legacy && i <= v :: v in left
      invariant Depends(byTag) == Chained(tags, old(Depends(byTag)), i)
      decreases |left|
    {
      SetDepends(byTag, legacy[i], [legacy[i - 1].tag]);
      left := left - {i};
      i := i + 1;
    }
    ok, top := true, i;
  }

  /** Each version of the chain depends on the one before and on nothing else; the other scripts
      keep what they declared. */
  lemma {:induction false} ChainedAt(tags: map<int, Tag>, deps: map<Tag, seq<Tag>>, top: int, t: Tag)
    requires Counted(tags, top) && t in deps
    requires forall v, w | v in tags && w in tags && tags[v] == tags[w] :: v == w
    ensures t in Chained(tags, deps, top)
    ensures forall v | 3 <= v < top && tags[v] == t :: Chained(tags, deps, top)[t] == [tags[v - 1]]
    ensures (forall v | 3 <= v < top :: tags[v] != t) ==> Chained(tags, deps, top)[t] == deps[t]
    decreases top
  {
    if top > 3 {
      ChainedAt(tags, deps, top - 1, t);
    }
  }

  // ---------- forward dependencies ----------

  /** One script's forward dependencies, each turned into a dependency on that script. */
  ghost function AddFrom(deps: map<Tag, seq<Tag>>, tag: Tag, fwd: seq<Tag>): map<Tag, seq<Tag>> {
    if fwd == [] then deps
    else
      var d, last := AddFrom(deps, tag, fwd[..|fwd| - 1]), fwd[|fwd| - 1];
      if last in d then d[last := d[last] + [tag]] else d
  }

  ghost function Resolved(deps: map<Tag, seq<Tag>>, fwd: map<Tag, seq<Tag>>, order: seq<Tag>): map<Tag, seq<Tag>>
  {
    if order == [] then deps
    else
      var d, last := Resolved(deps, fwd, order[..|order| - 1]), order[|order| - 1];
      if last in fwd then AddFrom(d, last, fwd[last]) else d
  }

  lemma {:induction false} AddFromKeys(deps: map<Tag, seq<Tag>>, tag: Tag, fwd: seq<Tag>)
    ensures AddFrom(deps, tag, fwd).Keys == deps.Keys
  {
    if fwd != [] {
      AddFromKeys(deps, tag, fwd[..|fwd| - 1]);
    }
  }

  lemma {:induction false} ResolvedKeys(declared: map<Tag, seq<Tag>>, fwd: map<Tag, seq<Tag>>, order: seq<Tag>)
    ensures Resolved(declared, fwd, order).Keys == declared.Keys
  {
    if order != [] {
      ResolvedKeys(declared, fwd, order[..|order| - 1]);
      var last := order[|order| - 1];
      if last in fwd {
        AddFromKeys(Resolved(declared, fwd, order[..|order| - 1]), last, fwd[last]);
      }
    }
  }

  lemma {:induction false} AddFromAt(deps: map<Tag, seq<Tag>>, tag: Tag, fwd: seq<Tag>, t: Tag, d: Tag)
    requires t in deps
    ensures AddFrom(deps, tag, fwd).Keys == deps.Keys
    ensures d in AddFrom(deps, tag, fwd)[t] <==> d in deps[t] || (d == tag && t in fwd)
  {
    if fwd != [] {
      AddFromAt(deps, tag, fwd[..|fwd| - 1], t, d);
      assert fwd == fwd[..|fwd| - 1] + [fwd[|fwd| - 1]];
    }
  }

  /** The arrows after resolution: those declared, and the forward ones turned round. */
  lemma {:induction false} ResolvedAt(deps: map<Tag, seq<Tag>>, fwd: map<Tag, seq<Tag>>, order: seq<Tag>, t: Tag, d: Tag)
    requires t in deps
    ensures Resolved(deps, fwd, order).Keys == deps.Keys
    ensures d in Resolved(deps, fwd, order)[t] <==> d in deps[t] || (d in order && d in fwd && t in fwd[d])
  {
    if order != [] {
      var before, last := order[..|order| - 1], order[|order| - 1];
      ResolvedAt(deps, fwd, before, t, d);
      if last in fwd {
        AddFromAt(Resolved(deps, fwd, before), last, fwd[last], t, d);
      }
      assert order == before + [last];
    }
  }

  function Forward(byTag: Scripts): map<Tag, seq<Tag>> {
    map t | t in byTag :: byTag[t].fwdDepends
  }

  predicate AllKnown(names: seq<Tag>, known: set<Tag>) {
    forall d | d in names :: d in known
  }

  method AddForward(byTag: Scripts, upg: Upgrader) returns (ok: bool)
    requires forall t | t in byTag :: byTag[t].tag == t
    modifies byTag.Values
    ensures ok <==> AllKnown(upg.fwdDepends, byTag.Keys)
    ensures ok ==> Depends(byTag) == AddFrom(old(Depends(byTag)), upg.tag, upg.fwdDepends)
  {
    for j := 0 to |upg.fwdDepends|
      invariant AllKnown(upg.fwdDepends[..j], byTag.Keys)
      invariant Depends(byTag) == AddFrom(old(Depends(byTag)), upg.tag, upg.fwdDepends[..j])
    {
      var fd := upg.fwdDepends[j];
      if fd !in byTag {
        return false;
      }
      assert upg.fwdDepends[..j + 1][..j] == upg.fwdDepends[..j];
      assert fd in Depends(byTag);
      SetDepends(byTag, byTag[fd], byTag[fd].depends + [upg.tag]);
    }
    assert upg.fwdDepends[..|upg.fwdDepends|] == upg.fwdDepends;
    ok := true;
  }

  method Audit(depends: seq<Tag>, known: set<Tag>) returns (ok: bool)
    ensures ok <==> AllKnown(depends, known)
  {
    for j := 0 to |depends|
      invariant AllKnown(depends[..j], known)
    {
      if depends[j] !in known {
        return false;
      }
    }
    assert depends[..|depends|] == depends;
    ok := true;
  }

  /** Scripts whose dependencies, forward and declared, all exist. */
  ghost predicate Sound(declared: map<Tag, seq<Tag>>, fwd: map<Tag, seq<Tag>>, tags: seq<Tag>, known: set<Tag>) {
    forall t | t in tags :: t in declared && t in fwd && AllKnown(fwd[t], known) && AllKnown(declared[t], known)
  }

  /** The audit of a script looks at forward dependencies added so far too; those always exist. */
  lemma AuditSeesDeclared(declared: map<Tag, seq<Tag>>, fwd: map<Tag, seq<Tag>>, order: seq<Tag>, t: Tag)
    requires t in declared && forall d | d in order :: d in declared
    ensures t in Resolved(declared, fwd, order)
    ensures AllKnown(Resolved(declared, fwd, order)[t], declared.Keys) <==> AllKnown(declared[t], declared.Keys)
  {
    ResolvedAt(declared, fwd, order, t, t);
    forall d ensures d in Resolved(declared, fwd, order)[t] <==>
                     d in declared[t] || (d in order && d in fwd && t in fwd[d])
    {
      ResolvedAt(declared, fwd, order, t, d);
    }
  }

  method ResolveForward(byTag: Scripts, order: seq<Tag>) returns (ok: bool)
    requires forall t | t in byTag :: byTag[t].tag == t
    requires forall t :: t in order <==> t in byTag
    modifies byTag.Values
    ensures ok <==> Sound(old(Depends(byTag)), Forward(byTag), order, byTag.Keys)
    ensures ok ==> Depends(byTag) == Resolved(old(Depends(byTag)), Forward(byTag), order)
  {
    ghost var declared, fwd := Depends(byTag), Forward(byTag);
    for k := 0 to |order|
      invariant Sound(declared, fwd, order[..k], byTag.Keys)
      invariant Depends(byTag) == Resolved(declared, fwd, order[..k])
    {
      var upg := byTag[order[k]];
      ok := AddForward(byTag, upg);
      if !ok {
        assert !AllKnown(fwd[order[k]], byTag.Keys);
        return;
      }
      assert order[..k + 1][..k] == order[..k];
      AuditSeesDeclared(declared, fwd, order[..k + 1], order[k]);
      assert upg.depends == Depends(byTag)[order[k]];
      ok := Audit(upg.depends, byTag.Keys);
      if !ok {
        assert !AllKnown(declared[order[k]], byTag.Keys);
        return;
      }
    }
    assert order[..|order|] == order;
    ok := true;
  }

  /** Every dependency left after loading names a script: what the migration loop relies on. */
  lemma LoadedIsClosed(declared: map<Tag, seq<Tag>>, fwd: map<Tag, seq<Tag>>, order: seq<Tag>)
    requires Sound(declared, fwd, order, declared.Keys) && forall t :: t in order <==> t in declared
    ensures UpgradersOnly(Registry(Resolved(declared, fwd, order), declared.Keys, {}))
  {
    var deps := Resolved(declared, fwd, order);
    forall t | t in declared ensures t in deps && AllKnown(deps[t], declared.Keys) {
      AuditSeesDeclared(declared, fwd, order, t);
    }
    ResolvedKeys(declared, fwd, order);
    forall u, d | u in deps && d in deps[u] ensures d in deps {
      assert AllKnown(deps[u], declared.Keys);
    }
  }

  /** Loading: succeeds exactly when the chain can start and every name is known, and then the
      dependencies are the chained ones with the forward arrows turned round. */
  method LoadAll(byTag: Scripts, legacy: map<int, Upgrader>, order: seq<Tag>) returns (ok: bool, ghost top: int)
    requires Registered(byTag, legacy) && forall t :: t in order <==> t in byTag
    modifies byTag.Values
    ensures (3 in legacy ==> 2 in legacy) ==> Counted(TagsOf(legacy), top) && top !in legacy
    ensures ok <==> (3 in legacy ==> 2 in legacy) &&
                    Sound(Chained(TagsOf(legacy), old(Depends(byTag)), top), Forward(byTag), order, byTag.Keys)
    ensures ok ==> Depends(byTag) ==
                   Resolved(Chained(TagsOf(legacy), old(Depends(byTag)), top), Forward(byTag), order)
    ensures ok ==> UpgradersOnly(Registry(Depends(byTag), byTag.Keys, {}))
  {
    ok, top := LinkLegacy(byTag, legacy);
    if ok {
      ghost var declared := Depends(byTag);
      ok := ResolveForward(byTag, order);
      if ok {
        LoadedIsClosed(declared, Forward(byTag), order);
      }
    }
  }

  // ---------- legacy checkpoints ----------

  /** The tags a checkpoint of a legacy version stands for. */
  ghost function LegacyTags(tags: map<int, Tag>, version: int): set<Tag> {
    set v | 2 <= v <= version && v in tags :: tags[v]
  }

  lemma LegacyTagsNext(tags: map<int, Tag>, v: int)
    requires 2 <= v && v in tags
    ensures LegacyTags(tags, v) == LegacyTags(tags, v - 1) + {tags[v]}
  {
    forall t | t in LegacyTags(tags, v) ensures t in LegacyTags(tags, v - 1) + {tags[v]} {
      var u :| 2 <= u <= v && u in tags && tags[u] == t;
    }
    forall t | t in LegacyTags(tags, v - 1) ensures t in LegacyTags(tags, v) {
      var u :| 2 <= u <= v - 1 && u in tags && tags[u] == t;
    }
  }

  method ConvertLegacy(legacy: map<int, Upgrader>, version: int) returns (ok: bool, tags: set<Tag>)
    ensures ok <==> forall v | 2 <= v <= version :: v in legacy
    ensures ok ==> tags == LegacyTags(TagsOf(legacy), version)
  {
    tags := {};
    var i := 2;
    while i < version + 1
      invariant 2 <= i && (i <= version + 1 || i == 2)
      invariant tags == LegacyTags(TagsOf(legacy), i - 1)
      invariant forall v | 2 <= v < i :: v in legacy
    {
      if i !in legacy {
        return false, tags;
      }
      LegacyTagsNext(TagsOf(legacy), i);
      tags := tags + {legacy[i].tag};
      i := i + 1;
    }
    ok := true;
  }

  /** Turning forward arrows round keeps the chain. */
  lemma LoadedChain(tags: map<int, Tag>, deps: map<Tag, seq<Tag>>, top: int, fwd: map<Tag, seq<Tag>>,
                    order: seq<Tag>, v: int)
    requires Counted(tags, top) && forall a, b | a in tags && b in tags && tags[a] == tags[b] :: a == b
    requires 3 <= v < top && tags[v] in deps
    ensures var loaded := Resolved(Chained(tags, deps, top), fwd, order);
            tags[v] in loaded && tags[v - 1] in loaded[tags[v]]
  {
    ChainedAt(tags, deps, top, tags[v]);
    ResolvedAt(Chained(tags, deps, top), fwd, order, tags[v], tags[v - 1]);
  }

  /** A checkpoint of legacy version n: the later versions of the chain are applied in the order
      of their versions, each in a later round than the one before. */
  lemma {:induction false} LegacyVersionsInOrder(reg: Registry, tags: map<int, Tag>, top: int, n: int,
                                                 rounds: seq<seq<Tag>>, v: int, w: int, i: nat, j: nat)
    requires Counted(tags, top) && forall a, b | a in tags && b in tags && tags[a] == tags[b] :: a == b
    requires forall u | 3 <= u < top :: tags[u] in reg.deps && tags[u - 1] in reg.deps[tags[u]]
    requires reg.Consistent() && Carried(reg, LegacyTags(tags, n), rounds)
    requires 2 <= n < v < w < top
    requires i < |rounds| && j < |rounds| && tags[v] in rounds[i] && tags[w] in rounds[j]
    ensures i < j
    decreases w
  {
    var start := LegacyTags(tags, n);
    assert tags[w - 1] !in start;
    WhenApplied(reg, start, rounds, j, tags[w], tags[w - 1]);
    var k := AppliedIn(rounds[..j], tags[w - 1]);
    if v == w - 1 {
      AppliedOnce(reg, start, rounds, i, k, tags[v]);
    } else {
      LegacyVersionsInOrder(reg, tags, top, n, rounds, v, w - 1, i, k);
    }
  }
}

/** Whole runs of the coherence protocol with devices: what holds in all of them, which steps have
    no transition, which systems never meet one, and when a device's write loses a store. */
module MiDmaRuns {
  import opened MessageCounts
  import opened MiProtocol
  import opened MiCoherence
  import opened MiRuns
  import opened MiDma

  function Start(nodes: set<Node>, devices: set<Device>, v: Value): System {
    System(Init(nodes, v), Free, map d | d in devices :: Ready, [])
  }

  /** Where a run leads, or where it was when it met an undefined transition; and what was seen. */
  datatype History = Failed(x: System, log: seq<Note>) | Led(x: System, log: seq<Note>)

  function Goal(x: System, hs: seq<Happening>): History {
    if hs == [] then Led(x, [])
    else
      var before := Goal(x, hs[..|hs| - 1]);
      if before.Failed? then before
      else
        match Step(before.x, hs[|hs| - 1])
        case Stalled => before
        case Fails => Failed(before.x, before.log)
        case Goes(y, note) => Led(y, before.log + [note])
  }

  /** The block after the latest store or device write in a log, or the initial one. */
  function LatestNote(v: Value, log: seq<Note>): Value {
    if log == [] then v else Newest(LatestNote(v, log[..|log| - 1]), log[|log| - 1])
  }

  /** Every load and every device read of a log sees the block of the latest store or device write
      before it, and that of a device write has the words written. */
  ghost predicate CoherentNotes(v: Value, log: seq<Note>) {
    forall i | 0 <= i < |log| :: Tells(LatestNote(v, log[..i]), LatestNote(v, log[..i + 1]), log[i])
  }

  lemma CoherentOneMore(v: Value, log: seq<Note>, note: Note, last': Value)
    requires CoherentNotes(v, log) && Tells(LatestNote(v, log), last', note)
    ensures CoherentNotes(v, log + [note]) && LatestNote(v, log + [note]) == last'
  {
    var all := log + [note];
    assert all[..|log|] == log && all[..|log| + 1] == all;
    forall i | 0 <= i < |all| ensures Tells(LatestNote(v, all[..i]), LatestNote(v, all[..i + 1]), all[i]) {
      if i < |log| {
        assert all[..i] == log[..i] && all[..i + 1] == log[..i + 1];
      }
    }
  }

  lemma StartIsSound(nodes: set<Node>, devices: set<Device>, v: Value)
    ensures Sound(Start(nodes, devices, v))
  {
    InitInv(nodes, v);
  }

  /** The main result with devices, over every run and without any condition: as far as the run
      gets, the invariant holds, and loads and device reads see the block of the latest store or
      device write. */
  lemma {:induction false} EveryRunWithDevices(nodes: set<Node>, devices: set<Device>, v: Value, hs: seq<Happening>)
    ensures var r := Goal(Start(nodes, devices, v), hs);
            Sound(r.x) && CoherentNotes(v, r.log) && r.x.s.last == LatestNote(v, r.log)
  {
    if hs == [] {
      StartIsSound(nodes, devices, v);
    } else {
      var front, h := hs[..|hs| - 1], hs[|hs| - 1];
      EveryRunWithDevices(nodes, devices, v, front);
      var before := Goal(Start(nodes, devices, v), front);
      StepSound(before.x, h);
      var r := Step(before.x, h);
      if r.Goes? {
        CoherentOneMore(v, before.log, r.note, r.x.s.last);
      }
    }
  }

  /** After any run, exactly three things that can happen next have no transition: a writeback that
      reaches the directory while it writes back for a device, or comes from a former owner while
      the directory waits for the owner's; a device's request in these four states; and an
      invalidation that reaches a cache in II or MII. */
  lemma NoTransitionIff(nodes: set<Node>, devices: set<Device>, v: Value, hs: seq<Happening>, h: Happening)
    ensures var x := Goal(Start(nodes, devices, v), hs).x; Step(x, h).Fails? <==> NoWay(x, h)
  {
    EveryRunWithDevices(nodes, devices, v, hs);
    StepSound(Goal(Start(nodes, devices, v), hs).x, h);
  }

  // ---------- systems that never meet one ----------

  ghost predicate AlwaysDefined(nodes: set<Node>, devices: set<Device>, v: Value) {
    forall hs :: Goal(Start(nodes, devices, v), hs).Led?
  }

  /** Nobody to own the block, or nobody to ask for it. */
  ghost predicate OneSided(x: System) {
    (x.s.caches.Keys == {} && !ForOwned(x.work)) || (x.devices.Keys == {} && x.wires == [] && x.work.Free?)
  }

  lemma NobodyOwns(x: System, h: Happening)
    requires Sound(x) && x.s.caches.Keys == {} && !ForOwned(x.work)
    ensures Step(x, h).Goes? ==> !ForOwned(Step(x, h).x.work)
  {
    assert x.s.owner.None? && x.s.dir != DirM;
  }

  lemma NobodyAsks(x: System, h: Happening)
    requires x.devices.Keys == {} && x.wires == [] && x.work.Free?
    ensures var r := Step(x, h); r.Goes? ==> h.Base? && r.x == x.(s := r.x.s)
  {
  }

  lemma WireKeepsCaches(x: System, i: nat)
    requires i < |x.wires|
    ensures WireStep(x, i).Goes? ==> WireStep(x, i).x.s.caches.Keys == x.s.caches.Keys
  {
  }

  lemma BaseKeepsCaches(x: System, e: Event)
    ensures BaseStep(x, e).Goes? ==> BaseStep(x, e).x.s.caches.Keys == x.s.caches.Keys
  {
    DoKeepsCaches(x.s, e);
  }

  lemma CachesStay(x: System, h: Happening)
    ensures Step(x, h).Goes? ==> Step(x, h).x.s.caches.Keys == x.s.caches.Keys
  {
    match h
    case Base(e) => BaseKeepsCaches(x, e);
    case Wired(i) =>
      if i < |x.wires| {
        WireKeepsCaches(x, i);
      }
    case _ =>
  }

  lemma StaysOneSided(x: System, h: Happening)
    requires Sound(x) && OneSided(x)
    ensures Step(x, h).Goes? ==> OneSided(Step(x, h).x)
    ensures !NoWay(x, h)
  {
    if x.s.caches.Keys == {} && !ForOwned(x.work) {
      CachesStay(x, h);
      NobodyOwns(x, h);
    } else {
      NobodyAsks(x, h);
    }
  }

  lemma {:induction false} NeverUndefined(nodes: set<Node>, devices: set<Device>, v: Value, hs: seq<Happening>)
    requires nodes == {} || devices == {}
    ensures var r := Goal(Start(nodes, devices, v), hs); r.Led? && OneSided(r.x)
  {
    if hs != [] {
      var front, h := hs[..|hs| - 1], hs[|hs| - 1];
      NeverUndefined(nodes, devices, v, front);
      EveryRunWithDevices(nodes, devices, v, front);
      var x := Goal(Start(nodes, devices, v), front).x;
      StaysOneSided(x, h);
      StepSound(x, h);
    }
  }

  // ---------- stories ----------

  /** Runs in which something goes wrong, told up to the step that does it. A cache a gets the block
      first. In `SecondRequest` a device reads, gets the owner's block, and asks again before memory
      has confirmed the writeback. In `FormerOwner` a writes back, but the directory first takes a
      request of b and then one of the device. In `LateInvalidation` the invalidation for a device's
      read reaches a only when a has the block again and has handed it on. In `LostWords` a stores
      into the block, and a device writes a part of it. */
  datatype Story = SecondRequest | FormerOwner | LateInvalidation | LostWords
  datatype Cast = Cast(a: Node, b: Node, d: Device, v: Value, w: Value, data: Value, len: nat)

  function Length(p: Story): nat {
    match p
    case SecondRequest => 12
    case FormerOwner => 11
    case LateInvalidation => 22
    case LostWords => 10
  }

  /** How a gets the block: its load, and four deliveries. */
  function Fetching(a: Node, k: nat): Happening {
    Base(if k == 0 then Load(a) else Deliver(0))
  }

  /** How a loses it to b during its writeback. */
  function Handing(a: Node, b: Node, k: nat): Happening {
    Base(if k == 0 then Load(b) else if k == 1 then Replace(a) else Deliver(0))
  }

  function HappensAt(p: Story, c: Cast, k: nat): Happening {
    if k < 5 then Fetching(c.a, k)
    else
      match p
      case SecondRequest =>
        if k == 5 || k == 10 then Ask(c.d) else if k == 6 || k == 7 then Wired(0)
        else if k == 8 then Base(Deliver(0)) else Wired(1)
      case FormerOwner =>
        if k < 8 then Handing(c.a, c.b, k - 5) else if k == 8 then Ask(c.d)
        else if k == 9 then Wired(0) else Base(Deliver(0))
      case LateInvalidation =>
        if k == 5 then Ask(c.d) else if k == 6 then Wired(0) else if k == 7 then Base(Replace(c.a))
        else if k < 12 then Base(Deliver(0)) else if k < 17 then Fetching(c.a, k - 12)
        else if k < 20 then Handing(c.a, c.b, k - 17) else if k == 20 then Base(Deliver(1)) else Wired(0)
      case LostWords =>
        if k == 5 then Base(Store(c.a, c.w)) else if k == 6 then Send(c.d, c.data, c.len)
        else if k < 9 then Wired(0) else Base(Deliver(0))
  }

  function Told(p: Story, c: Cast): seq<Happening> {
    seq(Length(p), k requires 0 <= k => HappensAt(p, c, k))
  }

  /** The caches, the directory, memory, the device, and what is under way. */
  datatype Scene = Scene(sa: CacheState, sb: CacheState, dir: DirState, owner: Option<Node>, net: seq<Msg>,
                         block: Value, last: Value, work: Work, wires: seq<Wire>, device: DeviceState)

  ghost predicate Shows(x: System, c: Cast, sc: Scene) {
    && c.a in x.s.caches && x.s.caches[c.a].st == sc.sa
    && (sc.sa == M ==> x.s.caches[c.a].data == sc.block) && (sc.sa == MI ==> x.s.caches[c.a].tbe == sc.block)
    && (c.b in x.s.caches && c.a != c.b ==> x.s.caches[c.b].st == sc.sb)
    && x.s.dir == sc.dir && x.s.owner == sc.owner && x.s.net == sc.net && x.s.memory == c.v && x.s.last == sc.last
    && x.work == sc.work && x.wires == sc.wires && c.d in x.devices && x.devices[c.d] == sc.device
  }

  function FetchScene(c: Cast, wires: seq<Wire>, device: DeviceState, k: nat): Scene {
    var a, v := c.a, c.v;
    if k == 0 then Scene(I, I, DirI, None, [], v, v, Free, wires, device)
    else if k == 1 then Scene(IS, I, DirI, None, [GetX(a)], v, v, Free, wires, device)
    else if k == 2 then Scene(IS, I, DirIM, Some(a), [MemRead(a)], v, v, Free, wires, device)
    else if k == 3 then Scene(IS, I, DirIM, Some(a), [MemData(a, v)], v, v, Free, wires, device)
    else if k == 4 then Scene(IS, I, DirM, Some(a), [Data(a, v)], v, v, Free, wires, device)
    else Scene(M, I, DirM, Some(a), [], v, v, Free, wires, device)
  }

  function HandScene(c: Cast, wires: seq<Wire>, device: DeviceState, k: nat): Scene {
    var a, b, v := c.a, c.b, c.v;
    if k == 0 then FetchScene(c, wires, device, 5)
    else if k == 1 then Scene(M, IS, DirM, Some(a), [GetX(b)], v, v, Free, wires, device)
    else if k == 2 then Scene(MI, IS, DirM, Some(a), [GetX(b), PutX(a, v)], v, v, Free, wires, device)
    else Scene(MI, IS, DirM, Some(b), [PutX(a, v), Fwd(a, b)], v, v, Free, wires, device)
  }

  function SecondScene(c: Cast, k: nat): Scene {
    var a, d, v := c.a, c.d, c.v;
    if k == 6 then Scene(M, I, DirM, Some(a), [], v, v, Free, [ReadReq(d)], BusyRead)
    else if k == 7 then Scene(M, I, DirM, Some(a), [], v, v, MDRD(d), [Invalidate(a)], BusyRead)
    else if k == 8 then Scene(MI, I, DirM, Some(a), [PutX(a, v)], v, v, MDRD(d), [Invalidate(a)], BusyRead)
    else if k == 9 then Scene(MI, I, DirMI, None, [MemWrite(a, v)], v, v, MDRDI(d), [Invalidate(a), Answer(d, v)], BusyRead)
    else if k == 10 then Scene(MI, I, DirMI, None, [MemWrite(a, v)], v, v, MDRDI(d), [Invalidate(a)], Ready)
    else Scene(MI, I, DirMI, None, [MemWrite(a, v)], v, v, MDRDI(d), [Invalidate(a), ReadReq(d)], BusyRead)
  }

  function FormerScene(c: Cast, k: nat): Scene {
    var a, b, d, v := c.a, c.b, c.d, c.v;
    if k <= 8 then HandScene(c, [], Ready, if k < 5 then 0 else k - 5)
    else if k == 9 then Scene(MI, IS, DirM, Some(b), [PutX(a, v), Fwd(a, b)], v, v, Free, [ReadReq(d)], BusyRead)
    else Scene(MI, IS, DirM, Some(b), [PutX(a, v), Fwd(a, b)], v, v, MDRD(d), [Invalidate(b)], BusyRead)
  }

  function LateScene(c: Cast, k: nat): Scene {
    var a, b, v, ws := c.a, c.b, c.v, [Invalidate(c.a), Answer(c.d, c.v)];
    if k <= 9 then SecondScene(c, k)
    else if k == 10 then Scene(MI, I, DirMI, None, [MemAck(a)], v, v, MDRDI(c.d), ws, BusyRead)
    else if k == 11 then Scene(MI, I, DirI, None, [WbAck(a)], v, v, Free, ws, BusyRead)
    else if k <= 17 then FetchScene(c, ws, BusyRead, k - 12)
    else if k <= 20 then HandScene(c, ws, BusyRead, k - 17)
    else Scene(II, IS, DirM, Some(b), [PutX(a, v), Data(b, v)], v, v, Free, ws, BusyRead)
  }

  function LostScene(c: Cast, k: nat): Scene {
    var a, d, w := c.a, c.d, c.w;
    if k == 6 then Scene(M, I, DirM, Some(a), [], w, w, Free, [], Ready)
    else if k == 7 then Scene(M, I, DirM, Some(a), [], w, w, Free, [WriteReq(d, c.data, c.len)], BusyWrite)
    else if k == 8 then Scene(M, I, DirM, Some(a), [], w, w, MDWR(d, c.data, c.len), [Invalidate(a)], BusyWrite)
    else Scene(MI, I, DirM, Some(a), [PutX(a, w)], w, w, MDWR(d, c.data, c.len), [Invalidate(a)], BusyWrite)
  }

  function SceneAt(p: Story, c: Cast, k: nat): Scene {
    if k <= 5 then FetchScene(c, [], Ready, k)
    else
      match p
      case SecondRequest => SecondScene(c, k)
      case FormerOwner => FormerScene(c, k)
      case LateInvalidation => LateScene(c, k)
      case LostWords => LostScene(c, k)
  }

  lemma FetchBegins(c: Cast, wires: seq<Wire>, device: DeviceState, x: System, k: nat)
    requires k < 3 && Shows(x, c, FetchScene(c, wires, device, k))
    ensures var r := Step(x, Fetching(c.a, k)); r.Goes? && Shows(r.x, c, FetchScene(c, wires, device, k + 1))
  {
    assert k > 0 ==> Without(x.s.net, 0) == [];
    match k
    case 0 => case 1 => case 2 =>
  }

  lemma FetchEnds(c: Cast, wires: seq<Wire>, device: DeviceState, x: System, k: nat)
    requires 3 <= k < 5 && Shows(x, c, FetchScene(c, wires, device, k))
    ensures var r := Step(x, Fetching(c.a, k)); r.Goes? && Shows(r.x, c, FetchScene(c, wires, device, k + 1))
  {
    assert Without(x.s.net, 0) == [];
    match k
    case 3 => case 4 =>
  }

  lemma FetchStep(c: Cast, wires: seq<Wire>, device: DeviceState, x: System, k: nat)
    requires k < 5 && Shows(x, c, FetchScene(c, wires, device, k))
    ensures var r := Step(x, Fetching(c.a, k)); r.Goes? && Shows(r.x, c, FetchScene(c, wires, device, k + 1))
  {
    if k < 3 {
      FetchBegins(c, wires, device, x, k);
    } else {
      FetchEnds(c, wires, device, x, k);
    }
  }

  lemma HandStep(c: Cast, wires: seq<Wire>, device: DeviceState, x: System, k: nat)
    requires k < 3 && Shows(x, c, HandScene(c, wires, device, k)) && c.b in x.s.caches && c.a != c.b
    ensures var r := Step(x, Handing(c.a, c.b, k)); r.Goes? && Shows(r.x, c, HandScene(c, wires, device, k + 1))
  {
    assert k == 2 ==> Without(x.s.net, 0) == [PutX(c.a, c.v)];
    match k
    case 0 => case 1 => case 2 =>
  }

  ghost predicate Moves(p: Story, c: Cast, x: System, k: nat) {
    var r := Step(x, HappensAt(p, c, k)); r.Goes? && Shows(r.x, c, SceneAt(p, c, k + 1))
  }

  lemma SecondStepBefore(c: Cast, x: System, k: nat)
    requires 5 <= k < 8 && Shows(x, c, SceneAt(SecondRequest, c, k))
    ensures Moves(SecondRequest, c, x, k)
  {
    match k
    case 5 => case 6 => case 7 =>
  }

  lemma SecondStepAfter(c: Cast, x: System, k: nat)
    requires 8 <= k < 11 && Shows(x, c, SceneAt(SecondRequest, c, k))
    ensures Moves(SecondRequest, c, x, k)
  {
    match k
    case 8 => case 9 => case 10 =>
  }

  lemma FormerStep(c: Cast, x: System, k: nat)
    requires 5 <= k < 10 && Shows(x, c, SceneAt(FormerOwner, c, k)) && c.b in x.s.caches && c.a != c.b
    ensures Moves(FormerOwner, c, x, k)
  {
    if k < 8 {
      HandStep(c, [], Ready, x, k - 5);
    }
  }

  lemma LateStepBefore(c: Cast, x: System, k: nat)
    requires 5 <= k < 9 && Shows(x, c, SceneAt(LateInvalidation, c, k))
    ensures Moves(LateInvalidation, c, x, k)
  {
    match k
    case 5 => SecondStepBefore(c, x, k);
    case 6 => SecondStepBefore(c, x, k);
    case 7 =>
    case 8 => SecondStepAfter(c, x, k);
  }

  lemma LateStepBetween(c: Cast, x: System, k: nat)
    requires 9 <= k < 12 && Shows(x, c, SceneAt(LateInvalidation, c, k))
    ensures Moves(LateInvalidation, c, x, k)
  {
    assert Without(x.s.net, 0) == [];
    match k
    case 9 => case 10 => case 11 =>
  }

  lemma LateStepAfter(c: Cast, x: System, k: nat)
    requires 12 <= k < 21 && Shows(x, c, SceneAt(LateInvalidation, c, k)) && c.b in x.s.caches && c.a != c.b
    ensures Moves(LateInvalidation, c, x, k)
  {
    var ws := [Invalidate(c.a), Answer(c.d, c.v)];
    if k < 17 {
      FetchStep(c, ws, BusyRead, x, k - 12);
    } else if k < 20 {
      HandStep(c, ws, BusyRead, x, k - 17);
    } else {
      assert Without(x.s.net, 1) == [PutX(c.a, c.v)];
    }
  }

  lemma LostStep(c: Cast, x: System, k: nat)
    requires 5 <= k < 9 && Shows(x, c, SceneAt(LostWords, c, k))
    ensures Moves(LostWords, c, x, k)
  {
    match k
    case 5 => case 6 => case 7 => case 8 =>
  }

  ghost predicate Plays(p: Story, c: Cast, x: System) {
    c.a in x.s.caches && (p == FormerOwner || p == LateInvalidation ==> c.b in x.s.caches && c.a != c.b)
  }

  lemma StoryStep(p: Story, c: Cast, x: System, k: nat)
    requires k + 1 < Length(p) && Plays(p, c, x) && Shows(x, c, SceneAt(p, c, k))
    ensures Moves(p, c, x, k)
  {
    if k < 5 {
      FetchStep(c, [], Ready, x, k);
    } else {
      match p
      case SecondRequest => if k < 8 { SecondStepBefore(c, x, k); } else { SecondStepAfter(c, x, k); }
      case FormerOwner => FormerStep(c, x, k);
      case LateInvalidation =>
        if k < 9 {
          LateStepBefore(c, x, k);
        } else if k < 12 {
          LateStepBetween(c, x, k);
        } else {
          LateStepAfter(c, x, k);
        }
      case LostWords => LostStep(c, x, k);
    }
  }

  ghost predicate Leads(start: System, hs: seq<Happening>, x: System) {
    Goal(start, hs).Led? && Goal(start, hs).x == x
  }

  lemma Advance(start: System, run: seq<Happening>, k: nat, x: System)
    requires k < |run| && Leads(start, run[..k], x)
    ensures Step(x, run[k]).Goes? ==> Leads(start, run[..k + 1], Step(x, run[k]).x)
    ensures Step(x, run[k]).Goes? ==> Goal(start, run[..k + 1]).log == Goal(start, run[..k]).log + [Step(x, run[k]).note]
    ensures Step(x, run[k]).Fails? ==> Goal(start, run[..k + 1]).Failed?
  {
    assert run[..k + 1][..k] == run[..k];
  }

  lemma {:induction false} Scenes(p: Story, c: Cast, start: System, k: nat) returns (x: System)
    requires Plays(p, c, start) && Shows(start, c, SceneAt(p, c, 0)) && k < Length(p)
    ensures Leads(start, Told(p, c)[..k], x) && Shows(x, c, SceneAt(p, c, k)) && Plays(p, c, x)
  {
    if k == 0 {
      x := start;
    } else {
      var y := Scenes(p, c, start, k - 1);
      StoryStep(p, c, y, k - 1);
      Advance(start, Told(p, c), k - 1, y);
      CachesStay(y, HappensAt(p, c, k - 1));
      x := Step(y, HappensAt(p, c, k - 1)).x;
    }
  }

  lemma AtTheStart(nodes: set<Node>, devices: set<Device>, p: Story, c: Cast)
    requires c.a in nodes && c.d in devices && (p == FormerOwner || p == LateInvalidation ==> c.b in nodes && c.a != c.b)
    ensures var start := Start(nodes, devices, c.v); Plays(p, c, start) && Shows(start, c, SceneAt(p, c, 0))
  {
  }

  lemma LastStepFails(p: Story, c: Cast, x: System)
    requires p != LostWords && Plays(p, c, x) && Shows(x, c, SceneAt(p, c, Length(p) - 1))
    ensures Step(x, HappensAt(p, c, Length(p) - 1)).Fails?
  {
    match p
    case SecondRequest => case FormerOwner => case LateInvalidation =>
  }

  /** Each of the three situations occurs, in every system with a cache and a device, or two caches
      and a device. */
  lemma EachSituationOccurs(nodes: set<Node>, devices: set<Device>, p: Story, c: Cast)
    requires p != LostWords && c.a in nodes && c.d in devices
    requires p == FormerOwner || p == LateInvalidation ==> c.b in nodes && c.a != c.b
    ensures Goal(Start(nodes, devices, c.v), Told(p, c)).Failed?
  {
    var start, run, n := Start(nodes, devices, c.v), Told(p, c), Length(p) - 1;
    AtTheStart(nodes, devices, p, c);
    var x := Scenes(p, c, start, n);
    LastStepFails(p, c, x);
    Advance(start, run, n, x);
    assert run[..n + 1] == run;
  }

  /** The exact extent of the protocol with devices: no run meets an undefined transition if and
      only if there is no cache or there is no device. */
  lemma AlwaysDefinedIff(nodes: set<Node>, devices: set<Device>, v: Value)
    ensures AlwaysDefined(nodes, devices, v) <==> nodes == {} || devices == {}
  {
    if nodes == {} || devices == {} {
      forall hs ensures Goal(Start(nodes, devices, v), hs).Led? {
        NeverUndefined(nodes, devices, v, hs);
      }
    } else {
      var a :| a in nodes;
      var d :| d in devices;
      EachSituationOccurs(nodes, devices, SecondRequest, Cast(a, a, d, v, v, v, 0));
    }
  }

  lemma DropsOwnerBlock(c: Cast, x: System)
    requires Shows(x, c, SceneAt(LostWords, c, 9))
    ensures var r := Step(x, HappensAt(LostWords, c, 9));
            r.Goes? && r.note == DeviceWrote(c.d, c.data, c.len, Merge(c.v, c.data, c.len)) && x.s.last == c.w
  {
  }

  /** A device's write of a part of the block loses a store into the rest: whatever the initial
      block, the block stored and the part written, if the two blocks differ outside that part. */
  lemma StoreIsLost(nodes: set<Node>, devices: set<Device>, c: Cast)
    requires c.a in nodes && c.d in devices && !SameOutside(c.v, c.w, c.data, c.len)
    ensures var r := Goal(Start(nodes, devices, c.v), Told(LostWords, c));
            && r.Led? && r.log != [] && LatestNote(c.v, r.log[..|r.log| - 1]) == c.w
            && !Exact(c.w, r.log[|r.log| - 1])
  {
    var start, run := Start(nodes, devices, c.v), Told(LostWords, c);
    AtTheStart(nodes, devices, LostWords, c);
    var x := Scenes(LostWords, c, start, 9);
    DropsOwnerBlock(c, x);
    Advance(start, run, 9, x);
    assert run[..10] == run;
    EveryRunWithDevices(nodes, devices, c.v, run[..9]);
    MergeSameIff(c.v, c.w, c.data, c.len);
    var log := Goal(start, run[..9]).log;
    assert Goal(start, run).log[..|log|] == log;
  }

  /** Over every run, exactly then: a device's write leaves the other words as the latest store or
      device write made them if and only if memory has them. */
  lemma EveryWriteExactIff(nodes: set<Node>, devices: set<Device>, v: Value, hs: seq<Happening>, h: Happening)
    requires var r := Step(Goal(Start(nodes, devices, v), hs).x, h); r.Goes? && r.note.DeviceWrote?
    ensures var g := Goal(Start(nodes, devices, v), hs);
            var note := Step(g.x, h).note;
            && (Exact(LatestNote(v, g.log), note) <==> SameOutside(g.x.s.memory, LatestNote(v, g.log), note.data, note.len))
            && (g.x.s.dir == DirI ==> Exact(LatestNote(v, g.log), note))
  {
    EveryRunWithDevices(nodes, devices, v, hs);
    ExactIff(Goal(Start(nodes, devices, v), hs).x, h);
  }
}

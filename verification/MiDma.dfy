/** The coherence protocol with devices that read and write memory directly. The directory serves
    them between the caches' requests; when a cache owns the block it must be invalidated first. */
module MiDma {
  import opened MessageCounts
  import opened MiProtocol
  import opened MiCoherence
  import opened MiRuns

  type Device = nat
  datatype DeviceState = Ready | BusyRead | BusyWrite

  /** What the directory does for a device: reading or writing memory while it is in state I,
      waiting for the owner's block, or writing back after that. */
  datatype Work = Free | ID(dev: Device) | IDW(dev: Device)
                | MDRD(dev: Device) | MDWR(dev: Device, data: Value, len: nat)
                | MDRDI(dev: Device) | MDWRI(dev: Device, data: Value, len: nat)

  /** Requests of devices, the messages to and from memory for them, answers, and invalidations.
      A write is for the first `len` words of a block, or for all of it if that is zero. */
  datatype Wire =
    | ReadReq(dev: Device) | WriteReq(dev: Device, data: Value, len: nat)
    | Fetch(dev: Device) | Fetched(dev: Device, data: Value) | Put(dev: Device, data: Value, len: nat) | PutDone(dev: Device)
    | Answer(dev: Device, data: Value) | Done(dev: Device)
    | Invalidate(to: Node)

  datatype System = System(s: State, work: Work, devices: map<Device, DeviceState>, wires: seq<Wire>)

  datatype Happening = Base(e: Event) | Ask(dev: Device) | Send(dev: Device, data: Value, len: nat) | Wired(i: nat)

  /** What processors and devices get to see; for a device's write also the block that results. */
  datatype Note = Silent | Cpu(seen: Seen) | DeviceRead(dev: Device, value: Value)
                | DeviceWrote(dev: Device, data: Value, len: nat, value: Value)
  datatype Result = Stalled | Fails | Goes(x: System, note: Note)

  function WithoutWire(ws: seq<Wire>, i: nat): seq<Wire>
    requires i < |ws|
  {
    ws[..i] + ws[i + 1..]
  }

  // ---------- writing a part of a block ----------

  predicate Covered(d: Value, len: nat, i: nat) {
    i < |d.words| && (len == 0 || i < len)
  }

  /** The block b with the first words of d written into it. */
  function Merge(b: Value, d: Value, len: nat): Value {
    Block(seq(|b.words|, i requires 0 <= i < |b.words| => if Covered(d, len, i) then d.words[i] else b.words[i]))
  }

  ghost predicate SameOutside(a: Value, b: Value, d: Value, len: nat) {
    |a.words| == |b.words| && forall i | 0 <= i < |a.words| && !Covered(d, len, i) :: a.words[i] == b.words[i]
  }

  lemma MergeSameIff(a: Value, b: Value, d: Value, len: nat)
    ensures Merge(a, d, len) == Merge(b, d, len) <==> SameOutside(a, b, d, len)
  {
    var x, y := Merge(a, d, len), Merge(b, d, len);
    if x == y {
      assert |x.words| == |a.words| && |y.words| == |b.words|;
      forall i | 0 <= i < |a.words| && !Covered(d, len, i) ensures a.words[i] == b.words[i] {
        assert x.words[i] == a.words[i] && y.words[i] == b.words[i];
      }
    }
    if SameOutside(a, b, d, len) {
      assert x.words == y.words;
    }
  }

  // ---------- the transitions ----------

  /** A step of the protocol without devices. */
  function Lift(x: System, e: Event): Result {
    match Do(x.s, e)
    case Stall => Stalled
    case Undefined => Fails
    case Next(s, seen) => Goes(x.(s := s), Cpu(seen))
  }

  predicate IsRequest(s: State, e: Event) {
    e.Deliver? && e.i < |s.net| && (s.net[e.i].GetX? || s.net[e.i].PutX?)
  }

  /** A cache's request while the directory waits for the owner's block. For a device that reads,
      the block is written back. For one that writes, memory gets the device's words only: the
      block that comes of it is known here, since memory is not written to in between. */
  function OwnerAnswers(x: System, i: nat): Result
    requires i < |x.s.net| && (x.work.MDRD? || x.work.MDWR?)
  {
    var m, rest := x.s.net[i], Without(x.s.net, i);
    if !m.PutX? then Stalled
    else if x.s.owner != Some(m.req) then Fails
    else
      var d := if x.work.MDRD? then m.data else Merge(x.s.memory, x.work.data, x.work.len);
      var s := x.s.(dir := DirMI, owner := None, net := rest + [MemWrite(m.req, d)]);
      if x.work.MDRD? then
        Goes(x.(s := s, work := MDRDI(x.work.dev), wires := x.wires + [Answer(x.work.dev, d)]), DeviceRead(x.work.dev, d))
      else
        Goes(x.(s := s.(last := d), work := MDWRI(x.work.dev, x.work.data, x.work.len)),
             DeviceWrote(x.work.dev, x.work.data, x.work.len, d))
  }

  function BaseStep(x: System, e: Event): Result {
    if x.work.Free? then Lift(x, e)
    else if IsRequest(x.s, e) then
      match x.work
      case MDRD(_) => OwnerAnswers(x, e.i)
      case MDWR(_, _, _) => OwnerAnswers(x, e.i)
      case MDRDI(_) => if x.s.net[e.i].GetX? then Stalled else Fails
      case MDWRI(_, _, _) => if x.s.net[e.i].GetX? then Stalled else Fails
      case _ => Stalled
    else if (x.work.MDRDI? || x.work.MDWRI?) && e.Deliver? && e.i < |x.s.net| && x.s.net[e.i].MemAck? then
      var r := Lift(x, e);
      if !r.Goes? then r
      else
        var done := if x.work.MDWRI? then [Done(x.work.dev)] else [];
        Goes(r.x.(work := Free, wires := x.wires + done), r.note)
    else Lift(x, e)
  }

  /** A device's request at the directory. */
  function TakeRequest(x: System, m: Wire, rest: seq<Wire>): Result
    requires m.ReadReq? || m.WriteReq?
  {
    if x.work.ID? || x.work.IDW? || (x.work.Free? && (x.s.dir == DirIM || x.s.dir == DirMI)) then Stalled
    else if !x.work.Free? then Fails
    else if x.s.dir == DirI then
      if m.ReadReq? then Goes(x.(work := ID(m.dev), wires := rest + [Fetch(m.dev)]), Silent)
      else Goes(x.(work := IDW(m.dev), wires := rest + [Put(m.dev, m.data, m.len)]), Silent)
    else if x.s.owner.None? then Fails
    else
      var work := if m.ReadReq? then MDRD(m.dev) else MDWR(m.dev, m.data, m.len);
      Goes(x.(work := work, wires := rest + [Invalidate(x.s.owner.value)]), Silent)
  }

  /** An invalidation at a cache. With the block the cache writes it back and keeps the
      invalidation for another look. */
  function TakeInvalidate(x: System, n: Node, rest: seq<Wire>): Result {
    if n !in x.s.caches then Fails
    else
      var c := x.s.caches[n];
      match c.st
      case I => Goes(x.(wires := rest), Silent)
      case MI => Goes(x.(wires := rest), Silent)
      case M => Goes(x.(s := Set(x.s, n, c.(st := MI, tbe := c.data), x.s.net + [PutX(n, c.data)])), Silent)
      case IS => Stalled
      case IM => Stalled
      case _ => Fails
  }

  function WireStep(x: System, i: nat): Result
    requires i < |x.wires|
  {
    var rest := WithoutWire(x.wires, i);
    match x.wires[i]
    case ReadReq(_) => TakeRequest(x, x.wires[i], rest)
    case WriteReq(_, _, _) => TakeRequest(x, x.wires[i], rest)
    case Fetch(d) => Goes(x.(wires := rest + [Fetched(d, x.s.memory)]), Silent)
    case Put(d, data, len) =>
      var v := Merge(x.s.memory, data, len);
      Goes(x.(s := x.s.(memory := v, last := v), wires := rest + [PutDone(d)]), DeviceWrote(d, data, len, v))
    case Fetched(_, v) =>
      if x.work.ID? then Goes(x.(work := Free, wires := rest + [Answer(x.work.dev, v)]), DeviceRead(x.work.dev, v))
      else Fails
    case PutDone(_) =>
      if x.work.IDW? then Goes(x.(work := Free, wires := rest + [Done(x.work.dev)]), Silent) else Fails
    case Answer(d, _) => Finish(x, d, BusyRead, rest)
    case Done(d) => Finish(x, d, BusyWrite, rest)
    case Invalidate(n) => TakeInvalidate(x, n, rest)
  }

  function Finish(x: System, d: Device, busy: DeviceState, rest: seq<Wire>): Result {
    if d in x.devices && x.devices[d] == busy then Goes(x.(devices := x.devices[d := Ready], wires := rest), Silent)
    else Fails
  }

  function Step(x: System, h: Happening): Result {
    match h
    case Base(e) => BaseStep(x, e)
    case Wired(i) => if i < |x.wires| then WireStep(x, i) else Stalled
    case Ask(d) => Begin(x, d, BusyRead, ReadReq(d))
    case Send(d, v, len) => Begin(x, d, BusyWrite, WriteReq(d, v, len))
  }

  function Begin(x: System, d: Device, busy: DeviceState, m: Wire): Result {
    if d in x.devices && x.devices[d] == Ready
    then Goes(x.(devices := x.devices[d := busy], wires := x.wires + [m]), Silent)
    else Stalled
  }

  // ---------- what every step keeps ----------

  predicate ForOwned(work: Work) {
    work.MDRD? || work.MDWR? || work.MDRDI? || work.MDWRI?
  }

  /** The device waits for the directory, and no message of it is under way. */
  predicate Serving(work: Work, d: Device) {
    (work.MDRD? || work.MDWR? || work.MDWRI?) && work.dev == d
  }

  predicate ServedOk(work: Work, devices: map<Device, DeviceState>) {
    match work
    case MDRD(d) => d in devices && devices[d] == BusyRead
    case MDWR(d, _, _) => d in devices && devices[d] == BusyWrite
    case MDWRI(d, _, _) => d in devices && devices[d] == BusyWrite
    case _ => true
  }

  predicate DirOk(work: Work, dir: DirState) {
    match work
    case Free => true
    case ID(_) => dir == DirI
    case IDW(_) => dir == DirI
    case MDRD(_) => dir == DirM
    case MDWR(_, _, _) => dir == DirM
    case MDRDI(_) => dir == DirMI
    case MDWRI(_, _, _) => dir == DirMI
  }

  /** What a device's message depends on. */
  datatype Context = Context(work: Work, devices: map<Device, DeviceState>, last: Value, nodes: set<Node>)

  function ContextOf(x: System): Context {
    Context(x.work, x.devices, x.s.last, x.s.caches.Keys)
  }

  /** The state of the device that a message belongs to, and of the directory. */
  predicate WireOk(m: Wire, c: Context) {
    if m.Invalidate? then m.to in c.nodes
    else
      && m.dev in c.devices && !Serving(c.work, m.dev)
      && match m
         case ReadReq(d) => c.devices[d] == BusyRead
         case Answer(d, _) => c.devices[d] == BusyRead
         case WriteReq(d, _, _) => c.devices[d] == BusyWrite
         case Done(d) => c.devices[d] == BusyWrite
         case Fetch(d) => c.work == ID(d) && c.devices[d] == BusyRead
         case Fetched(d, v) => c.work == ID(d) && c.devices[d] == BusyRead && v == c.last
         case Put(d, _, _) => c.work == IDW(d) && c.devices[d] == BusyWrite
         case PutDone(d) => c.work == IDW(d) && c.devices[d] == BusyWrite
         case Invalidate(_) => true
  }

  ghost predicate WiresOk(ws: seq<Wire>, c: Context) {
    && (forall i | 0 <= i < |ws| :: WireOk(ws[i], c))
    && (forall i, j | 0 <= i < j < |ws| && !ws[i].Invalidate? && !ws[j].Invalidate? :: ws[i].dev != ws[j].dev)
  }

  /** A device's write under way to memory is still what memory will make of the device's words. */
  ghost predicate PendingOk(s: State, work: Work) {
    work.MDWRI? ==>
      forall i | 0 <= i < |s.net| && s.net[i].MemWrite? :: s.net[i].data == Merge(s.memory, work.data, work.len)
  }

  /** The directory's state for its work, and the devices and their messages. */
  ghost predicate DevicesOk(x: System) {
    && DirOk(x.work, x.s.dir) && ServedOk(x.work, x.devices) && PendingOk(x.s, x.work)
    && WiresOk(x.wires, ContextOf(x))
  }

  /** What holds in every state of every run: the invariant of the caches, and this. */
  ghost predicate Sound(x: System) {
    Inv(x.s) && DevicesOk(x)
  }

  // ---------- steps of caches, directory and memory ----------

  /** While the directory is in state I, no store is completed and the directory takes no answer. */
  lemma NothingStored(s: State, e: Event)
    requires Inv(s) && s.dir == DirI && Do(s, e).Next? && !IsRequest(s, e)
    ensures Do(s, e).s.last == s.last
  {
    if e.Deliver? {
      NoDataUnderWay(s, e.i);
      NothingDelivered(s, e.i);
    } else {
      AtOf(s, e.n);
      NothingAsked(s, e);
    }
  }

  lemma NothingDelivered(s: State, i: nat)
    requires i < |s.net| && Do(s, Deliver(i)).Next? && !s.net[i].Data?
    ensures Do(s, Deliver(i)).s.last == s.last
  {
  }

  lemma NothingAsked(s: State, e: Event)
    requires !e.Deliver? && e.n in s.caches && s.caches[e.n].st != M && Do(s, e).Next?
    ensures Do(s, e).s.last == s.last
  {
  }

  lemma NoDataUnderWay(s: State, i: nat)
    requires Structure(s) && s.dir == DirI && i < |s.net|
    ensures !s.net[i].Data?
  {
    if s.net[i].Data? {
      var n := s.net[i].to;
      KnownWithout(s.caches.Keys, s.net, i);
      AtOf(s, n);
      Counted(s.net, i, n);
    }
  }

  /** Only requests and answers from memory change the directory's state. */
  lemma DirectoryStays(s: State, e: Event)
    requires Do(s, e).Next? && !IsRequest(s, e)
    ensures s.dir == DirI || s.dir == DirM ==> Do(s, e).s.dir == s.dir
    ensures s.dir == DirMI && !(e.Deliver? && s.net[e.i].MemAck?) ==> Do(s, e).s.dir == s.dir
    ensures s.dir == DirMI && e.Deliver? && s.net[e.i].MemAck? ==> Do(s, e).s.last == s.last
  {
  }

  lemma DoKeepsCaches(s: State, e: Event)
    ensures Do(s, e).Next? ==> Do(s, e).s.caches.Keys == s.caches.Keys
  {
  }

  /** Two messages that carry the block cannot be under way. */
  lemma OneCarrier(s: State, i: nat, j: nat)
    requires Structure(s) && i < |s.net| && j < |s.net| && Carries(s.net[i]) && Carries(s.net[j])
    ensures i == j
  {
    CarrierIsPlace(s, i);
    CarrierIsPlace(s, j);
    var n := Receiver(s.net[i]);
    OnlyPlace(s, n, Receiver(s.net[j]));
    if i != j {
      AtOf(s, n);
      CountedTwice(s.net, i, j, n);
    }
  }

  lemma CountedTwice(net: seq<Msg>, i: nat, j: nat, n: Node)
    requires i < |net| && j < |net| && i != j
    ensures var a, b, v := ViewOne(net[i], n), ViewOne(net[j], n), ViewOf(net, n);
            && a.data + b.data <= v.data && a.fetch + b.fetch <= v.fetch && a.write + b.write <= v.write
            && a.data + b.fetch <= v.data + v.fetch
  {
    var k := if j < i then j else j - 1;
    assert Without(net, i)[k] == net[j];
    ViewWithout(net, i, n);
    Counted(Without(net, i), k, n);
    Counted(net, i, n);
    Counted(net, j, n);
  }

  /** Memory gets what the directory said it would. */
  lemma PendingStays(s: State, work: Work, e: Event)
    requires Inv(s) && s.dir == DirMI && PendingOk(s, work) && Do(s, e).Next? && !IsRequest(s, e)
    ensures PendingOk(Do(s, e).s, work)
  {
    var s' := Do(s, e).s;
    InvKept(s, e);
    if e.Deliver? && s.net[e.i].MemWrite? {
      var n := |s'.net| - 1;
      assert s'.net[n].MemAck?;
      forall i | 0 <= i < |s'.net| ensures !s'.net[i].MemWrite? {
        if s'.net[i].MemWrite? {
          OneCarrier(s', i, n);
        }
      }
    } else {
      MemoryStays(s, e);
    }
  }

  lemma MemoryStays(s: State, e: Event)
    requires Do(s, e).Next? && !IsRequest(s, e) && !(e.Deliver? && s.net[e.i].MemWrite?)
    ensures Do(s, e).s.memory == s.memory
    ensures forall m | m in Do(s, e).s.net && m.MemWrite? :: m in s.net
  {
  }

  // ---------- the devices' messages ----------

  ghost predicate NoneOf(ws: seq<Wire>, d: Device) {
    forall k | 0 <= k < |ws| :: ws[k].Invalidate? || ws[k].dev != d
  }

  lemma Removed(ws: seq<Wire>, i: nat, c: Context, c': Context)
    requires i < |ws| && WiresOk(ws, c) && forall j | 0 <= j < |ws| && j != i :: WireOk(ws[j], c')
    ensures WiresOk(WithoutWire(ws, i), c')
    ensures !ws[i].Invalidate? ==> NoneOf(WithoutWire(ws, i), ws[i].dev)
  {
    var rest := WithoutWire(ws, i);
    forall j | 0 <= j < |rest|
      ensures WireOk(rest[j], c') && (rest[j].Invalidate? || ws[i].Invalidate? || rest[j].dev != ws[i].dev)
    {
      assert rest[j] == ws[if j < i then j else j + 1];
    }
    forall j, k | 0 <= j < k < |rest| && !rest[j].Invalidate? && !rest[k].Invalidate? ensures rest[j].dev != rest[k].dev {
      assert rest[j] == ws[if j < i then j else j + 1] && rest[k] == ws[if k < i then k else k + 1];
    }
  }

  lemma Appended(ws: seq<Wire>, m: Wire, c: Context)
    requires WiresOk(ws, c) && WireOk(m, c) && (m.Invalidate? || NoneOf(ws, m.dev))
    ensures WiresOk(ws + [m], c)
  {
    var all := ws + [m];
    assert all[|ws|] == m && forall j | 0 <= j < |ws| :: all[j] == ws[j];
  }

  /** Only one device is worked for: messages of others do not depend on the work. */
  lemma OthersStay(ws: seq<Wire>, i: nat, c: Context, c': Context)
    requires i < |ws| && WiresOk(ws, c) && !ws[i].Invalidate?
    requires c'.devices == c.devices && c'.nodes == c.nodes
    requires c.work.Free? || c.work == ID(ws[i].dev) || c.work == IDW(ws[i].dev)
    requires c'.work.Free? || c'.work.dev == ws[i].dev
    ensures forall j | 0 <= j < |ws| && j != i :: WireOk(ws[j], c')
  {
    forall j | 0 <= j < |ws| && j != i ensures WireOk(ws[j], c') {
      assert WireOk(ws[i], c) && WireOk(ws[j], c);
      assert !ws[j].Invalidate? ==> ws[i].dev != ws[j].dev;
    }
  }

  /** Unless a device reads memory, no message waits to be compared with the latest value. */
  lemma LastUnseen(ws: seq<Wire>, c: Context, last: Value)
    requires WiresOk(ws, c) && !c.work.ID?
    ensures WiresOk(ws, c.(last := last))
  {
    forall i | 0 <= i < |ws| ensures WireOk(ws[i], c.(last := last)) {
      assert WireOk(ws[i], c);
    }
  }

  /** The device that is served has no message under way. */
  lemma ServedIsSilent(ws: seq<Wire>, c: Context, work: Work)
    requires WiresOk(ws, c) && !c.work.Free? && Serving(c.work, c.work.dev)
    requires work.Free? || work.MDRDI? || (work.MDWRI? && work.dev == c.work.dev)
    ensures NoneOf(ws, c.work.dev) && WiresOk(ws, c.(work := work))
  {
    forall i | 0 <= i < |ws| ensures WireOk(ws[i], c.(work := work)) && (ws[i].Invalidate? || ws[i].dev != c.work.dev) {
      assert WireOk(ws[i], c);
    }
  }

  /** Work that concerns no message under way ends. */
  lemma WorkEnds(ws: seq<Wire>, c: Context)
    requires WiresOk(ws, c) && c.work.MDRDI?
    ensures WiresOk(ws, c.(work := Free))
  {
    forall i | 0 <= i < |ws| ensures WireOk(ws[i], c.(work := Free)) {
      assert WireOk(ws[i], c);
    }
  }

  // ---------- what a step tells ----------

  /** Processors and devices that read get the latest block; stores and devices that write make
      it. The words that a device writes are in the block that comes of it. */
  ghost predicate Tells(last: Value, last': Value, note: Note) {
    && (note.Cpu? && note.seen.Loaded? ==> note.seen.value == last)
    && (note.DeviceRead? ==> note.value == last)
    && (note.DeviceWrote? ==> HasWords(note.value, note.data, note.len))
    && last' == Newest(last, note)
  }

  ghost predicate HasWords(b: Value, d: Value, len: nat) {
    forall i | 0 <= i < |b.words| && Covered(d, len, i) :: b.words[i] == d.words[i]
  }

  lemma MergeHasWords(b: Value, d: Value, len: nat)
    ensures HasWords(Merge(b, d, len), d, len)
  {
  }

  function Newest(last: Value, note: Note): Value {
    match note
    case Cpu(Stored(_, v)) => v
    case DeviceWrote(_, _, _, v) => v
    case _ => last
  }

  ghost predicate Keeps(x: System, r: Result) {
    r.Goes? ==> Sound(r.x) && Tells(x.s.last, r.x.s.last, r.note)
  }

  // ---------- the owner's writeback for a device ----------

  lemma SameViews(rest: seq<Msg>, n: Node, d: Value, d': Value, k: Node)
    ensures ViewOf(rest + [MemWrite(n, d)], k) == ViewOf(rest + [MemWrite(n, d')], k)
  {
    ViewSnoc(rest, MemWrite(n, d), k);
    ViewSnoc(rest, MemWrite(n, d'), k);
  }

  /** While a block is under way to memory it may be replaced by another one: nothing else counts. */
  lemma OtherBlock(s: State, rest: seq<Msg>, n: Node, d: Value, d': Value)
    requires Inv(s) && s.net == rest + [MemWrite(n, d)]
    ensures Inv(s.(net := rest + [MemWrite(n, d')], last := d'))
  {
    var s', k := s.(net := rest + [MemWrite(n, d')], last := d'), |rest|;
    assert s.net[k] == MemWrite(n, d);
    CarrierIsPlace(s, k);
    AtOf(s, n);
    Counted(s.net, k, n);
    forall j | j in s.caches ensures At(s', j) && (IsPlace(s', j) ==> j == n) {
      AtOf(s, j);
      SameViews(rest, n, d, d', j);
      if IsPlace(s, j) {
        OnlyPlace(s, n, j);
      }
    }
    OtherBlockKnown(s, rest, n, d, d');
    StructureOf(s', n);
    OtherBlockValues(s, rest, n, d, d');
  }

  lemma OtherBlockKnown(s: State, rest: seq<Msg>, n: Node, d: Value, d': Value)
    requires AllKnown(s.caches.Keys, s.net) && s.net == rest + [MemWrite(n, d)]
    ensures AllKnown(s.caches.Keys, rest + [MemWrite(n, d')])
  {
    var net := rest + [MemWrite(n, d')];
    forall i | 0 <= i < |net| ensures Known(s.caches.Keys, net[i]) {
      assert i < |rest| ==> net[i] == s.net[i];
      assert s.net[|rest|] == MemWrite(n, d);
    }
  }

  lemma OtherBlockValues(s: State, rest: seq<Msg>, n: Node, d: Value, d': Value)
    requires Inv(s) && s.net == rest + [MemWrite(n, d)]
    requires Structure(s.(net := rest + [MemWrite(n, d')], last := d'))
    ensures Values(s.(net := rest + [MemWrite(n, d')], last := d'))
  {
    var s', k := s.(net := rest + [MemWrite(n, d')], last := d'), |rest|;
    assert s'.net[k] == MemWrite(n, d');
    CarrierIsPlace(s', k);
    AtOf(s', n);
    Counted(s'.net, k, n);
    forall j | j in s'.caches ensures CacheVal(s', j) {
      if j != n {
        CacheValElsewhere(s', n, j);
      }
    }
    forall i | 0 <= i < |s'.net| ensures MsgVal(s', s'.net[i]) {
      if i < k {
        assert s.net[i] == s'.net[i] && MsgVal(s, s.net[i]);
        if Carries(s'.net[i]) {
          OneCarrier(s', i, k);
        }
      }
    }
  }

  lemma ReadAnswered(x: System, i: nat)
    requires Inv(x.s) && x.work.MDRD? && i < |x.s.net| && x.s.net[i].PutX? && x.s.owner == Some(x.s.net[i].req)
    requires x.s.dir == DirM
    ensures var r, d := OwnerAnswers(x, i), x.work.dev;
            && r.Goes? && r.note == DeviceRead(d, x.s.last) && Inv(r.x.s)
            && r.x == System(r.x.s, MDRDI(d), x.devices, x.wires + [Answer(d, x.s.last)])
            && r.x.s.last == x.s.last && r.x.s.caches == x.s.caches && r.x.s.dir == DirMI
  {
    var m := x.s.net[i];
    InvKept(x.s, Deliver(i));
    assert Do(x.s, Deliver(i)) == Next(OwnerAnswers(x, i).x.s, Nothing);
    AtOwner(x.s);
    WritebackHasLast(x.s, i, m.req, m.data);
  }

  lemma AtOwner(s: State)
    requires Structure(s) && s.owner.Some?
    ensures s.owner.value in s.caches
  {
  }

  lemma ReaderAnswered(ws: seq<Wire>, c: Context, c': Context)
    requires WiresOk(ws, c) && c.work.MDRD? && ServedOk(c.work, c.devices)
    requires c' == c.(work := MDRDI(c.work.dev))
    ensures WiresOk(ws + [Answer(c.work.dev, c.last)], c')
  {
    ServedIsSilent(ws, c, c'.work);
    Appended(ws, Answer(c.work.dev, c.last), c');
  }

  lemma OwnerAnswersRead(x: System, i: nat)
    requires Sound(x) && x.work.MDRD? && i < |x.s.net| && x.s.net[i].PutX? && x.s.owner == Some(x.s.net[i].req)
    ensures var r := OwnerAnswers(x, i); r.Goes? && Keeps(x, r)
  {
    ReadAnswered(x, i);
    ReaderAnswered(x.wires, ContextOf(x), ContextOf(OwnerAnswers(x, i).x));
  }

  lemma WriteAnswered(x: System, i: nat)
    requires Inv(x.s) && x.work.MDWR? && i < |x.s.net| && x.s.net[i].PutX? && x.s.owner == Some(x.s.net[i].req)
    requires x.s.dir == DirM
    ensures var r, w, v := OwnerAnswers(x, i), x.work, Merge(x.s.memory, x.work.data, x.work.len);
            && r.Goes? && r.note == DeviceWrote(w.dev, w.data, w.len, v) && Inv(r.x.s) && PendingOk(r.x.s, r.x.work)
            && r.x == System(r.x.s, MDWRI(w.dev, w.data, w.len), x.devices, x.wires)
            && r.x.s.last == v && r.x.s.caches == x.s.caches && r.x.s.dir == DirMI
  {
    var m, rest, r := x.s.net[i], Without(x.s.net, i), OwnerAnswers(x, i);
    InvKept(x.s, Deliver(i));
    var s := Do(x.s, Deliver(i)).s;
    OtherBlock(s, rest, m.req, m.data, r.x.s.last);
    assert r.x.s == s.(net := rest + [MemWrite(m.req, r.x.s.last)], last := r.x.s.last);
    WriteIsPending(r.x.s, rest, m.req, r.x.s.last);
  }

  lemma WriterWaits(ws: seq<Wire>, c: Context, c': Context)
    requires WiresOk(ws, c) && c.work.MDWR? && c'.work.MDWRI? && c'.work.dev == c.work.dev
    requires c' == c.(work := c'.work, last := c'.last)
    ensures WiresOk(ws, c')
  {
    ServedIsSilent(ws, c, c'.work);
    LastUnseen(ws, c.(work := c'.work), c'.last);
  }

  lemma OwnerAnswersWrite(x: System, i: nat)
    requires Sound(x) && x.work.MDWR? && i < |x.s.net| && x.s.net[i].PutX? && x.s.owner == Some(x.s.net[i].req)
    ensures var r := OwnerAnswers(x, i); r.Goes? && Keeps(x, r)
  {
    WriteAnswered(x, i);
    MergeHasWords(x.s.memory, x.work.data, x.work.len);
    WriterWaits(x.wires, ContextOf(x), ContextOf(OwnerAnswers(x, i).x));
  }

  lemma WriteIsPending(s: State, rest: seq<Msg>, n: Node, d: Value)
    requires Inv(s) && s.net == rest + [MemWrite(n, d)]
    ensures forall i | 0 <= i < |s.net| && s.net[i].MemWrite? :: s.net[i].data == d
  {
    forall i | 0 <= i < |s.net| && s.net[i].MemWrite? ensures s.net[i].data == d {
      assert s.net[|rest|] == MemWrite(n, d);
      OneCarrier(s, i, |rest|);
    }
  }

  // ---------- steps without a device, and the end of a writeback ----------

  /** A step of the caches that the directory's work does not notice. */
  lemma MovedOn(x: System, s: State)
    requires DevicesOk(x) && s.caches.Keys == x.s.caches.Keys && DirOk(x.work, s.dir) && PendingOk(s, x.work)
    requires x.work.ID? ==> s.last == x.s.last
    ensures DevicesOk(x.(s := s))
  {
    if !x.work.ID? {
      LastUnseen(x.wires, ContextOf(x), s.last);
    }
  }

  lemma FreeMovesOn(x: System, e: Event)
    requires DevicesOk(x) && x.work.Free? && Do(x.s, e).Next?
    ensures DevicesOk(x.(s := Do(x.s, e).s))
  {
    DoKeepsCaches(x.s, e);
    MovedOn(x, Do(x.s, e).s);
  }

  lemma LiftWhileFree(x: System, e: Event)
    requires Sound(x) && x.work.Free?
    ensures var r := Lift(x, e); !r.Fails? && Keeps(x, r)
  {
    InvKept(x.s, e);
    if Do(x.s, e).Next? {
      StepShows(x.s, e);
      FreeMovesOn(x, e);
    }
  }

  lemma BusyMovesOn(x: System, e: Event)
    requires Sound(x) && !x.work.Free? && !IsRequest(x.s, e) && Do(x.s, e).Next?
    requires ForOwned(x.work) ==> !(e.Deliver? && e.i < |x.s.net| && x.s.net[e.i].MemAck?)
    ensures DevicesOk(x.(s := Do(x.s, e).s))
  {
    DoKeepsCaches(x.s, e);
    BusyDirectory(x, e);
    if x.work.ID? {
      NothingStored(x.s, e);
    }
    MovedOn(x, Do(x.s, e).s);
  }

  /** While the directory works for a device, all but requests and memory's answers go on. */
  lemma LiftWhileBusy(x: System, e: Event)
    requires Sound(x) && !x.work.Free? && !IsRequest(x.s, e)
    requires ForOwned(x.work) ==> !(e.Deliver? && e.i < |x.s.net| && x.s.net[e.i].MemAck?)
    ensures var r := Lift(x, e); !r.Fails? && Keeps(x, r)
  {
    InvKept(x.s, e);
    if Do(x.s, e).Next? {
      StepShows(x.s, e);
      BusyMovesOn(x, e);
    }
  }

  lemma BusyDirectory(x: System, e: Event)
    requires Sound(x) && !x.work.Free? && !IsRequest(x.s, e) && Do(x.s, e).Next?
    requires ForOwned(x.work) ==> !(e.Deliver? && e.i < |x.s.net| && x.s.net[e.i].MemAck?)
    ensures DirOk(x.work, Do(x.s, e).s.dir) && PendingOk(Do(x.s, e).s, x.work)
  {
    DirectoryStays(x.s, e);
    if x.work.MDWRI? {
      PendingStays(x.s, x.work, e);
    }
  }

  function DoneWires(work: Work): seq<Wire> {
    if work.MDWRI? then [Done(work.dev)] else []
  }

  lemma ConfirmTaken(x: System, i: nat)
    requires x.s.dir == DirMI && x.s.owner.None? && (x.work.MDRDI? || x.work.MDWRI?)
    requires i < |x.s.net| && x.s.net[i].MemAck?
    ensures var r := BaseStep(x, Deliver(i));
            && r.Goes? && r.note == Cpu(Nothing) && Do(x.s, Deliver(i)) == Next(r.x.s, Nothing)
            && r.x == System(r.x.s, Free, x.devices, x.wires + DoneWires(x.work))
            && r.x.s.last == x.s.last && r.x.s.caches == x.s.caches
  {
  }

  lemma DeviceTold(ws: seq<Wire>, c: Context)
    requires WiresOk(ws, c) && ServedOk(c.work, c.devices) && (c.work.MDRDI? || c.work.MDWRI?)
    ensures WiresOk(ws + DoneWires(c.work), c.(work := Free))
  {
    if c.work.MDWRI? {
      ServedIsSilent(ws, c, Free);
      Appended(ws, Done(c.work.dev), c.(work := Free));
    } else {
      WorkEnds(ws, c);
      assert ws + [] == ws;
    }
  }

  /** Memory confirms the writeback: the directory is free again, and a device that writes is told. */
  lemma WritebackEnds(x: System, i: nat)
    requires Sound(x) && (x.work.MDRDI? || x.work.MDWRI?) && i < |x.s.net| && x.s.net[i].MemAck?
    ensures var r := BaseStep(x, Deliver(i)); !r.Fails? && Keeps(x, r)
  {
    ConfirmTaken(x, i);
    InvKept(x.s, Deliver(i));
    DeviceTold(x.wires, ContextOf(x));
  }

  // ---------- exactly which steps have no transition ----------

  /** Cache requests: writebacks while a writeback for a device is under way, and writebacks of
      former owners while the directory waits for the owner's. */
  predicate NoWayForCache(x: System, e: Event) {
    && IsRequest(x.s, e) && x.s.net[e.i].PutX?
    && (x.work.MDRDI? || x.work.MDWRI? || ((x.work.MDRD? || x.work.MDWR?) && x.s.owner != Some(x.s.net[e.i].req)))
  }

  /** Device messages: requests while the directory works on a block that a cache owned, and
      invalidations that reach a cache which has handed the block on during its writeback, or is
      about to. */
  predicate NoWayForWire(x: System, i: nat) {
    && i < |x.wires|
    && match x.wires[i]
       case ReadReq(_) => ForOwned(x.work)
       case WriteReq(_, _, _) => ForOwned(x.work)
       case Invalidate(n) => n in x.s.caches && (x.s.caches[n].st == II || x.s.caches[n].st == MII)
       case _ => false
  }

  predicate NoWay(x: System, h: Happening) {
    match h
    case Base(e) => NoWayForCache(x, e)
    case Wired(i) => NoWayForWire(x, i)
    case _ => false
  }

  lemma BaseKept(x: System, e: Event)
    requires Sound(x)
    ensures var r := BaseStep(x, e); Keeps(x, r) && (r.Fails? <==> NoWayForCache(x, e))
  {
    if x.work.Free? {
      LiftWhileFree(x, e);
    } else if IsRequest(x.s, e) {
      RequestKept(x, e.i);
    } else if ForOwned(x.work) && e.Deliver? && e.i < |x.s.net| && x.s.net[e.i].MemAck? {
      AckKept(x, e.i);
    } else {
      LiftWhileBusy(x, e);
    }
  }

  lemma RequestKept(x: System, i: nat)
    requires Sound(x) && !x.work.Free? && IsRequest(x.s, Deliver(i))
    ensures var r := BaseStep(x, Deliver(i)); Keeps(x, r) && (r.Fails? <==> NoWayForCache(x, Deliver(i)))
  {
    if (x.work.MDRD? || x.work.MDWR?) && x.s.net[i].PutX? && x.s.owner == Some(x.s.net[i].req) {
      if x.work.MDRD? {
        OwnerAnswersRead(x, i);
      } else {
        OwnerAnswersWrite(x, i);
      }
    }
  }

  lemma AckKept(x: System, i: nat)
    requires Sound(x) && ForOwned(x.work) && i < |x.s.net| && x.s.net[i].MemAck?
    ensures var r := BaseStep(x, Deliver(i)); Keeps(x, r) && !r.Fails?
  {
    if x.work.MDRD? || x.work.MDWR? {
      NoAckUnderWay(x.s, i);
    } else {
      WritebackEnds(x, i);
    }
  }

  lemma NoAckUnderWay(s: State, i: nat)
    requires Structure(s) && s.dir == DirM && i < |s.net|
    ensures !s.net[i].MemAck?
  {
    if s.net[i].MemAck? {
      var n := s.net[i].req;
      KnownWithout(s.caches.Keys, s.net, i);
      AtOf(s, n);
      Counted(s.net, i, n);
    }
  }

  // ---------- steps of devices' messages ----------

  /** In state I a device may write memory: no cache and no message has a copy that counts. */
  lemma WriteKeepsInv(s: State, v: Value)
    requires Inv(s) && s.dir == DirI
    ensures Inv(s.(memory := v, last := v))
  {
    var s' := s.(memory := v, last := v);
    forall n | n in s.caches ensures At(s', n) && CacheVal(s', n) && !IsPlace(s', n) {
      AtOf(s, n);
    }
    StructureOf(s', 0);
    forall i | 0 <= i < |s'.net| ensures MsgVal(s', s'.net[i]) {
      assert MsgVal(s, s.net[i]);
      if Carries(s.net[i]) {
        var n := Receiver(s.net[i]);
        KnownWithout(s.caches.Keys, s.net, i);
        AtOf(s, n);
        Counted(s.net, i, n);
      }
    }
  }

  /** A message of a device is replaced by another one of the same device, or by an invalidation. */
  lemma Replaced(ws: seq<Wire>, i: nat, m: Wire, c: Context, c': Context)
    requires i < |ws| && WiresOk(ws, c) && !ws[i].Invalidate? && WireOk(m, c') && (m.Invalidate? || m.dev == ws[i].dev)
    requires c'.devices == c.devices && c'.nodes == c.nodes
    requires c.work.Free? || c.work == ID(ws[i].dev) || c.work == IDW(ws[i].dev)
    requires c'.work.Free? || c'.work.dev == ws[i].dev
    ensures WiresOk(WithoutWire(ws, i) + [m], c')
  {
    OthersStay(ws, i, c, c');
    Removed(ws, i, c, c');
    Appended(WithoutWire(ws, i), m, c');
  }

  lemma MemoryForDevice(x: System, i: nat)
    requires Sound(x) && i < |x.wires| && (x.wires[i].Fetch? || x.wires[i].Put?)
    ensures var r := WireStep(x, i); r.Goes? && Keeps(x, r)
  {
    var m, r, c := x.wires[i], WireStep(x, i), ContextOf(x);
    assert WireOk(m, c);
    var m' := if m.Fetch? then Fetched(m.dev, x.s.memory) else PutDone(m.dev);
    Replaced(x.wires, i, m', c, c.(last := r.x.s.last));
    if m.Put? {
      WriteKeepsInv(x.s, r.x.s.last);
      MergeHasWords(x.s.memory, m.data, m.len);
    }
  }

  lemma MemoryAnswers(x: System, i: nat)
    requires Sound(x) && i < |x.wires| && (x.wires[i].Fetched? || x.wires[i].PutDone?)
    ensures var r := WireStep(x, i); r.Goes? && Keeps(x, r)
  {
    var m, c := x.wires[i], ContextOf(x);
    assert WireOk(m, c);
    var m' := if m.Fetched? then Answer(m.dev, m.data) else Done(m.dev);
    Replaced(x.wires, i, m', c, c.(work := Free));
  }

  lemma RequestTaken(x: System, i: nat)
    requires Sound(x) && i < |x.wires| && (x.wires[i].ReadReq? || x.wires[i].WriteReq?)
    ensures var r := WireStep(x, i); Keeps(x, r) && (r.Fails? <==> ForOwned(x.work))
  {
    var m, c := x.wires[i], ContextOf(x);
    assert WireOk(m, c);
    if x.work.Free? && x.s.dir == DirI {
      var m' := if m.ReadReq? then Fetch(m.dev) else Put(m.dev, m.data, m.len);
      Replaced(x.wires, i, m', c, c.(work := if m.ReadReq? then ID(m.dev) else IDW(m.dev)));
    } else if x.work.Free? && x.s.dir == DirM {
      AtOwner(x.s);
      var work := if m.ReadReq? then MDRD(m.dev) else MDWR(m.dev, m.data, m.len);
      Replaced(x.wires, i, Invalidate(x.s.owner.value), c, c.(work := work));
    }
  }

  lemma DeviceDone(x: System, i: nat)
    requires Sound(x) && i < |x.wires| && (x.wires[i].Answer? || x.wires[i].Done?)
    ensures var r := WireStep(x, i); r.Goes? && Keeps(x, r)
  {
    var m, c := x.wires[i], ContextOf(x);
    assert WireOk(m, c);
    var c' := c.(devices := x.devices[m.dev := Ready]);
    forall j | 0 <= j < |x.wires| && j != i ensures WireOk(x.wires[j], c') {
      assert WireOk(x.wires[j], c);
      assert !x.wires[j].Invalidate? ==> x.wires[j].dev != m.dev;
    }
    Removed(x.wires, i, c, c');
  }

  /** An invalidation in state M is a replacement, except that it is kept for another look. */
  lemma OwnerInvalidated(x: System, n: Node, rest: seq<Wire>)
    requires Sound(x) && n in x.s.caches && x.s.caches[n].st == M
    ensures var r := TakeInvalidate(x, n, rest); r.Goes? && Keeps(x, r)
  {
    NoWriteWithOwner(x.s, x.work, n);
    InvKept(x.s, Replace(n));
    ReplacesBlock(x, n, rest);
    DoKeepsCaches(x.s, Replace(n));
    MovedOn(x, Do(x.s, Replace(n)).s);
  }

  lemma ReplacesBlock(x: System, n: Node, rest: seq<Wire>)
    requires n in x.s.caches && x.s.caches[n].st == M
    ensures var s := Do(x.s, Replace(n)).s;
            && Do(x.s, Replace(n)).Next? && TakeInvalidate(x, n, rest) == Goes(x.(s := s), Silent)
            && s.last == x.s.last && s.dir == x.s.dir
  {
  }

  lemma Dropped(x: System, i: nat)
    requires DevicesOk(x) && i < |x.wires| && x.wires[i].Invalidate?
    ensures x.wires[i].to in x.s.caches && DevicesOk(x.(wires := WithoutWire(x.wires, i)))
  {
    assert WireOk(x.wires[i], ContextOf(x));
    Removed(x.wires, i, ContextOf(x), ContextOf(x));
  }

  lemma InvalidationElsewhere(x: System, n: Node, rest: seq<Wire>)
    requires n in x.s.caches && x.s.caches[n].st != M
    ensures var r := TakeInvalidate(x, n, rest);
            && (r.Goes? ==> r == Goes(x.(wires := rest), Silent))
            && (r.Fails? <==> x.s.caches[n].st == II || x.s.caches[n].st == MII)
  {
  }

  lemma InvalidationKept(x: System, i: nat)
    requires Sound(x) && i < |x.wires| && x.wires[i].Invalidate?
    ensures var r := WireStep(x, i); Keeps(x, r) && (r.Fails? <==> NoWayForWire(x, i))
  {
    var n, rest := x.wires[i].to, WithoutWire(x.wires, i);
    Dropped(x, i);
    assert WireStep(x, i) == TakeInvalidate(x, n, rest);
    if x.s.caches[n].st == M {
      OwnerInvalidated(x, n, rest);
    } else {
      InvalidationElsewhere(x, n, rest);
    }
  }

  lemma NoWriteWithOwner(s: State, work: Work, n: Node)
    requires Structure(s) && DirOk(work, s.dir) && n in s.caches && s.caches[n].st == M
    ensures !work.MDWRI?
  {
    AtOf(s, n);
  }

  lemma DeviceBegins(x: System, d: Device, busy: DeviceState, m: Wire)
    requires Sound(x) && ((busy == BusyRead && m == ReadReq(d)) || (busy == BusyWrite && m.WriteReq? && m.dev == d))
    ensures var r := Begin(x, d, busy, m); !r.Fails? && Keeps(x, r)
  {
    if Begin(x, d, busy, m).Goes? {
      var c := ContextOf(x).(devices := x.devices[d := busy]);
      forall j | 0 <= j < |x.wires| ensures WireOk(x.wires[j], c) && (x.wires[j].Invalidate? || x.wires[j].dev != d) {
        assert WireOk(x.wires[j], ContextOf(x));
      }
      Appended(x.wires, m, c);
    }
  }

  /** In every state that the invariant allows, whatever happens next: a step that is taken keeps
      the invariant, reads tell the latest block, and there is no transition in exactly three
      situations. */
  lemma StepSound(x: System, h: Happening)
    requires Sound(x)
    ensures var r := Step(x, h); Keeps(x, r) && (r.Fails? <==> NoWay(x, h))
  {
    match h
    case Base(e) => BaseKept(x, e);
    case Ask(d) => DeviceBegins(x, d, BusyRead, ReadReq(d));
    case Send(d, v, len) => DeviceBegins(x, d, BusyWrite, WriteReq(d, v, len));
    case Wired(i) =>
      if i < |x.wires| {
        WireKept(x, i);
      }
  }

  lemma WireKept(x: System, i: nat)
    requires Sound(x) && i < |x.wires|
    ensures var r := WireStep(x, i); Keeps(x, r) && (r.Fails? <==> NoWayForWire(x, i))
  {
    match x.wires[i]
    case ReadReq(_) => RequestTaken(x, i);
    case WriteReq(_, _, _) => RequestTaken(x, i);
    case Fetch(_) => MemoryForDevice(x, i);
    case Put(_, _, _) => MemoryForDevice(x, i);
    case Fetched(_, _) => MemoryAnswers(x, i);
    case PutDone(_) => MemoryAnswers(x, i);
    case Answer(_, _) => DeviceDone(x, i);
    case Done(_) => DeviceDone(x, i);
    case Invalidate(_) => InvalidationKept(x, i);
  }

  // ---------- what a device's write does to the other words ----------

  /** The write changes the words it is for, and no others. */
  ghost predicate Exact(last: Value, note: Note) {
    note.DeviceWrote? ==> note.value == Merge(last, note.data, note.len)
  }

  /** A device's write leaves the other words alone if and only if memory has the latest of them.
      In directory state I that is always so. Otherwise the owner's block is dropped, and it is so
      exactly when no word outside the written part differs between the owner's block and memory. */
  lemma ExactIff(x: System, h: Happening)
    requires Sound(x) && Step(x, h).Goes? && Step(x, h).note.DeviceWrote?
    ensures var note := Step(x, h).note;
            && (Exact(x.s.last, note) <==> SameOutside(x.s.memory, x.s.last, note.data, note.len))
            && (x.s.dir == DirI ==> Exact(x.s.last, note))
  {
    var note := Step(x, h).note;
    WritesIntoMemory(x, h);
    MergeSameIff(x.s.memory, x.s.last, note.data, note.len);
  }

  lemma WritesIntoMemory(x: System, h: Happening)
    requires Step(x, h).Goes? && Step(x, h).note.DeviceWrote?
    ensures var note := Step(x, h).note; note.value == Merge(x.s.memory, note.data, note.len)
  {
    match h
    case Base(e) => BaseWrites(x, e);
    case _ =>
  }

  lemma BaseWrites(x: System, e: Event)
    requires BaseStep(x, e).Goes? && BaseStep(x, e).note.DeviceWrote?
    ensures var note := BaseStep(x, e).note; note.value == Merge(x.s.memory, note.data, note.len)
  {
  }
}

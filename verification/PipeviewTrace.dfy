/** Reading an O3PipeView trace: skipping to the requested start, collecting the
    events of one instruction after the other, stopping early, and printing what
    lies in the requested window. */
module PipeviewTrace {
  import opened PipeviewTypes
  import opened StableSort
  import opened PipeviewQueue

  /** One line of the trace, already split at its colons. */
  datatype Line =
    | Other
    | FetchLine(tick: int, pc: string, upc: string, sn: int, disasm: string)
    | StageLine(stage: Stage, tick: int)
    | RetireLine(tick: int, storeTick: int)

  datatype Config = Config(limits: Limits, window: Window, drift: nat, storeCompletions: bool)

  // ---------- the reader ----------

  /** Drop lines until one satisfies the start condition; [] at end of file. */
  function SkipToStart(w: Window, lines: seq<Line>): seq<Line> {
    if w.tickStart == 0 && w.snStart == 0 then lines
    else if lines == [] then []
    else if Starts(w, lines[0]) then lines
    else SkipToStart(w, lines[1..])
  }

  predicate Starts(w: Window, line: Line) {
    if w.tickStart != 0 then !line.Other? && line.tick >= w.tickStart
    else line.FetchLine? && line.sn >= w.snStart
  }

  function SkipToFetch(lines: seq<Line>): seq<Line> {
    if lines == [] || lines[0].FetchLine? then lines else SkipToFetch(lines[1..])
  }

  /** The lines of the region of interest, before the early stop. */
  function Region(w: Window, lines: seq<Line>): seq<Line> {
    SkipToFetch(SkipToStart(w, lines))
  }

  predicate TooLate(c: Config, line: Line) {
    line.FetchLine? &&
    ((c.window.tickStop > 0 && line.tick > c.window.tickStop + c.drift) ||
     (c.window.snStop > 0 && line.sn > c.window.snStop + c.limits.maxThreshold))
  }

  /** One record is reused for all instructions; a line overwrites its own fields only. */
  function Record(c: Config, curr: Inst, line: Line): Inst {
    match line
    case Other => curr
    case FetchLine(tick, pc, upc, sn, disasm) => Inst(sn, pc, upc, disasm, curr.ticks[Fetch := tick])
    case StageLine(stage, tick) => curr.(ticks := curr.ticks[stage := tick])
    case RetireLine(tick, storeTick) =>
      var ticks := curr.ticks[Retire := tick];
      curr.(ticks := if c.storeCompletions then ticks[Store := storeTick] else ticks,
            disasm := if tick == 0 then "-----" + curr.disasm else curr.disasm)
  }

  /** The instructions handed to the print queue, in their order. */
  function Queued(c: Config, lines: seq<Line>, curr: Inst): seq<Inst> {
    if lines == [] || TooLate(c, lines[0]) then []
    else
      var next := Record(c, curr, lines[0]);
      (if lines[0].RetireLine? then [next] else []) + Queued(c, lines[1..], next)
  }

  const Blank := Inst(0, "", "", "", map[])

  lemma RunSnoc(lim: Limits, xs: seq<Inst>, x: Inst)
    ensures Run(lim, xs + [x]) == Arrive(lim, Run(lim, xs), x)
  {
    assert (xs + [x])[..|xs|] == xs;
  }

  /** The two skipping loops at the start of the main function. */
  method FindRegion(w: Window, trace: seq<Line>) returns (lines: seq<Line>)
    ensures lines == Region(w, trace)
  {
    lines := trace;
    if w.tickStart != 0 || w.snStart != 0 {
      while lines != [] && !Starts(w, lines[0])
        invariant SkipToStart(w, lines) == SkipToStart(w, trace)
        decreases |lines|
      {
        lines := lines[1..];
      }
    }
    ghost var started := lines;
    while lines != [] && !lines[0].FetchLine?
      invariant SkipToFetch(lines) == SkipToFetch(started)
      decreases |lines|
    {
      lines := lines[1..];
    }
  }

  lemma QueuedStep(c: Config, done: seq<Inst>, lines: seq<Line>, curr: Inst)
    requires lines != [] && !TooLate(c, lines[0])
    ensures var next := Record(c, curr, lines[0]);
            done + Queued(c, lines, curr) ==
            (if lines[0].RetireLine? then done + [next] else done) + Queued(c, lines[1..], next)
  {
    var next := Record(c, curr, lines[0]);
    Regroup(done, [next], Queued(c, lines[1..], next));
  }

  lemma Regroup(a: seq<Inst>, b: seq<Inst>, d: seq<Inst>)
    ensures a + (b + d) == (a + b) + d && a + ([] + d) == a + d
  {
  }

  /** The viewer's main function: returns the instructions it prints. */
  method ProcessTrace(c: Config, trace: seq<Line>) returns (printed: seq<Inst>)
    ensures printed == Select(c.window, Flushed(c.limits, Queued(c, Region(c.window, trace), Blank)))
  {
    var lines := FindRegion(c.window, trace);
    var queue := new PrintQueue(c.limits, c.window);
    var curr := Blank;
    ghost var done: seq<Inst> := [];
    ghost var all := Queued(c, lines, Blank);
    while lines != [] && !TooLate(c, lines[0])
      invariant fresh(queue) && queue.limits == c.limits && queue.window == c.window
      invariant queue.Valid() && queue.Now() == Run(c.limits, done)
      invariant all == done + Queued(c, lines, curr)
      decreases |lines|
    {
      QueuedStep(c, done, lines, curr);
      curr := Record(c, curr, lines[0]);
      if lines[0].RetireLine? {
        RunSnoc(c.limits, done, curr);
        queue.QueueInst(curr);
        done := done + [curr];
      }
      lines := lines[1..];
    }
    assert all == done;
    queue.PrintInsts(0);
    printed := queue.printed;
  }

  // ---------- traces as the simulator writes them ----------

  /** What the simulator dumps for one instruction: seven lines, fetch first, retire last. */
  datatype Block = Block(sn: int, pc: string, upc: string, disasm: string,
                         fetch: int, decode: int, rename: int, dispatch: int,
                         issue: int, complete: int, retire: int, store: int)

  function StageLines(b: Block): seq<Line> {
    [StageLine(Decode, b.decode), StageLine(Rename, b.rename), StageLine(Dispatch, b.dispatch),
     StageLine(Issue, b.issue), StageLine(Complete, b.complete)]
  }

  function Head(b: Block): Line {
    FetchLine(b.fetch, b.pc, b.upc, b.sn, b.disasm)
  }

  /** All lines of a block behind its fetch line. */
  function Body(b: Block): seq<Line> {
    StageLines(b) + [RetireLine(b.retire, b.store)]
  }

  function TraceOf(bs: seq<Block>): seq<Line> {
    if bs == [] then [] else [Head(bs[0])] + Body(bs[0]) + TraceOf(bs[1..])
  }

  /** The lines that belong to the pipeline viewer. */
  function Strip(lines: seq<Line>): seq<Line> {
    if lines == [] then []
    else if lines[0].Other? then Strip(lines[1..])
    else [lines[0]] + Strip(lines[1..])
  }

  function TicksOf(c: Config, b: Block): map<Stage, int> {
    var m := map[Fetch := b.fetch, Decode := b.decode, Rename := b.rename, Dispatch := b.dispatch,
                 Issue := b.issue, Complete := b.complete, Retire := b.retire];
    if c.storeCompletions then m[Store := b.store] else m
  }

  function InstOf(c: Config, b: Block): Inst {
    Inst(b.sn, b.pc, b.upc, if b.retire == 0 then "-----" + b.disasm else b.disasm, TicksOf(c, b))
  }

  function Insts(c: Config, bs: seq<Block>): (r: seq<Inst>)
    ensures |r| == |bs| && forall i | 0 <= i < |bs| :: r[i] == InstOf(c, bs[i])
  {
    if bs == [] then [] else [InstOf(c, bs[0])] + Insts(c, bs[1..])
  }

  // ---------- lines of other kinds do not matter ----------

  lemma {:induction false} QueuedIgnoresOther(c: Config, lines: seq<Line>, curr: Inst)
    ensures Queued(c, Strip(lines), curr) == Queued(c, lines, curr)
  {
    if lines != [] {
      QueuedIgnoresOther(c, lines[1..], Record(c, curr, lines[0]));
      assert !lines[0].Other? ==> Strip(lines)[1..] == Strip(lines[1..]);
    }
  }

  lemma {:induction false} SkipToStartIgnoresOther(w: Window, lines: seq<Line>)
    ensures SkipToStart(w, Strip(lines)) == Strip(SkipToStart(w, lines))
  {
    if lines != [] {
      SkipToStartIgnoresOther(w, lines[1..]);
      assert !lines[0].Other? ==> Strip(lines)[1..] == Strip(lines[1..]);
    }
  }

  lemma {:induction false} SkipToFetchIgnoresOther(lines: seq<Line>)
    ensures SkipToFetch(Strip(lines)) == Strip(SkipToFetch(lines))
  {
    if lines != [] {
      SkipToFetchIgnoresOther(lines[1..]);
      assert !lines[0].Other? ==> Strip(lines)[1..] == Strip(lines[1..]);
    }
  }

  lemma OtherLinesDoNotMatter(c: Config, trace: seq<Line>)
    ensures Queued(c, Region(c.window, trace), Blank) == Queued(c, Region(c.window, Strip(trace)), Blank)
  {
    SkipToStartIgnoresOther(c.window, trace);
    SkipToFetchIgnoresOther(SkipToStart(c.window, trace));
    QueuedIgnoresOther(c, Region(c.window, trace), Blank);
  }

  // ---------- one block is one instruction ----------

  ghost predicate Clean(c: Config, curr: Inst) {
    Store in curr.ticks ==> c.storeCompletions
  }

  function RecordAll(c: Config, curr: Inst, lines: seq<Line>): Inst
    decreases |lines|
  {
    if lines == [] then curr else RecordAll(c, Record(c, curr, lines[0]), lines[1..])
  }

  lemma {:induction false} QueuedThrough(c: Config, pre: seq<Line>, rest: seq<Line>, curr: Inst)
    requires forall i | 0 <= i < |pre| :: pre[i].StageLine?
    ensures Queued(c, pre + rest, curr) == Queued(c, rest, RecordAll(c, curr, pre))
  {
    if pre == [] {
      assert pre + rest == rest;
    } else {
      assert (pre + rest)[1..] == pre[1..] + rest;
      QueuedThrough(c, pre[1..], rest, Record(c, curr, pre[0]));
    }
  }

  lemma RecordStages(c: Config, b: Block, curr: Inst)
    ensures var r := RecordAll(c, curr, StageLines(b));
            && r.sn == curr.sn && r.pc == curr.pc && r.upc == curr.upc && r.disasm == curr.disasm
            && r.ticks == curr.ticks[Decode := b.decode][Rename := b.rename][Dispatch := b.dispatch]
                                    [Issue := b.issue][Complete := b.complete]
  {
    var l := StageLines(b);
    var c1 := Record(c, curr, l[0]);
    var c2 := Record(c, c1, l[1]);
    var c3 := Record(c, c2, l[2]);
    var c4 := Record(c, c3, l[3]);
    var c5 := Record(c, c4, l[4]);
    assert l[1..][1..][1..][1..][1..] == [];
    assert RecordAll(c, c4, l[1..][1..][1..][1..]) == c5;
    assert RecordAll(c, c2, l[1..][1..]) == RecordAll(c, c4, l[1..][1..][1..][1..]);
    assert RecordAll(c, curr, l) == RecordAll(c, c2, l[1..][1..]);
  }

  /** The stale entries left by the previous instruction are all overwritten. */
  lemma TicksRecorded(c: Config, b: Block, m: map<Stage, int>)
    requires Store in m ==> c.storeCompletions
    ensures var t := m[Fetch := b.fetch][Decode := b.decode][Rename := b.rename][Dispatch := b.dispatch]
                      [Issue := b.issue][Complete := b.complete][Retire := b.retire];
            (if c.storeCompletions then t[Store := b.store] else t) == TicksOf(c, b)
  {
    var t := m[Fetch := b.fetch][Decode := b.decode][Rename := b.rename][Dispatch := b.dispatch]
              [Issue := b.issue][Complete := b.complete][Retire := b.retire];
    var r := if c.storeCompletions then t[Store := b.store] else t;
    forall s: Stage ensures s in r <==> s in TicksOf(c, b) {
      match s
      case Fetch => case Decode => case Rename => case Dispatch =>
      case Issue => case Complete => case Retire => case Store =>
    }
    assert r.Keys == TicksOf(c, b).Keys;
  }

  lemma BlockIsInst(c: Config, b: Block, rest: seq<Line>, curr: Inst)
    requires Clean(c, curr) && !TooLate(c, Head(b))
    ensures Queued(c, [Head(b)] + Body(b) + rest, curr) ==
            [InstOf(c, b)] + Queued(c, rest, InstOf(c, b))
  {
    var lines := [Head(b)] + Body(b) + rest;
    var tail := [RetireLine(b.retire, b.store)] + rest;
    var c1 := Record(c, curr, Head(b));
    assert lines[1..] == StageLines(b) + tail;
    QueuedThrough(c, StageLines(b), tail, c1);
    var c6 := RecordAll(c, c1, StageLines(b));
    RecordStages(c, b, c1);
    assert tail[1..] == rest;
    var c7 := Record(c, c6, tail[0]);
    TicksRecorded(c, b, curr.ticks);
    assert c7 == InstOf(c, b);
  }

  // ---------- what is skipped at the start is not wanted ----------

  lemma {:induction false} SkipToFetchOver(pre: seq<Line>, rest: seq<Line>)
    requires forall i | 0 <= i < |pre| :: !pre[i].FetchLine?
    ensures SkipToFetch(pre + rest) == SkipToFetch(rest)
  {
    if pre == [] {
      assert pre + rest == rest;
    } else {
      assert (pre + rest)[1..] == pre[1..] + rest;
      SkipToFetchOver(pre[1..], rest);
    }
  }

  /** If the start condition is met inside the lines behind a fetch, the skip to the next
      fetch goes past all of them; if it is not met there, the search goes on behind them. */
  lemma {:induction false} SkipOverBody(w: Window, pre: seq<Line>, rest: seq<Line>)
    requires w.tickStart != 0 || w.snStart != 0
    requires forall i | 0 <= i < |pre| :: !pre[i].FetchLine?
    ensures SkipToFetch(SkipToStart(w, pre + rest)) ==
            if exists i | 0 <= i < |pre| :: Starts(w, pre[i]) then SkipToFetch(rest)
            else SkipToFetch(SkipToStart(w, rest))
  {
    if pre == [] {
      assert pre + rest == rest;
    } else {
      assert (pre + rest)[1..] == pre[1..] + rest;
      if Starts(w, pre[0]) {
        SkipToFetchOver(pre, rest);
      } else {
        SkipOverBody(w, pre[1..], rest);
        assert (exists i | 0 <= i < |pre| :: Starts(w, pre[i])) ==>
               (exists i | 0 <= i < |pre[1..]| :: Starts(w, pre[1..][i]));
        assert forall i | 0 <= i < |pre[1..]| :: pre[1..][i] == pre[i + 1];
      }
    }
  }

  lemma TraceStartsWithFetch(bs: seq<Block>)
    ensures SkipToFetch(TraceOf(bs)) == TraceOf(bs)
  {
  }

  ghost predicate NoneShown(c: Config, bs: seq<Block>) {
    forall i | 0 <= i < |bs| :: !c.window.Shows(InstOf(c, bs[i]))
  }

  /** Skipping to the start drops whole blocks, and only blocks outside the window. */
  lemma {:induction false} RegionDropsUnwanted(c: Config, bs: seq<Block>) returns (k: nat)
    requires c.window.tickStart >= 0 && c.window.snStart >= 0
    ensures k <= |bs| && Region(c.window, TraceOf(bs)) == TraceOf(bs[k..])
    ensures NoneShown(c, bs[..k])
  {
    var w := c.window;
    if bs == [] || (w.tickStart == 0 && w.snStart == 0) || Starts(w, Head(bs[0])) {
      k := 0;
      assert bs[0..] == bs;
      TraceStartsWithFetch(bs);
    } else {
      var b := bs[0];
      RegionBehindBlock(w, b, bs[1..]);
      assert [b] + bs[1..] == bs;
      assert !w.Shows(InstOf(c, b));
      if exists i | 0 <= i < |Body(b)| :: Starts(w, Body(b)[i]) {
        k := 1;
      } else {
        k := RegionDropsUnwanted(c, bs[1..]);
        assert bs[1..][k..] == bs[k + 1..];
        assert bs[..k + 1] == [b] + bs[1..][..k];
        k := k + 1;
      }
    }
  }

  lemma RegionBehindBlock(w: Window, b: Block, bs: seq<Block>)
    requires (w.tickStart != 0 || w.snStart != 0) && !Starts(w, Head(b))
    ensures Region(w, TraceOf([b] + bs)) ==
            if exists i | 0 <= i < |Body(b)| :: Starts(w, Body(b)[i]) then TraceOf(bs)
            else Region(w, TraceOf(bs))
  {
    var trace := TraceOf([b] + bs);
    assert ([b] + bs)[1..] == bs;
    assert trace[1..] == Body(b) + TraceOf(bs);
    SkipOverBody(w, Body(b), TraceOf(bs));
    TraceStartsWithFetch(bs);
  }

  // ---------- what is cut off at the end is not wanted ----------

  /** The queue receives the blocks up to the first one that is too late. */
  lemma {:induction false} QueuedBlocks(c: Config, bs: seq<Block>, curr: Inst) returns (m: nat)
    requires Clean(c, curr)
    ensures m <= |bs| && Queued(c, TraceOf(bs), curr) == Insts(c, bs[..m])
    ensures m < |bs| ==> TooLate(c, Head(bs[m]))
  {
    if bs == [] || TooLate(c, Head(bs[0])) {
      m := 0;
    } else {
      var b := bs[0];
      BlockIsInst(c, b, TraceOf(bs[1..]), curr);
      m := QueuedBlocks(c, bs[1..], InstOf(c, b));
      assert bs[..m + 1] == [b] + bs[1..][..m];
      InstsAppend(c, [b], bs[1..][..m]);
      m := m + 1;
    }
  }

  /** Fetch ticks are out of order by at most `drift`, sequence numbers by at most `max_threshold`. */
  ghost predicate BoundedDrift(c: Config, bs: seq<Block>) {
    forall i, j | 0 <= i < j < |bs| ::
      bs[i].fetch <= bs[j].fetch + c.drift && bs[i].sn <= bs[j].sn + c.limits.maxThreshold
  }

  lemma CutOffIsUnwanted(c: Config, bs: seq<Block>, m: nat)
    requires m < |bs| && TooLate(c, Head(bs[m])) && BoundedDrift(c, bs)
    ensures NoneShown(c, bs[m..])
  {
    forall i | 0 <= i < |bs[m..]| ensures !c.window.Shows(InstOf(c, bs[m..][i])) {
      assert bs[m..][i] == bs[m + i];
    }
  }

  // ---------- selecting and sorting commute ----------

  lemma {:induction false} SelectAppend(w: Window, a: seq<Inst>, b: seq<Inst>)
    ensures Select(w, a + b) == Select(w, a) + Select(w, b)
  {
    if b == [] {
      assert a + b == a;
    } else {
      assert (a + b)[..|a + b| - 1] == a + b[..|b| - 1];
      SelectAppend(w, a, b[..|b| - 1]);
    }
  }

  lemma {:induction false} SelectBounded(w: Window, s: seq<Inst>, k: int)
    requires forall i | 0 <= i < |s| :: s[i].sn <= k
    ensures forall i | 0 <= i < |Select(w, s)| :: Select(w, s)[i].sn <= k
  {
    if s != [] {
      var front, last := s[..|s| - 1], s[|s| - 1];
      SelectBounded(w, front, k);
      forall i | 0 <= i < |Select(w, s)| ensures Select(w, s)[i].sn <= k {
        if i < |Select(w, front)| {
          assert Select(w, s)[i] == Select(w, front)[i];
        } else {
          assert Select(w, s)[i] == last && last.sn <= k;
        }
      }
    }
  }

  lemma {:induction false} SelectInsert(w: Window, s: seq<Inst>, x: Inst)
    requires Sorted(s)
    ensures Select(w, Insert(s, x)) == if w.Shows(x) then Insert(Select(w, s), x) else Select(w, s)
  {
    if s == [] || s[|s| - 1].sn <= x.sn {
      SelectSnoc(w, s, x);
      SelectBounded(w, s, x.sn);
    } else {
      var front, last := s[..|s| - 1], s[|s| - 1];
      SelectInsert(w, front, x);
      SelectSnoc(w, Insert(front, x), last);
      if w.Shows(last) {
        var r := Select(w, front) + [last];
        assert r[..|r| - 1] == Select(w, front);
      }
    }
  }

  lemma {:induction false} SelectSort(w: Window, s: seq<Inst>)
    ensures Select(w, Sort(s)) == Sort(Select(w, s))
  {
    if s != [] {
      var front, x := s[..|s| - 1], s[|s| - 1];
      SelectSort(w, front);
      SortSorts(front);
      SelectInsert(w, Sort(front), x);
      if w.Shows(x) {
        var r := Select(w, front) + [x];
        assert r[..|r| - 1] == Select(w, front);
      }
    }
  }

  lemma {:induction false} SelectNone(c: Config, bs: seq<Block>)
    requires NoneShown(c, bs)
    ensures Select(c.window, Insts(c, bs)) == []
  {
    var s := Insts(c, bs);
    SelectNoneOf(c.window, s);
  }

  lemma {:induction false} SelectNoneOf(w: Window, s: seq<Inst>)
    requires forall i | 0 <= i < |s| :: !w.Shows(s[i])
    ensures Select(w, s) == []
  {
    if s != [] { SelectNoneOf(w, s[..|s| - 1]); }
  }

  /** Disorder is bounded in every contiguous part as well. */
  lemma PartHasBoundedDisorder(lim: Limits, a: seq<Inst>, b: seq<Inst>, d: seq<Inst>)
    requires BoundedDisorder(lim, a + b + d)
    ensures BoundedDisorder(lim, b)
  {
    var xs := a + b + d;
    forall j | 0 <= j < |b| ensures CountGreater(b[..j], b[j].sn) <= lim.minThreshold {
      assert xs[|a| + j] == b[j];
      assert xs[..|a| + j] == a + b[..j];
      CountAppend(a, b[..j], b[j].sn);
      assert CountGreater(xs[..|a| + j], xs[|a| + j].sn) <= lim.minThreshold;
    }
  }

  lemma InstsAppend(c: Config, a: seq<Block>, b: seq<Block>)
    ensures Insts(c, a + b) == Insts(c, a) + Insts(c, b)
  {
  }

  /** The main result. For a trace of whole blocks, lines of other kinds mixed in, whose
      disorder stays within the limits the viewer assumes: exactly the instructions of the
      window are printed, each once, in stable sequence-number order. */
  lemma PrintsTheWindow(c: Config, trace: seq<Line>, bs: seq<Block>)
    requires Strip(trace) == TraceOf(bs)
    requires c.window.tickStart >= 0 && c.window.snStart >= 0
    requires BoundedDisorder(c.limits, Insts(c, bs)) && BoundedDrift(c, bs)
    ensures Select(c.window, Flushed(c.limits, Queued(c, Region(c.window, trace), Blank))) ==
            Sort(Select(c.window, Insts(c, bs)))
  {
    var first, middle, last := QueuedPart(c, trace, bs);
    PrintsTheMiddle(c, first, middle, last);
  }

  /** The queue receives a contiguous part of the blocks, and the rest lies outside the window. */
  lemma QueuedPart(c: Config, trace: seq<Line>, bs: seq<Block>)
    returns (first: seq<Block>, middle: seq<Block>, last: seq<Block>)
    requires Strip(trace) == TraceOf(bs)
    requires c.window.tickStart >= 0 && c.window.snStart >= 0 && BoundedDrift(c, bs)
    ensures bs == first + middle + last && NoneShown(c, first) && NoneShown(c, last)
    ensures Queued(c, Region(c.window, trace), Blank) == Insts(c, middle)
  {
    OtherLinesDoNotMatter(c, trace);
    var k := RegionDropsUnwanted(c, bs);
    DriftOfRest(c, bs, k);
    middle, last := QueuedSplit(c, bs[k..]);
    first := bs[..k];
    assert bs == first + bs[k..];
    assert first + bs[k..] == first + middle + last;
  }

  lemma DriftOfRest(c: Config, bs: seq<Block>, k: nat)
    requires k <= |bs| && BoundedDrift(c, bs)
    ensures BoundedDrift(c, bs[k..])
  {
  }

  lemma QueuedSplit(c: Config, bs: seq<Block>) returns (middle: seq<Block>, last: seq<Block>)
    requires BoundedDrift(c, bs)
    ensures bs == middle + last && NoneShown(c, last)
    ensures Queued(c, TraceOf(bs), Blank) == Insts(c, middle)
  {
    var m := QueuedBlocks(c, bs, Blank);
    if m < |bs| {
      CutOffIsUnwanted(c, bs, m);
    }
    middle, last := bs[..m], bs[m..];
  }

  lemma PrintsTheMiddle(c: Config, first: seq<Block>, middle: seq<Block>, last: seq<Block>)
    requires NoneShown(c, first) && NoneShown(c, last)
    requires BoundedDisorder(c.limits, Insts(c, first + middle + last))
    ensures Select(c.window, Flushed(c.limits, Insts(c, middle))) ==
            Sort(Select(c.window, Insts(c, first + middle + last)))
  {
    var w := c.window;
    InstsAppend(c, first + middle, last);
    InstsAppend(c, first, middle);
    PartHasBoundedDisorder(c.limits, Insts(c, first), Insts(c, middle), Insts(c, last));
    BoundedDisorderPrintsSorted(c.limits, w, Insts(c, middle));
    SelectSort(w, Insts(c, middle));
    SelectAppend(w, Insts(c, first) + Insts(c, middle), Insts(c, last));
    SelectAppend(w, Insts(c, first), Insts(c, middle));
    SelectNone(c, first);
    SelectNone(c, last);
  }
}

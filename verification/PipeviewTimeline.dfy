/** The timeline of one instruction: which rows are drawn, which events fall into
    which row, and what the characters of a row are. */
module PipeviewTimeline {
  import opened PipeviewTypes
  import opened Arith

  /** Geometry: `width` cycles per row, `cycle` ticks per cycle. */
  datatype Scale = Scale(width: int, cycle: int) {
    predicate Valid() { width > 0 && cycle > 0 }
    function TimeWidth(): int { width * cycle }
  }

  /** An entry of the row's event list: offset into the row, stage, tick. */
  datatype Event = Event(offset: int, stage: Stage, tick: int)

  /** All eight events, or seven when store completions are not shown. */
  function Stages(stores: bool): seq<Stage> {
    [Fetch, Decode, Rename, Dispatch, Issue, Complete, Retire] + if stores then [Store] else []
  }

  function Shorthand(s: Stage): char {
    match s
    case Fetch => 'f'
    case Decode => 'd'
    case Rename => 'n'
    case Dispatch => 'p'
    case Issue => 'i'
    case Complete => 'c'
    case Retire => 'r'
    case Store => 's'
  }

  /** Rank of a stage's name in alphabetical order; ties between offsets are broken by name. */
  function NameRank(s: Stage): nat {
    match s
    case Complete => 0
    case Decode => 1
    case Dispatch => 2
    case Fetch => 3
    case Issue => 4
    case Rename => 5
    case Retire => 6
    case Store => 7
  }

  // ---------- rows ----------

  function MaxTick(inst: Inst, stages: seq<Stage>): int
    requires stages != []
  {
    var t := inst.Tick(stages[|stages| - 1]);
    if |stages| == 1 then t
    else
      var m := MaxTick(inst, stages[..|stages| - 1]);
      if m < t then t else m
  }

  /** What decides the rows: ticks per row, first tick of the row the fetch falls into,
      the fetch and the last event. */
  datatype Frame = Frame(timeWidth: int, base: int, fetch: int, last: int) {
    predicate Valid() {
      timeWidth > 0 && base <= fetch < base + timeWidth && fetch <= last
    }

    predicate Compact() {
      last - fetch < timeWidth
    }

    function NumLines(): int
      requires timeWidth > 0
    {
      if Compact() then 1 else (last - base) / timeWidth + 1
    }

    function RowStart(row: int): int {
      base + row * timeWidth
    }

    /** In compact form the only row is longer by the offset of the fetch, and wraps around. */
    function RowEnd(row: int): int
      requires timeWidth > 0
    {
      RowStart(row) + timeWidth + if NumLines() == 1 then fetch - base else 0
    }

    predicate InRow(row: int, tick: int)
      requires timeWidth > 0
    {
      RowStart(row) <= tick < RowEnd(row)
    }
  }

  function FrameOf(s: Scale, inst: Inst, stores: bool): Frame
    requires s.Valid()
  {
    var tw, fetch := s.TimeWidth(), inst.Tick(Fetch);
    Frame(tw, fetch / tw * tw, fetch, MaxTick(inst, Stages(stores)))
  }

  /** No recorded event lies before the fetch. */
  ghost predicate FetchIsFirst(inst: Inst, stores: bool) {
    forall i | 0 <= i < |Stages(stores)| ::
      var t := inst.Tick(Stages(stores)[i]); t != 0 ==> t >= inst.Tick(Fetch)
  }

  lemma {:induction false} MaxTickIsMax(inst: Inst, stages: seq<Stage>, i: nat)
    requires i < |stages|
    ensures inst.Tick(stages[i]) <= MaxTick(inst, stages)
  {
    if i < |stages| - 1 {
      MaxTickIsMax(inst, stages[..|stages| - 1], i);
    }
  }

  lemma FrameIsValid(s: Scale, inst: Inst, stores: bool)
    requires s.Valid()
    ensures FrameOf(s, inst, stores).Valid()
  {
    MaxTickIsMax(inst, Stages(stores), 0);
    assert Stages(stores)[0] == Fetch;
  }

  /** Rows of one time width tile the time from the base tick on. */
  lemma RowOfTick(f: Frame, t: int, row: int)
    requires f.timeWidth > 0
    ensures f.RowStart(row) <= t < f.RowStart(row) + f.timeWidth <==> (t - f.base) / f.timeWidth == row
  {
    var tw, d := f.timeWidth, t - f.base;
    assert d == tw * (d / tw) + d % tw;
    if row * tw <= d < row * tw + tw {
      DivModUnique(d, tw, row, d - row * tw);
    }
  }

  lemma SeveralRows(f: Frame)
    requires f.Valid() && !f.Compact()
    ensures f.NumLines() > 1
  {
    DivMonotone(f.timeWidth, f.last - f.base, f.timeWidth);
    DivModUnique(f.timeWidth, f.timeWidth, 1, 0);
  }

  /** The row a tick is drawn in. */
  function RowFor(f: Frame, t: int): int
    requires f.timeWidth > 0
  {
    if f.Compact() then 0 else (t - f.base) / f.timeWidth
  }

  lemma OneRowPerTick(f: Frame, t: int)
    requires f.Valid() && f.fetch <= t <= f.last
    ensures 0 <= RowFor(f, t) < f.NumLines()
    ensures forall row | 0 <= row < f.NumLines() :: f.InRow(row, t) <==> row == RowFor(f, t)
  {
    if f.Compact() {
      assert f.RowStart(0) == f.base;
    } else {
      SeveralRows(f);
      DivMonotone(0, t - f.base, f.timeWidth);
      DivMonotone(t - f.base, f.last - f.base, f.timeWidth);
      forall row | 0 <= row < f.NumLines() ensures f.InRow(row, t) <==> row == RowFor(f, t) {
        RowOfTick(f, t, row);
      }
    }
  }

  /** The main result on rows: every recorded event is drawn in exactly one row. */
  lemma EveryEventInOneRow(s: Scale, inst: Inst, stores: bool, k: nat)
    requires s.Valid() && FetchIsFirst(inst, stores)
    requires k < |Stages(stores)| && inst.Tick(Stages(stores)[k]) != 0
    ensures var f, t := FrameOf(s, inst, stores), inst.Tick(Stages(stores)[k]);
            && 0 <= RowFor(f, t) < f.NumLines()
            && forall row | 0 <= row < f.NumLines() :: f.InRow(row, t) <==> row == RowFor(f, t)
  {
    FrameIsValid(s, inst, stores);
    MaxTickIsMax(inst, Stages(stores), k);
    OneRowPerTick(FrameOf(s, inst, stores), inst.Tick(Stages(stores)[k]));
  }

  // ---------- the events of a row ----------

  /** The recorded events of a row, in the order of the stage list. */
  function EventsIn(f: Frame, inst: Inst, stages: seq<Stage>, row: int): seq<Event>
    requires f.timeWidth > 0
  {
    if stages == [] then []
    else
      var st := stages[|stages| - 1];
      var t, before := inst.Tick(st), EventsIn(f, inst, stages[..|stages| - 1], row);
      if t != 0 && f.InRow(row, t) then before + [Event(t % f.timeWidth, st, t)] else before
  }

  /** Tuple order on the entries; offset and name decide, since names differ. */
  predicate Before(a: Event, b: Event) {
    a.offset < b.offset || (a.offset == b.offset && NameRank(a.stage) <= NameRank(b.stage))
  }

  function InsertEvent(evs: seq<Event>, e: Event): seq<Event> {
    if evs == [] || Before(evs[|evs| - 1], e) then evs + [e]
    else InsertEvent(evs[..|evs| - 1], e) + [evs[|evs| - 1]]
  }

  function SortEvents(evs: seq<Event>): seq<Event> {
    if evs == [] then [] else InsertEvent(SortEvents(evs[..|evs| - 1]), evs[|evs| - 1])
  }

  ghost predicate Ordered(evs: seq<Event>) {
    forall i, j | 0 <= i < j < |evs| :: Before(evs[i], evs[j])
  }

  lemma {:induction false} InsertEventOrders(evs: seq<Event>, e: Event)
    requires Ordered(evs)
    ensures Ordered(InsertEvent(evs, e))
    ensures multiset(InsertEvent(evs, e)) == multiset(evs) + multiset{e}
  {
    if evs != [] && !Before(evs[|evs| - 1], e) {
      var front, last := evs[..|evs| - 1], evs[|evs| - 1];
      assert evs == front + [last];
      InsertEventOrders(front, e);
      var r := InsertEvent(front, e);
      forall i | 0 <= i < |r| ensures Before(r[i], last) {
        assert r[i] in multiset(r);
        assert r[i] in multiset(front) || r[i] == e;
      }
    }
  }

  lemma {:induction false} SortEventsOrders(evs: seq<Event>)
    ensures Ordered(SortEvents(evs))
    ensures multiset(SortEvents(evs)) == multiset(evs)
  {
    if evs != [] {
      assert evs == evs[..|evs| - 1] + [evs[|evs| - 1]];
      SortEventsOrders(evs[..|evs| - 1]);
      InsertEventOrders(SortEvents(evs[..|evs| - 1]), evs[|evs| - 1]);
    }
  }

  /** A character to be drawn in a column of a row. */
  datatype Mark = Mark(column: int, ch: char)

  /** A dispatch in the same tick as the issue is not drawn. */
  predicate Hidden(inst: Inst, e: Event) {
    e.stage == Dispatch && inst.Tick(Dispatch) == inst.Tick(Issue)
  }

  function Marks(s: Scale, inst: Inst, evs: seq<Event>): seq<Mark>
    requires s.Valid()
  {
    if evs == [] then []
    else
      var e, before := evs[|evs| - 1], Marks(s, inst, evs[..|evs| - 1]);
      if Hidden(inst, e) then before else before + [Mark(e.offset / s.cycle, Shorthand(e.stage))]
  }

  /** The marks are drawn from left to right, inside the row. */
  ghost predicate FitsRow(marks: seq<Mark>, width: int) {
    && (forall i | 0 <= i < |marks| :: 0 <= marks[i].column < width)
    && (forall i, j | 0 <= i < j < |marks| :: marks[i].column <= marks[j].column)
  }

  lemma ColumnInRow(s: Scale, offset: int)
    requires s.Valid() && 0 <= offset < s.TimeWidth()
    ensures 0 <= offset / s.cycle < s.width
  {
    var q, r := offset / s.cycle, offset % s.cycle;
    assert offset == s.cycle * q + r;
    if q >= s.width {
      MulMonotone(s.cycle, s.width, q);
      assert false;
    }
    if q < 0 {
      MulMonotone(s.cycle, q, -1);
      assert false;
    }
  }

  lemma {:induction false} MarksNotBeyond(s: Scale, inst: Inst, evs: seq<Event>, offset: int)
    requires s.Valid() && forall i | 0 <= i < |evs| :: evs[i].offset <= offset
    ensures forall m | m in Marks(s, inst, evs) :: m.column <= offset / s.cycle
  {
    if evs != [] {
      MarksNotBeyond(s, inst, evs[..|evs| - 1], offset);
      DivMonotone(evs[|evs| - 1].offset, offset, s.cycle);
    }
  }

  lemma FitsRowSnoc(marks: seq<Mark>, m: Mark, width: int)
    requires FitsRow(marks, width) && 0 <= m.column < width
    requires forall x | x in marks :: x.column <= m.column
    ensures FitsRow(marks + [m], width)
  {
  }

  lemma {:induction false} MarksFit(s: Scale, inst: Inst, evs: seq<Event>)
    requires s.Valid() && Ordered(evs)
    requires forall i | 0 <= i < |evs| :: 0 <= evs[i].offset < s.TimeWidth()
    ensures FitsRow(Marks(s, inst, evs), s.width)
  {
    if evs != [] {
      var front, e := evs[..|evs| - 1], evs[|evs| - 1];
      MarksFit(s, inst, front);
      ColumnInRow(s, e.offset);
      MarksNotBeyond(s, inst, front, e.offset);
      FitsRowSnoc(Marks(s, inst, front), Mark(e.offset / s.cycle, Shorthand(e.stage)), s.width);
    }
  }

  lemma {:induction false} EventsInOffsets(f: Frame, inst: Inst, stages: seq<Stage>, row: int)
    requires f.timeWidth > 0
    ensures forall e | e in EventsIn(f, inst, stages, row) :: 0 <= e.offset < f.timeWidth
  {
    if stages != [] {
      EventsInOffsets(f, inst, stages[..|stages| - 1], row);
    }
  }

  /** The marks of a row, as the drawing loop meets them. */
  function RowMarks(s: Scale, inst: Inst, stores: bool, row: int): seq<Mark>
    requires s.Valid()
  {
    Marks(s, inst, SortEvents(EventsIn(FrameOf(s, inst, stores), inst, Stages(stores), row)))
  }

  lemma RowMarksFit(s: Scale, inst: Inst, stores: bool, row: int)
    requires s.Valid()
    ensures FitsRow(RowMarks(s, inst, stores, row), s.width)
  {
    var evs := EventsIn(FrameOf(s, inst, stores), inst, Stages(stores), row);
    EventsInOffsets(FrameOf(s, inst, stores), inst, Stages(stores), row);
    SortEventsOrders(evs);
    var sorted := SortEvents(evs);
    forall i | 0 <= i < |sorted| ensures 0 <= sorted[i].offset < s.TimeWidth() {
      assert sorted[i] in multiset(sorted);
    }
    MarksFit(s, inst, sorted);
  }

  // ---------- the characters of a row ----------

  function Dots(dot: char, n: int): string {
    if n <= 0 then "" else Dots(dot, n - 1) + [dot]
  }

  /** The marks of one column, in order. */
  function AtColumn(marks: seq<Mark>, column: int): string {
    if marks == [] then ""
    else
      var m, before := marks[|marks| - 1], AtColumn(marks[..|marks| - 1], column);
      if m.column == column then before + [m.ch] else before
  }

  /** One column of the finished row: its marks, or a dot. */
  function Cell(marks: seq<Mark>, dot: char, column: int): string {
    var here := AtColumn(marks, column);
    if here == "" then [dot] else here
  }

  /** The first n columns of the finished row. */
  function Cells(marks: seq<Mark>, dot: char, n: nat): string {
    if n == 0 then "" else Cells(marks, dot, n - 1) + Cell(marks, dot, n - 1)
  }

  lemma {:induction false} AtColumnSnoc(marks: seq<Mark>, m: Mark, column: int)
    ensures AtColumn(marks + [m], column) ==
            if m.column == column then AtColumn(marks, column) + [m.ch] else AtColumn(marks, column)
  {
    assert (marks + [m])[..|marks|] == marks;
  }

  /** Columns left of a mark do not change when it is added. */
  lemma {:induction false} CellsLeftOf(marks: seq<Mark>, m: Mark, dot: char, n: nat)
    requires n <= m.column
    ensures Cells(marks + [m], dot, n) == Cells(marks, dot, n)
  {
    if n > 0 {
      CellsLeftOf(marks, m, dot, n - 1);
      AtColumnSnoc(marks, m, n - 1);
    }
  }

  lemma {:induction false} NothingAt(marks: seq<Mark>, column: int)
    requires forall i | 0 <= i < |marks| :: marks[i].column < column
    ensures AtColumn(marks, column) == ""
  {
    if marks != [] { NothingAt(marks[..|marks| - 1], column); }
  }

  lemma {:induction false} SomethingAt(marks: seq<Mark>, i: nat)
    requires i < |marks|
    ensures AtColumn(marks, marks[i].column) != ""
  {
    if i < |marks| - 1 { SomethingAt(marks[..|marks| - 1], i); }
  }

  /** Behind the last mark there are only dots. */
  lemma {:induction false} CellsBehind(marks: seq<Mark>, dot: char, from: nat, n: nat)
    requires from <= n && forall i | 0 <= i < |marks| :: marks[i].column < from
    ensures Cells(marks, dot, n) == Cells(marks, dot, from) + Dots(dot, n - from)
  {
    if from < n {
      CellsBehind(marks, dot, from, n - 1);
      NothingAt(marks, n - 1);
    }
  }

  /** The drawing loop of the viewer. */
  method DrawMarks(marks: seq<Mark>, width: nat, dot: char) returns (text: string)
    requires FitsRow(marks, width)
    ensures text == Cells(marks, dot, width)
  {
    var pos := 0;
    text := "";
    for k := 0 to |marks|
      invariant Drawn(marks[..k], dot, pos, text)
    {
      var m := marks[k];
      assert marks[..k + 1] == marks[..k] + [m];
      DrawNext(marks[..k], m, dot, pos, text);
      text := text + Dots(dot, m.column - pos) + [m.ch];
      pos := m.column + 1;
    }
    assert marks[..|marks|] == marks;
    DrawRest(marks, dot, pos, text, width);
    text := text + Dots(dot, width - pos);
  }

  /** The row up to and with the column of the last mark. */
  ghost predicate Drawn(marks: seq<Mark>, dot: char, pos: int, text: string) {
    && pos == (if marks == [] then 0 else marks[|marks| - 1].column + 1)
    && 0 <= pos && text == Cells(marks, dot, pos)
  }

  lemma DrawNext(marks: seq<Mark>, m: Mark, dot: char, pos: int, text: string)
    requires Drawn(marks, dot, pos, text) && 0 <= m.column && pos <= m.column + 1
    requires forall i, j | 0 <= i < j < |marks| :: marks[i].column <= marks[j].column
    ensures Drawn(marks + [m], dot, m.column + 1, text + Dots(dot, m.column - pos) + [m.ch])
  {
    DrawOne(marks, m, dot, pos);
  }

  lemma DrawRest(marks: seq<Mark>, dot: char, pos: int, text: string, width: nat)
    requires Drawn(marks, dot, pos, text) && FitsRow(marks, width)
    ensures Cells(marks, dot, width) == text + Dots(dot, width - pos)
  {
    CellsBehind(marks, dot, pos, width);
  }

  /** A mark in the column of the previous one, or in a column further right. */
  lemma DrawOne(marks: seq<Mark>, m: Mark, dot: char, pos: nat)
    requires marks == [] ==> pos == 0
    requires marks != [] ==> pos == marks[|marks| - 1].column + 1
    requires forall i, j | 0 <= i < j < |marks| :: marks[i].column <= marks[j].column
    requires pos <= m.column + 1 && 0 <= m.column
    ensures Cells(marks + [m], dot, m.column + 1) ==
            Cells(marks, dot, pos) + Dots(dot, m.column - pos) + [m.ch]
  {
    if pos == m.column + 1 {
      DrawInSameColumn(marks, m, dot);
      assert Dots(dot, -1) == "";
    } else {
      DrawFurtherRight(marks, m, dot, pos);
    }
  }

  lemma DrawInSameColumn(marks: seq<Mark>, m: Mark, dot: char)
    requires marks != [] && marks[|marks| - 1].column == m.column >= 0
    ensures Cells(marks + [m], dot, m.column + 1) == Cells(marks, dot, m.column + 1) + [m.ch]
  {
    CellsLeftOf(marks, m, dot, m.column);
    AtColumnSnoc(marks, m, m.column);
    SomethingAt(marks, |marks| - 1);
  }

  lemma DrawFurtherRight(marks: seq<Mark>, m: Mark, dot: char, pos: nat)
    requires pos <= m.column && forall i | 0 <= i < |marks| :: marks[i].column < pos
    ensures Cells(marks + [m], dot, m.column + 1) ==
            Cells(marks, dot, pos) + Dots(dot, m.column - pos) + [m.ch]
  {
    CellsLeftOf(marks, m, dot, m.column);
    AtColumnSnoc(marks, m, m.column);
    CellsBehind(marks, dot, pos, m.column);
    NothingAt(marks, m.column);
  }

  /** How many marks share their column with an earlier one. */
  ghost function Crowded(marks: seq<Mark>): nat {
    if marks == [] then 0
    else
      var front, m := marks[..|marks| - 1], marks[|marks| - 1];
      Crowded(front) + if exists i | 0 <= i < |front| :: front[i].column == m.column then 1 else 0
  }

  lemma DotsLength(dot: char, n: int)
    ensures |Dots(dot, n)| == if n <= 0 then 0 else n
  {
  }

  ghost predicate LeftOf(marks: seq<Mark>, column: int) {
    forall i | 0 <= i < |marks| :: marks[i].column < column
  }

  lemma LengthBehind(marks: seq<Mark>, dot: char, from: nat, n: nat)
    requires from <= n && LeftOf(marks, from)
    ensures |Cells(marks, dot, n)| == |Cells(marks, dot, from)| + n - from
  {
    CellsBehind(marks, dot, from, n);
    DotsLength(dot, n - from);
  }

  lemma LengthFurtherRight(marks: seq<Mark>, m: Mark, dot: char, pos: nat)
    requires pos <= m.column && LeftOf(marks, pos)
    ensures |Cells(marks + [m], dot, m.column + 1)| == |Cells(marks, dot, pos)| + (m.column - pos) + 1
  {
    DrawFurtherRight(marks, m, dot, pos);
    DotsLength(dot, m.column - pos);
  }

  lemma LeftOfSnoc(marks: seq<Mark>, m: Mark, pos: nat)
    requires LeftOf(marks, pos) && pos <= m.column + 1
    ensures LeftOf(marks + [m], m.column + 1)
  {
  }

  lemma SameColumnMore(marks: seq<Mark>, m: Mark, dot: char, width: nat)
    requires marks != [] && marks[|marks| - 1].column == m.column && LeftOf(marks, m.column + 1)
    requires 0 <= m.column < width
    ensures |Cells(marks + [m], dot, width)| == |Cells(marks, dot, width)| + 1
  {
    LeftOfSnoc(marks, m, m.column + 1);
    SameBehind(marks + [m], marks, dot, m.column + 1, width);
    LengthSameColumn(marks, m, dot);
  }

  /** Behind all their marks, two rows have the same number of characters. */
  lemma SameBehind(a: seq<Mark>, b: seq<Mark>, dot: char, from: nat, n: nat)
    requires from <= n && LeftOf(a, from) && LeftOf(b, from)
    ensures |Cells(a, dot, n)| - |Cells(b, dot, n)| == |Cells(a, dot, from)| - |Cells(b, dot, from)|
  {
    LengthBehind(a, dot, from, n);
    LengthBehind(b, dot, from, n);
  }

  lemma LengthSameColumn(marks: seq<Mark>, m: Mark, dot: char)
    requires marks != [] && marks[|marks| - 1].column == m.column >= 0
    ensures |Cells(marks + [m], dot, m.column + 1)| == |Cells(marks, dot, m.column + 1)| + 1
  {
    DrawInSameColumn(marks, m, dot);
  }

  lemma NewColumnMore(marks: seq<Mark>, m: Mark, dot: char, pos: nat, width: nat)
    requires LeftOf(marks, pos) && pos <= m.column < width
    ensures |Cells(marks + [m], dot, width)| == |Cells(marks, dot, width)|
  {
    LeftOfSnoc(marks, m, pos);
    LengthBehind(marks + [m], dot, m.column + 1, width);
    LengthBehind(marks, dot, pos, width);
    LengthFurtherRight(marks, m, dot, pos);
  }

  lemma FitsRowParts(marks: seq<Mark>, m: Mark, width: nat)
    requires FitsRow(marks + [m], width)
    ensures FitsRow(marks, width) && 0 <= m.column < width
    ensures marks != [] ==> LeftOf(marks, marks[|marks| - 1].column + 1) && marks[|marks| - 1].column <= m.column
  {
    var all := marks + [m];
    assert all[|marks|] == m;
    assert forall i | 0 <= i < |marks| :: all[i] == marks[i];
  }

  /** A further mark takes the place of a dot unless its column is taken already. */
  lemma OneMarkMore(marks: seq<Mark>, m: Mark, dot: char, width: nat)
    requires FitsRow(marks + [m], width)
    ensures |Cells(marks + [m], dot, width)| == |Cells(marks, dot, width)| +
            if marks != [] && marks[|marks| - 1].column == m.column then 1 else 0
  {
    FitsRowParts(marks, m, width);
    if marks == [] {
      NewColumnMore(marks, m, dot, 0, width);
    } else if marks[|marks| - 1].column == m.column {
      SameColumnMore(marks, m, dot, width);
    } else {
      NewColumnMore(marks, m, dot, marks[|marks| - 1].column + 1, width);
    }
  }

  /** Among marks from left to right, only the last can share the column of the next. */
  lemma SharesIff(front: seq<Mark>, m: Mark, width: nat)
    requires FitsRow(front + [m], width)
    ensures (exists i | 0 <= i < |front| :: front[i].column == m.column) <==>
            (front != [] && front[|front| - 1].column == m.column)
  {
    FitsRowParts(front, m, width);
    if i :| 0 <= i < |front| && front[i].column == m.column {
      assert front[i].column < front[|front| - 1].column + 1;
    }
  }

  lemma CrowdedSnoc(front: seq<Mark>, m: Mark, width: nat)
    requires FitsRow(front + [m], width)
    ensures Crowded(front + [m]) == Crowded(front) +
            if front != [] && front[|front| - 1].column == m.column then 1 else 0
  {
    assert (front + [m])[..|front|] == front;
    SharesIff(front, m, width);
  }

  lemma {:induction false} CellsLength(marks: seq<Mark>, dot: char, width: nat)
    requires FitsRow(marks, width)
    ensures |Cells(marks, dot, width)| == width + Crowded(marks)
  {
    if marks == [] {
      CellsBehind(marks, dot, 0, width);
      DotsLength(dot, width);
    } else {
      var front, m := marks[..|marks| - 1], marks[|marks| - 1];
      assert marks == front + [m];
      FitsRowParts(front, m, width);
      CellsLength(front, dot, width);
      OneMarkMore(front, m, dot, width);
      CrowdedSnoc(front, m, width);
    }
  }

  /** The main result on characters. Read column by column, a row shows its events and a dot
      where there is none; it is longer than the width by exactly the events that share a column
      with an earlier one. */
  lemma RowText(s: Scale, inst: Inst, stores: bool, row: int, dot: char)
    requires s.Valid()
    ensures FitsRow(RowMarks(s, inst, stores, row), s.width)
    ensures |Cells(RowMarks(s, inst, stores, row), dot, s.width)| ==
            s.width + Crowded(RowMarks(s, inst, stores, row))
  {
    RowMarksFit(s, inst, stores, row);
    CellsLength(RowMarks(s, inst, stores, row), dot, s.width);
  }

  /** With w cycles of c ticks to a row: a tick's row and its column in the row give its cycle. */
  lemma CycleOfTick(w: int, c: int, b: int, t: int)
    requires w > 0 && c > 0
    ensures w * c > 0
    ensures t / c == b * (w * c) / c + (t - b * (w * c)) / (w * c) * w + t % (w * c) / c
  {
    var tw := w * c;
    var q, r := t / tw, t % tw;
    CycleOfBase(w, c, b);
    RowOfOffset(tw, b, t);
    assert t == tw * q + r && r == c * (r / c) + r % c;
    Rearrange(w, c, q);
    assert t == c * (q * w + r / c) + r % c;
    DivModUnique(t, c, q * w + r / c, r % c);
    assert (q - b) * w == q * w - b * w;
  }

  lemma Rearrange(w: int, c: int, q: int)
    ensures (w * c) * q == c * (q * w)
  {
  }

  lemma CycleOfBase(w: int, c: int, b: int)
    requires w > 0 && c > 0
    ensures b * (w * c) / c == b * w
  {
    Rearrange(w, c, b);
    DivModUnique(b * (w * c), c, b * w, 0);
  }

  lemma RowOfOffset(tw: int, b: int, t: int)
    requires tw > 0
    ensures (t - b * tw) / tw == t / tw - b
  {
    assert t == tw * (t / tw) + t % tw;
    assert tw * (t / tw - b) == tw * (t / tw) - b * tw;
    DivModUnique(t - b * tw, tw, t / tw - b, t % tw);
  }

  // ---------- reading the cycle of an event off its row and column ----------

  /** The cycle a reader takes a column for: counted from the start of the row, or in compact
      form from the fetch on, going round at the end of the row. */
  function CycleAt(s: Scale, f: Frame, row: int, column: int): int
    requires s.Valid()
  {
    var fetch := f.fetch / s.cycle;
    if f.Compact() then fetch + (column - fetch) % s.width
    else f.base / s.cycle + row * s.width + column
  }

  lemma CycleFromStart(w: int, c: int, t: int)
    requires w > 0 && c > 0
    ensures w * c > 0 && t / c == t / (w * c) * w + t % (w * c) / c
  {
    CycleOfTick(w, c, 0, t);
    assert 0 * (w * c) == 0;
  }

  lemma ModOfSum(x: int, w: int, q: int, r: int)
    requires 0 <= r < w && x == q * w + r
    ensures x % w == r
  {
    DivModUnique(x, w, q, r);
  }

  /** The column of a tick is its cycle modulo the width. */
  lemma ColumnOfTick(s: Scale, t: int)
    requires s.Valid()
    ensures s.TimeWidth() > 0 && t % s.TimeWidth() / s.cycle == t / s.cycle % s.width
  {
    CycleFromStart(s.width, s.cycle, t);
    var tw := s.TimeWidth();
    ColumnInRow(s, t % tw);
    ModOfSum(t / s.cycle, s.width, t / tw, t % tw / s.cycle);
  }

  /** Going round by w from the first cycle on finds the cycles less than w later, and no other. */
  lemma RoundTripModulo(w: int, first: int, t: int)
    requires w > 0
    ensures first + (t % w - first) % w == t <==> 0 <= t - first < w
  {
    var x := t - first;
    assert t == w * (t / w) + t % w && x == w * (x / w) + x % w;
    assert t % w - first == w * (x / w - t / w) + x % w;
    DivModUnique(t % w - first, w, x / w - t / w, x % w);
    if 0 <= x < w {
      DivModUnique(x, w, 0, x);
    }
  }

  ghost predicate ReadsBack(s: Scale, f: Frame, row: int, t: int)
    requires s.Valid()
  {
    s.TimeWidth() > 0 && CycleAt(s, f, row, t % s.TimeWidth() / s.cycle) == t / s.cycle
  }

  lemma CompactReadsBack(s: Scale, f: Frame, row: int, t: int)
    requires s.Valid() && f.Compact()
    ensures ReadsBack(s, f, row, t) <==> 0 <= t / s.cycle - f.fetch / s.cycle < s.width
  {
    ColumnOfTick(s, t);
    RoundTripModulo(s.width, f.fetch / s.cycle, t / s.cycle);
  }

  /** In compact form the columns give back the cycles of all ticks up to the last event exactly
      when fetch and last event are less than a row width apart when counted in cycles. */
  lemma CompactTicksIff(s: Scale, inst: Inst, stores: bool)
    requires s.Valid() && FrameOf(s, inst, stores).Compact()
    ensures var f := FrameOf(s, inst, stores);
            (forall t | f.fetch <= t <= f.last :: ReadsBack(s, f, 0, t)) <==>
            f.last / s.cycle - f.fetch / s.cycle < s.width
  {
    var f := FrameOf(s, inst, stores);
    FrameIsValid(s, inst, stores);
    CompactReadsBack(s, f, 0, f.last);
    DivMonotone(f.fetch, f.last, s.cycle);
    forall t | f.fetch <= t <= f.last && f.last / s.cycle - f.fetch / s.cycle < s.width
      ensures ReadsBack(s, f, 0, t)
    {
      DivMonotone(f.fetch, t, s.cycle);
      DivMonotone(t, f.last, s.cycle);
      CompactReadsBack(s, f, 0, t);
    }
  }

  lemma SeveralRowsReadBack(s: Scale, inst: Inst, stores: bool, row: int, t: int)
    requires s.Valid() && !FrameOf(s, inst, stores).Compact() && FrameOf(s, inst, stores).InRow(row, t)
    ensures ReadsBack(s, FrameOf(s, inst, stores), row, t)
  {
    var f := FrameOf(s, inst, stores);
    FrameIsValid(s, inst, stores);
    SeveralRows(f);
    RowOfTick(f, t, row);
    CycleOfTick(s.width, s.cycle, inst.Tick(Fetch) / s.TimeWidth(), t);
  }

  // ---------- the marks of a row are the events that are shown in it ----------

  /** A recorded stage that falls into the row and is not hidden. */
  ghost predicate Shown(s: Scale, inst: Inst, stores: bool, row: int, st: Stage)
    requires s.Valid()
  {
    var f, t := FrameOf(s, inst, stores), inst.Tick(st);
    st in Stages(stores) && t != 0 && f.InRow(row, t) && !(st == Dispatch && t == inst.Tick(Issue))
  }

  lemma {:induction false} EventsAreRecorded(f: Frame, inst: Inst, stages: seq<Stage>, row: int, e: Event)
    requires f.timeWidth > 0 && e in EventsIn(f, inst, stages, row)
    ensures e.stage in stages && e.tick == inst.Tick(e.stage) != 0
    ensures f.InRow(row, e.tick) && e.offset == e.tick % f.timeWidth
  {
    if e in EventsIn(f, inst, stages[..|stages| - 1], row) {
      EventsAreRecorded(f, inst, stages[..|stages| - 1], row, e);
    }
  }

  lemma {:induction false} MarkHasEvent(s: Scale, inst: Inst, evs: seq<Event>, m: Mark) returns (e: Event)
    requires s.Valid() && m in Marks(s, inst, evs)
    ensures e in evs && !Hidden(inst, e) && m == Mark(e.offset / s.cycle, Shorthand(e.stage))
  {
    if m in Marks(s, inst, evs[..|evs| - 1]) {
      e := MarkHasEvent(s, inst, evs[..|evs| - 1], m);
    } else {
      e := evs[|evs| - 1];
    }
  }

  lemma {:induction false} EventHasMark(s: Scale, inst: Inst, evs: seq<Event>, i: nat)
    requires s.Valid() && i < |evs| && !Hidden(inst, evs[i])
    ensures Mark(evs[i].offset / s.cycle, Shorthand(evs[i].stage)) in Marks(s, inst, evs)
  {
    if i < |evs| - 1 {
      EventHasMark(s, inst, evs[..|evs| - 1], i);
    }
  }

  lemma SortedHas(evs: seq<Event>, e: Event)
    ensures e in SortEvents(evs) <==> e in evs
  {
    SortEventsOrders(evs);
    assert e in multiset(SortEvents(evs)) <==> e in multiset(evs);
  }

  /** The letter of a mark says which stage it stands for: one shown in that row and column. */
  lemma MarkIsShown(s: Scale, inst: Inst, stores: bool, row: int, m: Mark, st: Stage)
    requires s.Valid() && m in RowMarks(s, inst, stores, row) && m.ch == Shorthand(st)
    ensures Shown(s, inst, stores, row, st)
    ensures s.TimeWidth() > 0 && m.column == inst.Tick(st) % s.TimeWidth() / s.cycle
  {
    var f := FrameOf(s, inst, stores);
    FrameIsValid(s, inst, stores);
    var evs := EventsIn(f, inst, Stages(stores), row);
    var e := MarkHasEvent(s, inst, SortEvents(evs), m);
    SortedHas(evs, e);
    EventsAreRecorded(f, inst, Stages(stores), row, e);
    assert e.stage == st;
  }

  lemma ShownHasMark(s: Scale, inst: Inst, stores: bool, row: int, st: Stage)
    requires s.Valid() && Shown(s, inst, stores, row, st)
    ensures s.TimeWidth() > 0
    ensures Mark(inst.Tick(st) % s.TimeWidth() / s.cycle, Shorthand(st)) in RowMarks(s, inst, stores, row)
  {
    var f, t := FrameOf(s, inst, stores), inst.Tick(st);
    FrameIsValid(s, inst, stores);
    var evs := EventsIn(f, inst, Stages(stores), row);
    var k :| 0 <= k < |Stages(stores)| && Stages(stores)[k] == st;
    EventIsCollected(f, inst, Stages(stores), row, k);
    var e := Event(t % f.timeWidth, st, t);
    SortedHas(evs, e);
    var i :| 0 <= i < |SortEvents(evs)| && SortEvents(evs)[i] == e;
    EventHasMark(s, inst, SortEvents(evs), i);
  }

  // ---------- when the drawing tells the cycles ----------

  /** Row and column of every mark give the cycle of the stage its letter stands for. */
  ghost predicate TellsCycles(s: Scale, inst: Inst, stores: bool)
    requires s.Valid()
  {
    forall row, m, st | 0 <= row < FrameOf(s, inst, stores).NumLines() && m in RowMarks(s, inst, stores, row)
                        && m.ch == Shorthand(st) ::
      CycleAt(s, FrameOf(s, inst, stores), row, m.column) == inst.Tick(st) / s.cycle
  }

  lemma {:induction false} MaxTickOccurs(inst: Inst, stages: seq<Stage>) returns (st: Stage)
    requires stages != []
    ensures st in stages && inst.Tick(st) == MaxTick(inst, stages)
  {
    st := stages[|stages| - 1];
    if |stages| > 1 && MaxTick(inst, stages[..|stages| - 1]) >= inst.Tick(st) {
      st := MaxTickOccurs(inst, stages[..|stages| - 1]);
    }
  }

  /** The last event has a mark of its own, or shares it with an issue that hides a dispatch. */
  lemma LastIsShown(s: Scale, inst: Inst, stores: bool) returns (st: Stage)
    requires s.Valid() && FrameOf(s, inst, stores).Compact() && FrameOf(s, inst, stores).last != 0
    ensures inst.Tick(st) == FrameOf(s, inst, stores).last && Shown(s, inst, stores, 0, st)
  {
    var f := FrameOf(s, inst, stores);
    FrameIsValid(s, inst, stores);
    st := MaxTickOccurs(inst, Stages(stores));
    OneRowPerTick(f, f.last);
    if st == Dispatch && inst.Tick(Issue) == f.last {
      st := Issue;
      assert Stages(stores)[4] == Issue;
    }
  }

  lemma ShownAfterFetch(s: Scale, inst: Inst, stores: bool, st: Stage)
    requires s.Valid() && FetchIsFirst(inst, stores) && Shown(s, inst, stores, 0, st)
    ensures FrameOf(s, inst, stores).fetch <= inst.Tick(st) <= FrameOf(s, inst, stores).last
  {
    var k :| 0 <= k < |Stages(stores)| && Stages(stores)[k] == st;
    MaxTickIsMax(inst, Stages(stores), k);
  }

  lemma ShownTold(s: Scale, inst: Inst, stores: bool, row: int, st: Stage, column: int)
    requires s.Valid() && FetchIsFirst(inst, stores) && 0 <= row < FrameOf(s, inst, stores).NumLines()
    requires var f := FrameOf(s, inst, stores); f.Compact() ==> f.last / s.cycle - f.fetch / s.cycle < s.width
    requires Shown(s, inst, stores, row, st) && s.TimeWidth() > 0
    requires column == inst.Tick(st) % s.TimeWidth() / s.cycle
    ensures CycleAt(s, FrameOf(s, inst, stores), row, column) == inst.Tick(st) / s.cycle
  {
    var f := FrameOf(s, inst, stores);
    if f.Compact() {
      ShownAfterFetch(s, inst, stores, st);
      CompactTicksIff(s, inst, stores);
      assert ReadsBack(s, f, 0, inst.Tick(st));
    } else {
      SeveralRowsReadBack(s, inst, stores, row, inst.Tick(st));
    }
  }

  lemma MarkTold(s: Scale, inst: Inst, stores: bool, row: int, m: Mark, st: Stage)
    requires s.Valid() && FetchIsFirst(inst, stores) && 0 <= row < FrameOf(s, inst, stores).NumLines()
    requires var f := FrameOf(s, inst, stores); f.Compact() ==> f.last / s.cycle - f.fetch / s.cycle < s.width
    requires m in RowMarks(s, inst, stores, row) && m.ch == Shorthand(st)
    ensures CycleAt(s, FrameOf(s, inst, stores), row, m.column) == inst.Tick(st) / s.cycle
  {
    MarkIsShown(s, inst, stores, row, m, st);
    ShownTold(s, inst, stores, row, st, m.column);
  }

  /** The main result on columns: in several rows the drawing always tells the cycles of its
      events; in compact form exactly when the last event comes less than a row width after the
      fetch when counted in cycles. (Ticks are unsigned.) */
  lemma TellsCyclesIff(s: Scale, inst: Inst, stores: bool)
    requires s.Valid() && FetchIsFirst(inst, stores) && inst.Tick(Fetch) >= 0
    ensures var f := FrameOf(s, inst, stores);
            TellsCycles(s, inst, stores) <==> (f.Compact() ==> f.last / s.cycle - f.fetch / s.cycle < s.width)
  {
    var f := FrameOf(s, inst, stores);
    FrameIsValid(s, inst, stores);
    if f.Compact() && f.last / s.cycle - f.fetch / s.cycle >= s.width {
      LateEventMisread(s, inst, stores);
    } else {
      forall row, m, st | 0 <= row < f.NumLines() && m in RowMarks(s, inst, stores, row) && m.ch == Shorthand(st)
        ensures CycleAt(s, f, row, m.column) == inst.Tick(st) / s.cycle
      {
        MarkTold(s, inst, stores, row, m, st);
      }
    }
  }

  lemma LateEventMisread(s: Scale, inst: Inst, stores: bool)
    requires s.Valid() && inst.Tick(Fetch) >= 0 && FrameOf(s, inst, stores).Compact()
    requires FrameOf(s, inst, stores).last / s.cycle - FrameOf(s, inst, stores).fetch / s.cycle >= s.width
    ensures !TellsCycles(s, inst, stores)
  {
    var f := FrameOf(s, inst, stores);
    DivMonotone(0, f.fetch, s.cycle);
    var st := LastIsShown(s, inst, stores);
    ShownHasMark(s, inst, stores, 0, st);
    CompactReadsBack(s, f, 0, f.last);
    var m := Mark(f.last % s.TimeWidth() / s.cycle, Shorthand(st));
    assert m in RowMarks(s, inst, stores, 0) && m.ch == Shorthand(st);
  }

  /** The viewer's default scale, and an instruction of which only fetch and issue are recorded. */
  ghost predicate FailingInput(s: Scale, inst: Inst) {
    && s.width == 80 && s.cycle == 1000
    && inst.Tick(Fetch) == 999 && inst.Tick(Issue) == 80500
    && forall st | st != Fetch && st != Issue :: inst.Tick(st) == 0
  }

  lemma FrameOfFailing(s: Scale, inst: Inst, stores: bool)
    requires FailingInput(s, inst)
    ensures FrameOf(s, inst, stores) == Frame(80000, 0, 999, 80500) && FetchIsFirst(inst, stores)
  {
    var stages := Stages(stores);
    assert stages[4] == Issue;
    MaxTickIsMax(inst, stages, 4);
    var st := MaxTickOccurs(inst, stages);
    assert s.TimeWidth() == 80000;
  }

  lemma ShownInFailing(s: Scale, inst: Inst, stores: bool, row: int, st: Stage)
    requires FailingInput(s, inst) && row == 0 && (st == Fetch || st == Issue)
    ensures Shown(s, inst, stores, row, st)
  {
    FrameOfFailing(s, inst, stores);
    assert Stages(stores)[0] == Fetch && Stages(stores)[4] == Issue;
  }

  lemma ColumnInFailing(s: Scale, t: int)
    requires s.width == 80 && s.cycle == 1000 && (t == 999 || t == 80500)
    ensures s.TimeWidth() == 80000 && t % s.TimeWidth() / s.cycle == 0
  {
  }

  lemma ShownAtColumn(s: Scale, inst: Inst, stores: bool, row: int, st: Stage, column: int)
    requires s.Valid() && Shown(s, inst, stores, row, st) && s.TimeWidth() > 0
    requires column == inst.Tick(st) % s.TimeWidth() / s.cycle
    ensures Mark(column, Shorthand(st)) in RowMarks(s, inst, stores, row)
  {
    ShownHasMark(s, inst, stores, row, st);
  }

  lemma MarkInFailing(s: Scale, inst: Inst, stores: bool, row: int, st: Stage)
    requires FailingInput(s, inst) && row == 0 && (st == Fetch || st == Issue)
    ensures Mark(0, Shorthand(st)) in RowMarks(s, inst, stores, row)
  {
    ShownInFailing(s, inst, stores, row, st);
    ColumnInFailing(s, inst.Tick(st));
    ShownAtColumn(s, inst, stores, row, st, 0);
  }

  lemma MisreadInFailing(s: Scale, inst: Inst, stores: bool)
    requires FailingInput(s, inst)
    ensures !TellsCycles(s, inst, stores)
  {
    FrameOfFailing(s, inst, stores);
    LateEventMisread(s, inst, stores);
  }

  /** The failing case: compact, and fetch and issue are 80 cycles apart in the same column. */
  lemma EightyCyclesInOneColumn(s: Scale, inst: Inst, stores: bool, row: int)
    requires FailingInput(s, inst) && row == 0
    ensures FrameOf(s, inst, stores).Compact() && FetchIsFirst(inst, stores) && !TellsCycles(s, inst, stores)
    ensures Mark(0, Shorthand(Fetch)) in RowMarks(s, inst, stores, row)
    ensures Mark(0, Shorthand(Issue)) in RowMarks(s, inst, stores, row)
    ensures inst.Tick(Issue) / s.cycle - inst.Tick(Fetch) / s.cycle == 80 == s.width
  {
    FrameOfFailing(s, inst, stores);
    MarkInFailing(s, inst, stores, row, Fetch);
    MarkInFailing(s, inst, stores, row, Issue);
    MisreadInFailing(s, inst, stores);
  }

  // ---------- printing one instruction ----------

  function DotOf(inst: Inst): char {
    if inst.Tick(Retire) == 0 then '=' else '.'
  }

  /** In compact form the viewer looks at the first event of the row, and fails when there is none. */
  predicate HasNoFirstEvent(s: Scale, inst: Inst, stores: bool)
    requires s.Valid()
  {
    var f := FrameOf(s, inst, stores);
    f.NumLines() == 1 && EventsIn(f, inst, Stages(stores), 0) == []
  }

  /** The loop over the stages that collects the events of one row. */
  method CollectEvents(f: Frame, inst: Inst, stages: seq<Stage>, row: int) returns (events: seq<Event>)
    requires f.timeWidth > 0
    ensures events == EventsIn(f, inst, stages, row)
  {
    events := [];
    for k := 0 to |stages|
      invariant events == EventsIn(f, inst, stages[..k], row)
    {
      assert stages[..k + 1][..k] == stages[..k];
      var tick := inst.Tick(stages[k]);
      if tick != 0 {
        if f.RowStart(row) <= tick < f.RowEnd(row) {
          events := events + [Event(tick % f.timeWidth, stages[k], tick)];
        }
      }
    }
    assert stages[..|stages|] == stages;
  }

  /** The visible rows of one instruction, without colours. */
  method PrintInst(s: Scale, inst: Inst, stores: bool) returns (ok: bool, rows: seq<string>)
    requires s.Valid()
    ensures ok <==> !HasNoFirstEvent(s, inst, stores)
    ensures ok ==> |rows| == FrameOf(s, inst, stores).NumLines()
    ensures ok ==> forall i | 0 <= i < |rows| ::
              rows[i] == Cells(RowMarks(s, inst, stores, i), DotOf(inst), s.width)
  {
    var f := FrameOf(s, inst, stores);
    FrameIsValid(s, inst, stores);
    if !f.Compact() { SeveralRows(f); }
    rows := [];
    for row := 0 to f.NumLines()
      invariant |rows| == row
      invariant row > 0 ==> !HasNoFirstEvent(s, inst, stores)
      invariant forall i | 0 <= i < row ::
                  rows[i] == Cells(RowMarks(s, inst, stores, i), DotOf(inst), s.width)
    {
      var events := CollectEvents(f, inst, Stages(stores), row);
      if f.NumLines() == 1 && events == [] {
        return false, rows;
      }
      RowMarksFit(s, inst, stores, row);
      var text := DrawMarks(Marks(s, inst, SortEvents(events)), s.width, DotOf(inst));
      rows := rows + [text];
    }
    ok := true;
  }

  /** The failure happens exactly for a record without any event. */
  lemma NoFirstEventIff(s: Scale, inst: Inst, stores: bool)
    requires s.Valid() && FetchIsFirst(inst, stores)
    ensures HasNoFirstEvent(s, inst, stores) <==>
            forall k | 0 <= k < |Stages(stores)| :: inst.Tick(Stages(stores)[k]) == 0
  {
    var f := FrameOf(s, inst, stores);
    FrameIsValid(s, inst, stores);
    if k :| 0 <= k < |Stages(stores)| && inst.Tick(Stages(stores)[k]) != 0 {
      EveryEventInOneRow(s, inst, stores, k);
      if f.NumLines() == 1 {
        EventIsCollected(f, inst, Stages(stores), 0, k);
      }
    } else {
      NoTickNoEvent(f, inst, Stages(stores), 0);
      MaxOfZeros(inst, Stages(stores));
      assert Stages(stores)[0] == Fetch;
      assert f.last - f.fetch == 0;
    }
  }

  lemma {:induction false} EventIsCollected(f: Frame, inst: Inst, stages: seq<Stage>, row: int, k: nat)
    requires f.timeWidth > 0 && k < |stages| && inst.Tick(stages[k]) != 0
    requires f.InRow(row, inst.Tick(stages[k]))
    ensures Event(inst.Tick(stages[k]) % f.timeWidth, stages[k], inst.Tick(stages[k])) in EventsIn(f, inst, stages, row)
  {
    if k < |stages| - 1 {
      EventIsCollected(f, inst, stages[..|stages| - 1], row, k);
    }
  }

  lemma {:induction false} NoTickNoEvent(f: Frame, inst: Inst, stages: seq<Stage>, row: int)
    requires f.timeWidth > 0 && forall k | 0 <= k < |stages| :: inst.Tick(stages[k]) == 0
    ensures EventsIn(f, inst, stages, row) == []
  {
    if stages != [] { NoTickNoEvent(f, inst, stages[..|stages| - 1], row); }
  }

  lemma {:induction false} MaxOfZeros(inst: Inst, stages: seq<Stage>)
    requires stages != [] && forall k | 0 <= k < |stages| :: inst.Tick(stages[k]) == 0
    ensures MaxTick(inst, stages) == 0
  {
    if |stages| > 1 { MaxOfZeros(inst, stages[..|stages| - 1]); }
  }
}

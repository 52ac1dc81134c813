/** The years of a copyright notice: a set printed as ranges, and ranges read as a set. */
module Copyrights {
  import opened PyStr

  // ---------- reading ----------

  datatype Match = NoMatch | Range(first: int, last: int)

  predicate FourDigits(s: string) {
    |s| >= 4 && IsDigit(s[0]) && IsDigit(s[1]) && IsDigit(s[2]) && IsDigit(s[3])
  }

  /** Four digits, a dash with or without space around it, four digits; anything may follow. */
  function MatchRange(s: string): Match {
    if !FourDigits(s) then NoMatch
    else
      var rest := LeftStrip(s[4..]);
      if rest == "" || rest[0] != '-' then NoMatch
      else
        var last := LeftStrip(rest[1..]);
        if !FourDigits(last) then NoMatch
        else
          match (ParseInt(s[..4]), ParseInt(last[..4]))
          case (Ok(f), Ok(l)) => Range(f, l)
          case _ => NoMatch
  }

  /** All years from one to another. */
  function Span(first: int, last: int): set<int>
    decreases last - first
  {
    if first > last then {} else Span(first, last - 1) + {last}
  }

  lemma {:induction false} SpanHas(first: int, last: int, y: int)
    ensures y in Span(first, last) <==> first <= y <= last
    decreases last - first
  {
    if first <= last {
      SpanHas(first, last - 1, y);
    }
  }

  /** The years of one entry; an entry that is neither a range nor a number has none. */
  function ItemYears(s: string): set<int> {
    match MatchRange(s)
    case Range(f, l) => Span(f, l)
    case NoMatch => match ParseInt(s) case Ok(y) => {y} case Fail => {}
  }

  function Years(items: seq<string>): set<int> {
    if items == [] then {} else Years(items[..|items| - 1]) + ItemYears(Strip(items[|items| - 1]))
  }

  method ProcessDates(dates: string) returns (output: set<int>)
    ensures output == Years(Split(dates, ','))
  {
    var items := Split(dates, ',');
    output := {};
    for k := 0 to |items|
      invariant output == Years(items[..k])
    {
      assert items[..k + 1][..k] == items[..k];
      var date := Strip(items[k]);
      var m := MatchRange(date);
      if m.Range? {
        output := AddRange(output, m.first, m.last);
      } else {
        var n := ParseInt(date);
        if n.Ok? {
          output := output + {n.value};
        }
      }
    }
    assert items[..|items|] == items;
  }

  method AddRange(years: set<int>, first: int, last: int) returns (output: set<int>)
    ensures output == years + Span(first, last)
  {
    output := years;
    var i := first;
    while i < last + 1
      invariant first <= i && (i <= last + 1 || i == first)
      invariant output == years + Span(first, i - 1)
    {
      output := output + {i};
      i := i + 1;
    }
  }

  // ---------- printing ----------

  datatype Run = Run(first: nat, last: nat)

  /** The list that sorting a set gives. */
  ghost predicate Increasing(xs: seq<nat>) {
    forall i, j | 0 <= i < j < |xs| :: xs[i] < xs[j]
  }

  /** The runs that are complete, and the one that may still grow. */
  datatype Scan = Scan(done: seq<Run>, last: Run)

  function Scanned(xs: seq<nat>): Scan
    requires xs != []
  {
    var x := xs[|xs| - 1];
    if |xs| == 1 then Scan([], Run(x, x))
    else
      var s := Scanned(xs[..|xs| - 1]);
      if x == s.last.last + 1 then Scan(s.done, Run(s.last.first, x)) else Scan(s.done + [s.last], Run(x, x))
  }

  function Runs(xs: seq<nat>): seq<Run>
    requires xs != []
  {
    Scanned(xs).done + [Scanned(xs).last]
  }

  function RunText(r: Run): string {
    if r.first == r.last then Decimal(r.first) else Decimal(r.first) + "-" + Decimal(r.last)
  }

  function Texts(rs: seq<Run>): seq<string> {
    seq(|rs|, i requires 0 <= i < |rs| => RunText(rs[i]))
  }

  /** Prints the years of a non-empty sorted list. */
  method DateStr(dates: seq<nat>) returns (text: string)
    requires dates != []
    ensures text == Join(Texts(Runs(dates)), ',')
  {
    var output: seq<string> := [];
    var first, second := dates[0], dates[0];
    assert dates[..1] == [dates[0]];
    ghost var done: seq<Run> := [];
    for k := 1 to |dates|
      invariant Scanned(dates[..k]) == Scan(done, Run(first, second)) && output == Texts(done)
    {
      assert dates[..k + 1][..k] == dates[..k];
      var next := dates[k];
      if next == second + 1 {
        second := next;
      } else {
        done := done + [Run(first, second)];
        output := output + [RunText(Run(first, second))];
        first, second := next, next;
      }
    }
    assert dates[..|dates|] == dates;
    output := output + [RunText(Run(first, second))];
    assert output == Texts(Runs(dates));
    text := Join(output, ',');
  }

  ghost predicate InRun(r: Run, y: int) {
    r.first <= y <= r.last
  }

  /** Increasing runs with a gap before each: none can be extended or joined. */
  ghost predicate Maximal(rs: seq<Run>) {
    && (forall i | 0 <= i < |rs| :: rs[i].first <= rs[i].last)
    && (forall i, j | 0 <= i < j < |rs| :: rs[i].last + 1 < rs[j].first)
  }

  lemma {:induction false} RunsAreMaximal(xs: seq<nat>)
    requires Increasing(xs) && xs != []
    ensures Maximal(Runs(xs)) && Scanned(xs).last.last == xs[|xs| - 1]
  {
    if |xs| > 1 {
      var front, x := xs[..|xs| - 1], xs[|xs| - 1];
      RunsAreMaximal(front);
      var s := Scanned(front);
      MaximalGrows(s.done, s.last, x);
    }
  }

  lemma MaximalGrows(done: seq<Run>, last: Run, x: nat)
    requires Maximal(done + [last]) && last.last < x
    ensures x == last.last + 1 ==> Maximal(done + [Run(last.first, x)])
    ensures x != last.last + 1 ==> Maximal(done + [last] + [Run(x, x)])
  {
    var all := done + [last];
    assert all[|done|] == last && forall i | 0 <= i < |done| :: all[i] == done[i];
    forall i | 0 <= i < |all| ensures all[i].last <= last.last && all[i].first <= all[i].last {
    }
  }

  /** The years that the runs hold. */
  ghost predicate Holds(rs: seq<Run>, y: int) {
    exists i :: 0 <= i < |rs| && InRun(rs[i], y)
  }

  lemma HoldsSnoc(rs: seq<Run>, r: Run, y: int)
    ensures Holds(rs + [r], y) <==> Holds(rs, y) || InRun(r, y)
  {
    var all := rs + [r];
    assert all[|rs|] == r;
    if i :| 0 <= i < |rs| && InRun(rs[i], y) {
      assert InRun(all[i], y);
    }
    if i :| 0 <= i < |all| && InRun(all[i], y) {
      assert i < |rs| ==> InRun(rs[i], y);
    }
  }

  /** The runs hold exactly the years of the list. */
  lemma {:induction false} RunsCover(xs: seq<nat>, y: int)
    requires Increasing(xs) && xs != []
    ensures Holds(Runs(xs), y) <==> Listed(xs, y)
  {
    var x := xs[|xs| - 1];
    var s := Scanned(xs);
    HoldsSnoc(s.done, s.last, y);
    if |xs| > 1 {
      var front := xs[..|xs| - 1];
      var before := Scanned(front);
      RunsCover(front, y);
      RunsAreMaximal(front);
      HoldsSnoc(before.done, before.last, y);
      assert before.last.first <= before.last.last by {
        assert Runs(front)[|before.done|] == before.last;
      }
      if i :| 0 <= i < |front| && front[i] == y {
        assert xs[i] == y;
      }
      if i :| 0 <= i < |xs| && xs[i] == y {
        assert i < |front| ==> front[i] == y;
      }
    } else {
      assert !Holds([], y);
    }
  }

  // ---------- printed and read again ----------

  ghost predicate AllDigits(s: string) {
    forall i | 0 <= i < |s| :: IsDigit(s[i])
  }

  function Pow10(k: nat): (r: nat)
    ensures r >= 1
  {
    if k == 0 then 1 else 10 * Pow10(k - 1)
  }

  lemma {:induction false} DigitsBound(s: string)
    requires s != "" && AllDigits(s)
    ensures ParseDigits(s).Ok? && ParseDigits(s).value < Pow10(|s|)
  {
    if |s| > 1 {
      DigitsBound(s[..|s| - 1]);
    }
  }

  lemma {:induction false} DashIsNoNumber(a: string, b: string)
    requires AllDigits(b)
    ensures ParseDigits(a + "-" + b).Fail?
  {
    var s := a + "-" + b;
    if b != "" {
      var front := b[..|b| - 1];
      DashIsNoNumber(a, front);
      assert s[..|s| - 1] == a + "-" + front;
      assert s[|s| - 2] == if front == "" then '-' else front[|front| - 1];
    }
  }

  lemma {:induction false} DecimalLength(n: nat, k: nat)
    ensures |Decimal(n)| <= k + 1 <==> n < Pow10(k + 1)
    decreases k
  {
    if k == 0 {
      assert Pow10(1) == 10;
      if n >= 10 {
        DecimalDigits(n / 10);
      }
    } else if n >= 10 {
      DecimalLength(n / 10, k - 1);
      assert n < 10 * Pow10(k) <==> n / 10 < Pow10(k);
    } else {
      assert Pow10(k + 1) == 10 * Pow10(k);
    }
  }

  lemma FourDigitYears(n: nat)
    ensures |Decimal(n)| == 4 <==> 1000 <= n <= 9999
    ensures |Decimal(n)| < 4 <==> n < 1000
  {
    DecimalLength(n, 2);
    DecimalLength(n, 3);
    assert Pow10(3) == 1000 && Pow10(4) == 10000;
  }

  /** What a printed run is read as: the run itself, when it has one year or four digits. */
  predicate Readable(r: Run) {
    r.first == r.last || (1000 <= r.first && r.last <= 9999)
  }

  /** The dash after four digits is found; after more or fewer digits there is no match. */
  lemma MatchOfRun(r: Run)
    requires r.first < r.last
    ensures var m := MatchRange(RunText(r));
            if 1000 <= r.first <= 9999 then
              m.Range? && m.first == r.first && (r.last <= 9999 ==> m.last == r.last) && m.last <= 9999
            else m == NoMatch
  {
    var f, l := Decimal(r.first), Decimal(r.last);
    var s := f + "-" + l;
    DecimalDigits(r.first);
    DecimalDigits(r.last);
    FourDigitYears(r.first);
    FourDigitYears(r.last);
    if |f| == 4 {
      assert s[..4] == f && s[4..] == "-" + l && s[4..][1..] == l;
      assert LeftStrip(s[4..]) == s[4..] && LeftStrip(l) == l;
      IntOfDecimal(r.first);
      ParseFour(l[..4]);
      if |l| == 4 {
        assert l[..4] == l;
        IntOfDecimal(r.last);
      }
    } else if |f| < 4 {
      assert s[|f|] == '-';
    } else {
      assert s[4] == f[4];
      assert s[4..][0] == f[4];
    }
  }

  lemma ParseFour(s: string)
    requires |s| == 4 && AllDigits(s)
    ensures ParseInt(s).Ok? && ParseInt(s).value <= 9999
  {
    DigitsBound(s);
    StripNothing(s);
    assert Pow10(4) == 10000;
  }

  lemma NumberOfYear(y: nat)
    ensures MatchRange(Decimal(y)) == NoMatch && ParseInt(Decimal(y)) == Ok(y)
  {
    var s := Decimal(y);
    DecimalDigits(y);
    IntOfDecimal(y);
    if |s| > 4 {
      assert s[4..][0] == s[4];
    }
  }

  /** A printed run is read as some of its own years, and as all of them exactly when it is
      readable. */
  lemma RunReadBack(r: Run)
    requires r.first <= r.last
    ensures forall y | y in ItemYears(RunText(r)) :: InRun(r, y)
    ensures Readable(r) ==> forall y | InRun(r, y) :: y in ItemYears(RunText(r))
    ensures !Readable(r) ==> r.last !in ItemYears(RunText(r))
  {
    var t := RunText(r);
    if r.first == r.last {
      NumberOfYear(r.first);
    } else {
      MatchOfRun(r);
      var m := MatchRange(t);
      if m.Range? {
        forall y ensures y in ItemYears(t) <==> m.first <= y <= m.last {
          SpanHas(m.first, m.last, y);
        }
      } else {
        DecimalDigits(r.first);
        DecimalDigits(r.last);
        DashIsNoNumber(Decimal(r.first), Decimal(r.last));
        StripNothing(t);
      }
    }
  }

  lemma TextOfRun(r: Run)
    ensures ',' !in RunText(r) && Strip(RunText(r)) == RunText(r)
  {
    DecimalDigits(r.first);
    DecimalDigits(r.last);
    StripNothing(RunText(r));
  }

  /** What is read of printed runs. */
  ghost function ReadYears(rs: seq<Run>): set<int> {
    if rs == [] then {} else ReadYears(rs[..|rs| - 1]) + ItemYears(RunText(rs[|rs| - 1]))
  }

  lemma {:induction false} YearsOfTexts(rs: seq<Run>)
    ensures Years(Texts(rs)) == ReadYears(rs)
  {
    if rs != [] {
      var n := |rs| - 1;
      YearsOfTexts(rs[..n]);
      TextOfRun(rs[n]);
      assert Texts(rs)[..n] == Texts(rs[..n]);
    }
  }

  lemma ItemsOfText(rs: seq<Run>)
    requires rs != []
    ensures Split(Join(Texts(rs), ','), ',') == Texts(rs)
  {
    forall i | 0 <= i < |rs| ensures ',' !in Texts(rs)[i] {
      TextOfRun(rs[i]);
    }
    SplitOfJoin(Texts(rs), ',');
  }

  /** Nothing but years of the runs is read, */
  lemma {:induction false} ReadsOnlyRuns(rs: seq<Run>, y: int)
    requires Maximal(rs) && y in ReadYears(rs)
    ensures Holds(rs, y)
  {
    var n := |rs| - 1;
    assert rs == rs[..n] + [rs[n]];
    HoldsSnoc(rs[..n], rs[n], y);
    RunReadBack(rs[n]);
    if y in ReadYears(rs[..n]) {
      ReadsOnlyRuns(rs[..n], y);
    }
  }

  /** all of a readable run is read, */
  lemma {:induction false} ReadsReadable(rs: seq<Run>, i: nat, y: int)
    requires Maximal(rs) && i < |rs| && Readable(rs[i]) && InRun(rs[i], y)
    ensures y in ReadYears(rs)
  {
    var n := |rs| - 1;
    if i < n {
      ReadsReadable(rs[..n], i, y);
    } else {
      RunReadBack(rs[n]);
    }
  }

  lemma BeforeRun(rs: seq<Run>, r: Run, y: int)
    requires Maximal(rs + [r]) && Holds(rs, y)
    ensures y < r.first
  {
    var i :| 0 <= i < |rs| && InRun(rs[i], y);
    assert (rs + [r])[i] == rs[i] && (rs + [r])[|rs|] == r;
  }

  /** and of any other run at least the last year is not. */
  lemma {:induction false} LosesUnreadable(rs: seq<Run>, i: nat)
    requires Maximal(rs) && i < |rs| && !Readable(rs[i])
    ensures rs[i].last !in ReadYears(rs)
  {
    var n, y := |rs| - 1, rs[i].last;
    var front, last := rs[..n], rs[n];
    assert rs == front + [last];
    RunReadBack(last);
    if i < n {
      LosesUnreadable(front, i);
      assert InRun(front[i], y);
      BeforeRun(front, last, y);
    } else if y in ReadYears(front) {
      ReadsOnlyRuns(front, y);
      BeforeRun(front, last, y);
    }
  }

  ghost predicate Listed(xs: seq<nat>, y: int) {
    exists i :: 0 <= i < |xs| && xs[i] == y
  }

  /** The years found in the printed text. */
  ghost function ReadBack(xs: seq<nat>): set<int>
    requires xs != []
  {
    Years(Split(Join(Texts(Runs(xs)), ','), ','))
  }

  lemma ReadBackIs(xs: seq<nat>)
    requires xs != []
    ensures ReadBack(xs) == ReadYears(Runs(xs))
  {
    ItemsOfText(Runs(xs));
    YearsOfTexts(Runs(xs));
  }

  lemma ReadableYear(xs: seq<nat>, y: int)
    requires Increasing(xs) && xs != [] && forall i | 0 <= i < |Runs(xs)| :: Readable(Runs(xs)[i])
    ensures y in ReadYears(Runs(xs)) <==> Listed(xs, y)
  {
    var rs := Runs(xs);
    RunsCover(xs, y);
    RunsAreMaximal(xs);
    if y in ReadYears(rs) {
      ReadsOnlyRuns(rs, y);
    }
    if i :| 0 <= i < |rs| && InRun(rs[i], y) {
      ReadsReadable(rs, i, y);
    }
  }

  lemma UnreadableYear(xs: seq<nat>, i: nat)
    requires Increasing(xs) && xs != [] && i < |Runs(xs)| && !Readable(Runs(xs)[i])
    ensures var y := Runs(xs)[i].last; Listed(xs, y) && y !in ReadYears(Runs(xs))
  {
    var rs := Runs(xs);
    RunsAreMaximal(xs);
    RunsCover(xs, rs[i].last);
    assert InRun(rs[i], rs[i].last);
    LosesUnreadable(rs, i);
  }

  /** The printed text is read back exactly when every run of more than one year lies within the
      four-digit years. */
  lemma ReadBackIff(xs: seq<nat>)
    requires Increasing(xs) && xs != []
    ensures (forall y :: y in ReadBack(xs) <==> Listed(xs, y))
            <==> forall i | 0 <= i < |Runs(xs)| :: Readable(Runs(xs)[i])
  {
    ReadBackIs(xs);
    if i :| 0 <= i < |Runs(xs)| && !Readable(Runs(xs)[i]) {
      UnreadableYear(xs, i);
    } else {
      forall y ensures y in ReadBack(xs) <==> Listed(xs, y) {
        ReadableYear(xs, y);
      }
    }
  }

  /** Years that follow each other have four digits. */
  ghost predicate FourDigitPairs(xs: seq<nat>) {
    forall y: int {:trigger Listed(xs, y)} | Listed(xs, y) && Listed(xs, y + 1) :: 1000 <= y && y + 1 <= 9999
  }

  lemma PairInRun(xs: seq<nat>, y: int) returns (i: nat)
    requires Increasing(xs) && xs != [] && Listed(xs, y) && Listed(xs, y + 1)
    ensures i < |Runs(xs)| && InRun(Runs(xs)[i], y) && InRun(Runs(xs)[i], y + 1)
  {
    var rs := Runs(xs);
    RunsAreMaximal(xs);
    RunsCover(xs, y);
    RunsCover(xs, y + 1);
    i :| 0 <= i < |rs| && InRun(rs[i], y);
    var j :| 0 <= j < |rs| && InRun(rs[j], y + 1);
  }

  lemma RunIsListed(xs: seq<nat>, i: nat, y: int)
    requires Increasing(xs) && xs != [] && i < |Runs(xs)| && InRun(Runs(xs)[i], y)
    ensures Listed(xs, y)
  {
    RunsCover(xs, y);
  }

  lemma RunsReadableIff(xs: seq<nat>)
    requires Increasing(xs) && xs != []
    ensures (forall i | 0 <= i < |Runs(xs)| :: Readable(Runs(xs)[i])) <==> FourDigitPairs(xs)
  {
    var rs := Runs(xs);
    RunsAreMaximal(xs);
    if forall i | 0 <= i < |rs| :: Readable(rs[i]) {
      forall y: int | Listed(xs, y) && Listed(xs, y + 1) ensures 1000 <= y && y + 1 <= 9999 {
        var i := PairInRun(xs, y);
        assert Readable(rs[i]);
      }
    }
    if FourDigitPairs(xs) {
      forall i | 0 <= i < |rs| ensures Readable(rs[i]) {
        if rs[i].first < rs[i].last {
          RunIsListed(xs, i, rs[i].first);
          RunIsListed(xs, i, rs[i].first + 1);
          RunIsListed(xs, i, rs[i].last - 1);
          RunIsListed(xs, i, rs[i].last);
        }
      }
    }
  }

  /** A set of years is printed and read back exactly when any two years of it that follow each
      other have four digits. */
  lemma RoundTripIff(xs: seq<nat>)
    requires Increasing(xs) && xs != []
    ensures (forall y :: y in ReadBack(xs) <==> Listed(xs, y)) <==> FourDigitPairs(xs)
  {
    ReadBackIff(xs);
    RunsReadableIff(xs);
  }

  lemma TwoYears(xs: seq<nat>)
    requires |xs| == 2 && xs[1] == xs[0] + 1
    ensures Increasing(xs) && Runs(xs) == [Run(xs[0], xs[1])]
  {
    var one := xs[..1];
    assert Scanned(one) == Scan([], Run(xs[0], xs[0]));
  }

  /** The failing case: years on both sides of 1000 are printed as one run, and its last year
      is not read back. */
  lemma LosesTheYear1000(xs: seq<nat>)
    requires |xs| == 2 && xs[0] == 999 && xs[1] == 1000
    ensures Increasing(xs) && Listed(xs, xs[1]) && xs[1] !in ReadBack(xs)
  {
    TwoYears(xs);
    assert !Readable(Runs(xs)[0]);
    UnreadableYear(xs, 0);
    ReadBackIs(xs);
  }

  /** In particular, any set of four-digit years. */
  lemma FourDigitRoundTrip(xs: seq<nat>, y: int)
    requires Increasing(xs) && xs != [] && forall i | 0 <= i < |xs| :: 1000 <= xs[i] <= 9999
    ensures y in ReadBack(xs) <==> Listed(xs, y)
  {
    var rs := Runs(xs);
    RunsAreMaximal(xs);
    forall k | 0 <= k < |rs| ensures Readable(rs[k]) {
      RunsCover(xs, rs[k].first);
      RunsCover(xs, rs[k].last);
      assert InRun(rs[k], rs[k].first) && InRun(rs[k], rs[k].last);
    }
    ReadBackIs(xs);
    ReadableYear(xs, y);
  }
}

/** The text form of the instruction dependency trace: printed by the decode script, read again
    by the encode script. */
module DepTrace {
  import opened PyStr

  type U32 = n: nat | n < 0x1_0000_0000
  type U64 = n: nat | n < 0x1_0000_0000_0000_0000

  datatype Option<+T> = None | Some(value: T)
  datatype Kind = INVALID | LOAD | STORE | COMP

  datatype Record = Record(
    seqNum: U64, kind: Kind, pAddr: Option<U64>, size: Option<U32>, flags: Option<U32>,
    robDep: seq<U64>, compDelay: U64, regDep: seq<U64>, weight: Option<U32>, pc: Option<U64>,
    vAddr: Option<U64>, asid: Option<U32>)

  function KindName(k: Kind): string {
    match k
    case INVALID => "INVALID"
    case LOAD => "LOAD"
    case STORE => "STORE"
    case COMP => "COMP"
  }

  function KindOf(name: string): Result<Kind> {
    if name == "INVALID" then Ok(INVALID)
    else if name == "LOAD" then Ok(LOAD)
    else if name == "STORE" then Ok(STORE)
    else if name == "COMP" then Ok(COMP)
    else Fail
  }

  // ---------- printing ----------

  function Optional(o: Option<nat>): seq<string> {
    if o.Some? then [Decimal(o.value)] else []
  }

  function OrElse(o: Option<nat>, default: nat): nat {
    if o.Some? then o.value else default
  }

  function HeadFields(r: Record): seq<string> {
    [Decimal(r.seqNum), Decimal(OrElse(r.pc, 0)), Decimal(OrElse(r.weight, 1)), KindName(r.kind)]
  }

  function RequestFields(r: Record): seq<string> {
    Optional(r.pAddr) + Optional(r.size) + Optional(r.flags)
  }

  function Fields(r: Record): seq<string> {
    HeadFields(r) + RequestFields(r) + [Decimal(r.compDelay)]
  }

  /** An empty entry comes first, so that a list without dependencies is an empty text. */
  function DepFields(deps: seq<U64>): seq<string> {
    if deps == [] then [""] else DepFields(deps[..|deps| - 1]) + [Decimal(deps[|deps| - 1])]
  }

  function LineText(r: Record): string {
    Join(Fields(r), ',') + ":" + Join(DepFields(r.robDep), ',') + ":" + Join(DepFields(r.regDep), ',') + "\n"
  }

  method PrintDeps(deps: seq<U64>) returns (out: string)
    ensures out == Join(DepFields(deps), ',')
  {
    out := "";
    for i := 0 to |deps|
      invariant out == Join(DepFields(deps[..i]), ',')
    {
      assert deps[..i + 1][..i] == deps[..i];
      DepFieldsNonempty(deps[..i]);
      JoinSnoc(DepFields(deps[..i]), Decimal(deps[i]), ',');
      out := out + "," + Decimal(deps[i]);
    }
    assert deps[..|deps|] == deps;
  }

  lemma DepFieldsNonempty(deps: seq<U64>)
    ensures DepFields(deps) != []
  {
  }

  /** One line of the decode script's output, written piece by piece. */
  method PrintRecord(r: Record) returns (out: string)
    ensures out == LineText(r)
  {
    out := PrintHead(r);
    ghost var fields;
    out, fields := PrintOptional(out, HeadFields(r), r.pAddr);
    out, fields := PrintOptional(out, fields, r.size);
    out, fields := PrintOptional(out, fields, r.flags);
    out, fields := PrintField(out, fields, r.compDelay);
    assert fields == Fields(r);
    var rob := PrintDeps(r.robDep);
    var reg := PrintDeps(r.regDep);
    out := out + ":" + rob + ":" + reg + "\n";
  }

  method PrintHead(r: Record) returns (out: string)
    ensures out == Join(HeadFields(r), ',')
  {
    out := Decimal(r.seqNum);
    ghost var fields := [Decimal(r.seqNum)];
    out, fields := PrintField(out, fields, if r.pc.Some? then r.pc.value else 0);
    out, fields := PrintField(out, fields, if r.weight.Some? then r.weight.value else 1);
    JoinSnoc(fields, KindName(r.kind), ',');
    out := out + "," + KindName(r.kind);
    assert fields + [KindName(r.kind)] == HeadFields(r);
  }

  method PrintOptional(text: string, ghost fields: seq<string>, o: Option<nat>)
    returns (out: string, ghost more: seq<string>)
    requires fields != [] && text == Join(fields, ',')
    ensures more == fields + Optional(o) && out == Join(more, ',')
  {
    out, more := text, fields;
    if o.Some? {
      out, more := PrintField(out, more, o.value);
    }
  }

  method PrintField(text: string, ghost fields: seq<string>, n: nat) returns (out: string, ghost more: seq<string>)
    requires fields != [] && text == Join(fields, ',')
    ensures more == fields + [Decimal(n)] && out == Join(more, ',')
  {
    JoinSnoc(fields, Decimal(n), ',');
    out, more := text + "," + Decimal(n), fields + [Decimal(n)];
  }

  // ---------- reading ----------

  function ParseU64(s: string): Result<U64> {
    var n :- ParseInt(s);
    if 0 <= n < 0x1_0000_0000_0000_0000 then Ok(n) else Fail
  }

  function ParseU32(s: string): Result<U32> {
    var n :- ParseInt(s);
    if 0 <= n < 0x1_0000_0000 then Ok(n) else Fail
  }

  /** Empty entries are skipped. */
  function DepsOf(parts: seq<string>): Result<seq<U64>> {
    if parts == [] then Ok([])
    else
      var before :- DepsOf(parts[..|parts| - 1]);
      var last := parts[|parts| - 1];
      if last == "" then Ok(before)
      else
        var d :- ParseU64(last);
        Ok(before + [d])
  }

  lemma {:induction false} DepsFailEarly(parts: seq<string>, n: nat)
    requires n <= |parts| && DepsOf(parts[..n]).Fail?
    ensures DepsOf(parts).Fail?
  {
    if n == |parts| {
      assert parts[..n] == parts;
    } else {
      assert parts[..|parts| - 1][..n] == parts[..n];
      DepsFailEarly(parts[..|parts| - 1], n);
    }
  }

  method ReadDeps(parts: seq<string>) returns (r: Result<seq<U64>>)
    ensures r == DepsOf(parts)
  {
    var deps: seq<U64> := [];
    for i := 0 to |parts|
      invariant DepsOf(parts[..i]) == Ok(deps)
    {
      assert parts[..i + 1][..i] == parts[..i];
      if parts[i] != "" {
        var d := ParseU64(parts[i]);
        if d.Fail? {
          DepsFailEarly(parts, i + 1);
          return Fail;
        }
        deps := deps + [d.value];
      }
    }
    assert parts[..|parts|] == parts;
    r := Ok(deps);
  }

  /** What the request fields and the delay are taken from, by the kind of the record. */
  function ParseInfo(info: seq<string>): Result<Record> {
    if |info| < 5 then Fail
    else
      var seqNum :- ParseU64(info[0]);
      var pc :- ParseU64(info[1]);
      var weight :- ParseU32(info[2]);
      var kind :- KindOf(info[3]);
      match kind
      case INVALID => Fail
      case COMP =>
        var delay :- ParseU64(info[4]);
        Ok(Record(seqNum, kind, None, None, None, [], delay, [], Some(weight), Some(pc), None, None))
      case _ =>
        if |info| < 8 then Fail
        else
          var pAddr :- ParseU64(info[4]);
          var size :- ParseU32(info[5]);
          var flags :- ParseU32(info[6]);
          var delay :- ParseU64(info[7]);
          Ok(Record(seqNum, kind, Some(pAddr), Some(size), Some(flags), [], delay, [], Some(weight), Some(pc), None, None))
  }

  function ParseLine(line: string): Result<Record> {
    var parts := Split(Strip(line), ':');
    if |parts| != 3 then Fail
    else
      var r :- ParseInfo(Split(parts[0], ','));
      var rob :- DepsOf(Split(Strip(parts[1]), ','));
      var reg :- DepsOf(Split(parts[2], ','));
      Ok(r.(robDep := rob, regDep := reg))
  }

  method ParseRecord(line: string) returns (r: Result<Record>)
    ensures r == ParseLine(line)
  {
    var parts := Split(Strip(line), ':');
    if |parts| != 3 {
      return Fail;
    }
    r := ParseInfo(Split(parts[0], ','));
    if r.Ok? {
      var rob := ReadDeps(Split(Strip(parts[1]), ','));
      var reg := ReadDeps(Split(parts[2], ','));
      r := if rob.Fail? || reg.Fail? then Fail else Ok(r.value.(robDep := rob.value, regDep := reg.value));
    }
  }

  // ---------- printed and read again ----------

  lemma U64OfDecimal(n: U64)
    ensures ParseU64(Decimal(n)) == Ok(n)
  {
    IntOfDecimal(n);
  }

  lemma U32OfDecimal(n: U32)
    ensures ParseU32(Decimal(n)) == Ok(n)
  {
    IntOfDecimal(n);
  }

  lemma {:induction false} DepsOfFields(deps: seq<U64>)
    ensures DepsOf(DepFields(deps)) == Ok(deps)
  {
    if deps == [] {
      assert DepsOf([]) == Ok([]);
    } else {
      var before, last := deps[..|deps| - 1], deps[|deps| - 1];
      DepsOfFields(before);
      var fields := DepFields(deps);
      assert fields[..|fields| - 1] == DepFields(before);
      U64OfDecimal(last);
      DecimalDigits(last);
      assert before + [last] == deps;
    }
  }

  /** Neither separator is in a printed field. */
  ghost predicate Plain(fields: seq<string>) {
    forall i | 0 <= i < |fields| :: PlainText(fields[i])
  }

  ghost predicate PlainText(s: string) {
    ',' !in s && ':' !in s && '\n' !in s
  }

  lemma PlainDecimal(n: nat)
    ensures PlainText(Decimal(n))
  {
    DecimalDigits(n);
  }

  lemma {:induction false} PlainDeps(deps: seq<U64>)
    ensures Plain(DepFields(deps)) && DepFields(deps) != []
  {
    if deps != [] {
      PlainDeps(deps[..|deps| - 1]);
      PlainDecimal(deps[|deps| - 1]);
    }
  }

  lemma PlainFields(r: Record)
    ensures Plain(Fields(r))
  {
    PlainDecimal(r.seqNum);
    PlainDecimal(OrElse(r.pc, 0));
    PlainDecimal(OrElse(r.weight, 1));
    PlainDecimal(r.compDelay);
    PlainDecimal(OrElse(r.pAddr, 0));
    PlainDecimal(OrElse(r.size, 0));
    PlainDecimal(OrElse(r.flags, 0));
  }

  lemma JoinOfPlain(fields: seq<string>)
    requires Plain(fields) && fields != []
    ensures Split(Join(fields, ','), ',') == fields
    ensures ':' !in Join(fields, ',') && '\n' !in Join(fields, ',')
  {
    forall i | 0 <= i < |fields| ensures ',' !in fields[i] && ':' !in fields[i] && '\n' !in fields[i] {
      assert PlainText(fields[i]);
    }
    SplitOfJoin(fields, ',');
    JoinWithout(fields, ',', ':');
    JoinWithout(fields, ',', '\n');
  }

  /** A text that strip() leaves alone. */
  ghost predicate Tight(s: string) {
    s != "" ==> !IsSpace(s[0]) && !IsSpace(s[|s| - 1])
  }

  lemma {:induction false} TightDeps(deps: seq<U64>)
    ensures var t := Join(DepFields(deps), ',');
            (deps == [] <==> t == "") && Tight(t) && (t != "" ==> t[0] == ',')
  {
    if deps != [] {
      var before, last := deps[..|deps| - 1], deps[|deps| - 1];
      TightDeps(before);
      DepFieldsNonempty(before);
      JoinSnoc(DepFields(before), Decimal(last), ',');
      DecimalDigits(last);
    }
  }

  lemma StartsWithDigit(r: Record)
    ensures var t := Join(Fields(r), ','); t != "" && !IsSpace(t[0])
  {
    var f := Fields(r);
    DecimalDigits(r.seqNum);
    assert f[0] == Decimal(r.seqNum) && |f| > 1;
    assert Join(f, ',') == f[0] + [','] + Join(f[1..], ',');
  }

  lemma ThreeParts(x: string, y: string, z: string)
    requires ':' !in x && ':' !in y && ':' !in z
    requires x != "" && !IsSpace(x[0]) && Tight(z)
    ensures Split(Strip(x + ":" + y + ":" + z + "\n"), ':') == [x, y, z]
  {
    var b := x + ":" + y + ":" + z;
    assert b[|b| - 1] == if z == "" then ':' else z[|z| - 1];
    StripNewline(b);
    assert b == x + [':'] + (y + [':'] + z);
    SplitAfter(x, ':', y + [':'] + z);
    SplitAfter(y, ':', z);
    SplitWithout(z, ':');
  }

  /** The three parts of a printed line, as the reader finds them. */
  lemma LineParts(r: Record)
    ensures Split(Strip(LineText(r)), ':') ==
            [Join(Fields(r), ','), Join(DepFields(r.robDep), ','), Join(DepFields(r.regDep), ',')]
  {
    PlainFields(r);
    JoinOfPlain(Fields(r));
    PlainDeps(r.robDep);
    JoinOfPlain(DepFields(r.robDep));
    PlainDeps(r.regDep);
    JoinOfPlain(DepFields(r.regDep));
    TightDeps(r.regDep);
    StartsWithDigit(r);
    ThreeParts(Join(Fields(r), ','), Join(DepFields(r.robDep), ','), Join(DepFields(r.regDep), ','));
  }

  lemma DepsReadBack(deps: seq<U64>)
    ensures DepsOf(Split(Join(DepFields(deps), ','), ',')) == Ok(deps)
    ensures Strip(Join(DepFields(deps), ',')) == Join(DepFields(deps), ',')
  {
    PlainDeps(deps);
    JoinOfPlain(DepFields(deps));
    DepsOfFields(deps);
    TightDeps(deps);
    StripNothing(Join(DepFields(deps), ','));
  }

  /** Reading a printed line is reading its fields, with the dependencies as they were. */
  lemma LineReadsFields(r: Record)
    ensures var info := ParseInfo(Fields(r));
            ParseLine(LineText(r)) ==
            if info.Fail? then Fail else Ok(info.value.(robDep := r.robDep, regDep := r.regDep))
  {
    LineParts(r);
    PlainFields(r);
    JoinOfPlain(Fields(r));
    DepsReadBack(r.robDep);
    DepsReadBack(r.regDep);
  }

  /** What the text keeps of a record: absent pc and weight get their defaults, the virtual
      address and the address space are not printed. */
  function Normalized(r: Record): Record {
    r.(pc := Some(OrElse(r.pc, 0)), weight := Some(OrElse(r.weight, 1)), vAddr := None, asid := None)
  }

  /** Loads and stores have all three request fields, computations have none. */
  predicate Complete(r: Record) {
    match r.kind
    case INVALID => false
    case COMP => r.pAddr.None? && r.size.None? && r.flags.None?
    case _ => r.pAddr.Some? && r.size.Some? && r.flags.Some?
  }

  lemma HeadReadsBack(r: Record)
    ensures var f := Fields(r);
            |f| >= 5 && ParseU64(f[0]) == Ok(r.seqNum) && ParseU64(f[1]) == Ok(OrElse(r.pc, 0))
            && ParseU32(f[2]) == Ok(OrElse(r.weight, 1)) && KindOf(f[3]) == Ok(r.kind)
  {
    U64OfDecimal(r.seqNum);
    U64OfDecimal(OrElse(r.pc, 0));
    U32OfDecimal(OrElse(r.weight, 1));
  }

  lemma RequestReadsBack(r: Record)
    requires r.pAddr.Some? && r.size.Some? && r.flags.Some?
    ensures var f := Fields(r);
            |f| == 8 && ParseU64(f[4]) == Ok(r.pAddr.value) && ParseU32(f[5]) == Ok(r.size.value)
            && ParseU32(f[6]) == Ok(r.flags.value) && ParseU64(f[7]) == Ok(r.compDelay)
  {
    U64OfDecimal(r.pAddr.value);
    U32OfDecimal(r.size.value);
    U32OfDecimal(r.flags.value);
    U64OfDecimal(r.compDelay);
  }

  lemma FieldsReadBackIff(r: Record)
    ensures var info := ParseInfo(Fields(r));
            (info.Ok? && info.value.(robDep := r.robDep, regDep := r.regDep) == Normalized(r)) <==> Complete(r)
  {
    HeadReadsBack(r);
    if r.pAddr.Some? && r.size.Some? && r.flags.Some? {
      RequestReadsBack(r);
    }
    if r.pAddr.None? && r.size.None? && r.flags.None? {
      U64OfDecimal(r.compDelay);
      assert Fields(r)[4] == Decimal(r.compDelay);
    }
  }

  /** A printed record is read back, with its defaults filled in, exactly when it is complete. */
  lemma RoundTripIff(r: Record)
    ensures ParseLine(LineText(r)) == Ok(Normalized(r)) <==> Complete(r)
  {
    LineReadsFields(r);
    FieldsReadBackIff(r);
  }

  /** A computation with a request field is read without complaint, but its first request field
      is taken for the delay. */
  lemma RequestTakenForDelay(r: Record)
    requires r.kind.COMP? && r.pAddr.Some?
    ensures ParseLine(LineText(r)).Ok? && ParseLine(LineText(r)).value.compDelay == r.pAddr.value
  {
    LineReadsFields(r);
    HeadReadsBack(r);
    U64OfDecimal(r.pAddr.value);
    assert Fields(r)[4] == Decimal(r.pAddr.value);
  }

  // ---------- whole traces ----------

  /** The lines of a text file, each with its newline. */
  function Lines(s: string): (r: seq<string>)
    ensures s != "" ==> r != []
  {
    if s == "" then []
    else
      var r := Lines(s[1..]);
      if s[0] == '\n' || r == [] then [[s[0]]] + r else [[s[0]] + r[0]] + r[1..]
  }

  lemma {:induction false} LinesAfter(p: string, s: string)
    requires '\n' !in p
    ensures Lines(p + "\n" + s) == [p + "\n"] + Lines(s)
  {
    var t := p + "\n" + s;
    if p == "" {
      assert t[1..] == s && [t[0]] == p + "\n";
    } else {
      assert t[1..] == p[1..] + "\n" + s;
      LinesAfter(p[1..], s);
      assert [p[0]] + (p[1..] + "\n") == p + "\n";
    }
  }

  function TextOf(rs: seq<Record>): string {
    if rs == [] then "" else TextOf(rs[..|rs| - 1]) + LineText(rs[|rs| - 1])
  }

  method Decode(rs: seq<Record>) returns (text: string)
    ensures text == TextOf(rs)
  {
    text := "";
    for i := 0 to |rs|
      invariant text == TextOf(rs[..i])
    {
      assert rs[..i + 1][..i] == rs[..i];
      var line := PrintRecord(rs[i]);
      text := text + line;
    }
    assert rs[..|rs|] == rs;
  }

  function RecordsOf(lines: seq<string>): Result<seq<Record>> {
    if lines == [] then Ok([])
    else
      var r :- ParseLine(lines[0]);
      var rest :- RecordsOf(lines[1..]);
      Ok([r] + rest)
  }

  function Prepend(records: seq<Record>, rest: Result<seq<Record>>): Result<seq<Record>> {
    if rest.Fail? then Fail else Ok(records + rest.value)
  }

  lemma PrependStep(records: seq<Record>, one: Result<Record>, rest: Result<seq<Record>>, here: Result<seq<Record>>)
    requires here == if one.Ok? && rest.Ok? then Ok([one.value] + rest.value) else Fail
    ensures Prepend(records, here) == if one.Ok? then Prepend(records + [one.value], rest) else Fail
  {
    if one.Ok? && rest.Ok? {
      assert records + ([one.value] + rest.value) == records + [one.value] + rest.value;
    }
  }

  lemma ConversionStep(whole: Result<seq<Record>>, records: seq<Record>, one: Result<Record>,
                       line: string, lines: seq<string>)
    requires whole == Prepend(records, RecordsOf([line] + lines)) && one == ParseLine(line)
    ensures whole == if one.Ok? then Prepend(records + [one.value], RecordsOf(lines)) else Fail
  {
    RecordsOfCons(line, lines);
    PrependStep(records, one, RecordsOf(lines), RecordsOf([line] + lines));
  }

  /** Conversion stops at the first line that cannot be read. */
  method Encode(lines: seq<string>) returns (r: Result<seq<Record>>)
    ensures r == RecordsOf(lines)
  {
    var records: seq<Record> := [];
    ghost var whole := RecordsOf(lines);
    assert lines[0..] == lines && (whole.Ok? ==> [] + whole.value == whole.value);
    for i := 0 to |lines|
      invariant whole == Prepend(records, RecordsOf(lines[i..]))
    {
      var one := ParseRecord(lines[i]);
      assert lines[i..] == [lines[i]] + lines[i + 1..];
      ConversionStep(whole, records, one, lines[i], lines[i + 1..]);
      if one.Fail? {
        return Fail;
      }
      records := records + [one.value];
    }
    assert lines[|lines|..] == [] && records + [] == records;
    r := Ok(records);
  }

  function AllNormalized(rs: seq<Record>): seq<Record> {
    if rs == [] then [] else [Normalized(rs[0])] + AllNormalized(rs[1..])
  }

  lemma {:induction false} TextCons(rs: seq<Record>)
    requires rs != []
    ensures TextOf(rs) == LineText(rs[0]) + TextOf(rs[1..])
  {
    var n := |rs|;
    if n > 1 {
      TextCons(rs[..n - 1]);
      assert rs[..n - 1][1..] == rs[1..][..n - 2];
    } else {
      assert TextOf(rs[..0]) == "";
      assert TextOf(rs[1..]) == "";
    }
  }

  lemma FirstLine(r: Record, s: string)
    ensures Lines(LineText(r) + s) == [LineText(r)] + Lines(s)
  {
    PlainFields(r);
    JoinOfPlain(Fields(r));
    PlainDeps(r.robDep);
    JoinOfPlain(DepFields(r.robDep));
    PlainDeps(r.regDep);
    JoinOfPlain(DepFields(r.regDep));
    var body := Join(Fields(r), ',') + ":" + Join(DepFields(r.robDep), ',') + ":" + Join(DepFields(r.regDep), ',');
    assert LineText(r) == body + "\n";
    LinesAfter(body, s);
  }

  lemma OneRecordMore(one: Result<Record>, rest: Result<seq<Record>>, x: Record, xs: seq<Record>)
    ensures (one.Ok? && rest.Ok? && [one.value] + rest.value == [x] + xs) <==> (one == Ok(x) && rest == Ok(xs))
  {
    if one.Ok? && rest.Ok? {
      assert ([one.value] + rest.value)[0] == one.value && ([one.value] + rest.value)[1..] == rest.value;
      assert ([x] + xs)[0] == x && ([x] + xs)[1..] == xs;
    }
  }

  lemma RecordsOfCons(line: string, lines: seq<string>)
    ensures var one, rest := ParseLine(line), RecordsOf(lines);
            RecordsOf([line] + lines) == if one.Ok? && rest.Ok? then Ok([one.value] + rest.value) else Fail
  {
    assert ([line] + lines)[1..] == lines;
  }

  ghost predicate AllComplete(rs: seq<Record>) {
    forall i | 0 <= i < |rs| :: Complete(rs[i])
  }

  lemma AllCompleteCons(rs: seq<Record>)
    requires rs != []
    ensures AllComplete(rs) <==> Complete(rs[0]) && AllComplete(rs[1..])
  {
  }

  /** A whole trace survives printing and reading exactly when all its records are complete. */
  lemma {:induction false} TraceRoundTripIff(rs: seq<Record>)
    ensures RecordsOf(Lines(TextOf(rs))) == Ok(AllNormalized(rs)) <==> AllComplete(rs)
  {
    if rs != [] {
      var r, tail := rs[0], rs[1..];
      TraceRoundTripIff(tail);
      TextCons(rs);
      FirstLine(r, TextOf(tail));
      RoundTripIff(r);
      RecordsOfCons(LineText(r), Lines(TextOf(tail)));
      OneRecordMore(ParseLine(LineText(r)), RecordsOf(Lines(TextOf(tail))), Normalized(r), AllNormalized(tail));
      AllCompleteCons(rs);
    }
  }
}

/** Python's text operations that the trace tools use: split, join, strip and decimal numbers. */
module PyStr {

  datatype Result<T> = Ok(value: T) | Fail {
    predicate IsFailure() { Fail? }
    function PropagateFailure<U>(): Result<U>
      requires IsFailure()
    { Fail }
    function Extract(): T
      requires !IsFailure()
    { value }
  }

  // ---------- split and join ----------

  function Split(s: string, c: char): (r: seq<string>)
    ensures r != []
  {
    if s == "" then [""]
    else
      var r := Split(s[1..], c);
      if s[0] == c then [""] + r else [[s[0]] + r[0]] + r[1..]
  }

  function Join(parts: seq<string>, c: char): string {
    if parts == [] then ""
    else if |parts| == 1 then parts[0]
    else parts[0] + [c] + Join(parts[1..], c)
  }

  ghost predicate Without(parts: seq<string>, c: char) {
    forall i | 0 <= i < |parts| :: c !in parts[i]
  }

  lemma {:induction false} SplitAfter(p: string, c: char, s: string)
    requires c !in p
    ensures Split(p + [c] + s, c) == [p] + Split(s, c)
  {
    var t := p + [c] + s;
    if p == "" {
      assert t[1..] == s;
    } else {
      assert t[1..] == p[1..] + [c] + s;
      SplitAfter(p[1..], c, s);
      assert [p[0]] + p[1..] == p;
    }
  }

  lemma {:induction false} SplitWithout(p: string, c: char)
    requires c !in p
    ensures Split(p, c) == [p]
  {
    if p != "" {
      SplitWithout(p[1..], c);
      assert [p[0]] + p[1..] == p;
    }
  }

  /** Splitting undoes joining when no part holds the separator. */
  lemma {:induction false} SplitOfJoin(parts: seq<string>, c: char)
    requires parts != [] && Without(parts, c)
    ensures Split(Join(parts, c), c) == parts
  {
    if |parts| == 1 {
      SplitWithout(parts[0], c);
    } else {
      SplitOfJoin(parts[1..], c);
      SplitAfter(parts[0], c, Join(parts[1..], c));
    }
  }

  lemma {:induction false} JoinSnoc(parts: seq<string>, x: string, c: char)
    requires parts != []
    ensures Join(parts + [x], c) == Join(parts, c) + [c] + x
  {
    if |parts| > 1 {
      JoinSnoc(parts[1..], x, c);
      assert (parts + [x])[1..] == parts[1..] + [x];
    } else {
      assert (parts + [x])[1..] == [x];
    }
  }

  /** A character that is in no part and is not the separator is not in the joined text. */
  lemma {:induction false} JoinWithout(parts: seq<string>, c: char, d: char)
    requires Without(parts, d) && c != d
    ensures d !in Join(parts, c)
  {
    if |parts| > 1 {
      JoinWithout(parts[1..], c, d);
    }
  }

  // ---------- strip ----------

  predicate IsSpace(c: char) {
    var i := c as int;
    || 9 <= i <= 13 || 28 <= i <= 32 || i == 133 || i == 160 || i == 0x1680 || 0x2000 <= i <= 0x200a
    || i == 0x2028 || i == 0x2029 || i == 0x202f || i == 0x205f || i == 0x3000
  }

  function LeftStrip(s: string): string {
    if s != "" && IsSpace(s[0]) then LeftStrip(s[1..]) else s
  }

  function RightStrip(s: string): string {
    if s != "" && IsSpace(s[|s| - 1]) then RightStrip(s[..|s| - 1]) else s
  }

  function Strip(s: string): string {
    RightStrip(LeftStrip(s))
  }

  lemma StripNothing(s: string)
    requires s != "" ==> !IsSpace(s[0]) && !IsSpace(s[|s| - 1])
    ensures Strip(s) == s
  {
  }

  lemma StripNewline(s: string)
    requires s != "" && !IsSpace(s[0]) && !IsSpace(s[|s| - 1])
    ensures Strip(s + "\n") == s
  {
    var t := s + "\n";
    assert t[|t| - 1] == '\n' && t[..|t| - 1] == s;
    assert LeftStrip(t) == t && IsSpace('\n');
    assert RightStrip(t) == RightStrip(s) == s;
  }

  // ---------- decimal numbers ----------

  function Digit(d: nat): char
    requires d < 10
  {
    ('0' as int + d) as char
  }

  predicate IsDigit(c: char) {
    '0' <= c <= '9'
  }

  function Decimal(n: nat): string {
    if n < 10 then [Digit(n)] else Decimal(n / 10) + [Digit(n % 10)]
  }

  /** Digits, with single underscores between them. */
  function ParseDigits(s: string): Result<nat> {
    if s == "" || !IsDigit(s[|s| - 1]) then Fail
    else
      var d := s[|s| - 1] as int - '0' as int;
      if |s| == 1 then Ok(d)
      else
        var rest := if s[|s| - 2] == '_' then s[..|s| - 2] else s[..|s| - 1];
        var high :- ParseDigits(rest);
        Ok(10 * high + d)
  }

  /** The int() of a text. */
  function ParseInt(s: string): Result<int> {
    var t := Strip(s);
    if t == "" then Fail
    else if t[0] == '-' then var n :- ParseDigits(t[1..]); Ok(0 - n)
    else if t[0] == '+' then var n :- ParseDigits(t[1..]); Ok(n)
    else var n :- ParseDigits(t); Ok(n)
  }

  lemma {:induction false} DecimalDigits(n: nat)
    ensures Decimal(n) != "" && forall i | 0 <= i < |Decimal(n)| :: IsDigit(Decimal(n)[i])
  {
    if n >= 10 {
      DecimalDigits(n / 10);
    }
  }

  lemma {:induction false} DigitsOfDecimal(n: nat)
    ensures ParseDigits(Decimal(n)) == Ok(n)
  {
    var s := Decimal(n);
    if n >= 10 {
      DecimalDigits(n / 10);
      DigitsOfDecimal(n / 10);
      assert s[..|s| - 1] == Decimal(n / 10);
      assert IsDigit(s[|s| - 2]);
    }
  }

  /** Reading a printed number gives the number. */
  lemma IntOfDecimal(n: nat)
    ensures ParseInt(Decimal(n)) == Ok(n)
  {
    DecimalDigits(n);
    DigitsOfDecimal(n);
    StripNothing(Decimal(n));
  }
}

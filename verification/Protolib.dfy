/** Length-prefixed messages: the 32-bit varint of the trace files, and the frames built with it. */
module Protolib {
  import opened PyInt
  import Arith

  type Byte = b: int | 0 <= b < 256

  // ---------- encoding ----------

  function Varint(v: nat): seq<Byte> {
    if v < 128 then [v] else [128 + v % 128] + Varint(v / 128)
  }

  lemma SevenBits(x: int)
    ensures And(x, 0x7f) == x % 128 && Shr(x, 7) == x / 128
    ensures 0 <= x < 128 ==> Or(0x80, x) == 128 + x
    ensures And(x, 0x80) == 128 * ((x / 128) % 2)
  {
    assert Pow2(7) == 128;
    AndOnes(x, 7);
    AndBit(x, 7);
    if 0 <= x < 128 {
      OrIsSumHighFirst(x, 1, 7);
    }
  }

  ghost predicate Encoding(value: nat, out: seq<Byte>, bits: int, v: int) {
    0 <= bits < 128 && 0 <= v && out + Varint(bits + 128 * v) == Varint(value)
  }

  lemma EncodingStarts(value: nat)
    ensures Encoding(value, [], And(value, 0x7f), Shr(value, 7))
  {
    SevenBits(value);
    assert value == value % 128 + 128 * (value / 128);
  }

  lemma EncodingStep(value: nat, out: seq<Byte>, bits: int, v: int)
    requires Encoding(value, out, bits, v) && v != 0
    ensures Encoding(value, out + [128 + bits], v % 128, v / 128)
  {
    Arith.DivModUnique(bits + 128 * v, 128, v, bits);
    assert v == v % 128 + 128 * (v / 128);
    assert out + ([128 + bits] + Varint(v)) == out + [128 + bits] + Varint(v);
  }

  /** The bytes written to the file. */
  method EncodeVarint32(value: nat) returns (out: seq<Byte>)
    ensures out == Varint(value)
  {
    out := [];
    EncodingStarts(value);
    var bits, v := And(value, 0x7f), Shr(value, 7);
    while v != 0
      invariant Encoding(value, out, bits, v)
      decreases v
    {
      EncodingStep(value, out, bits, v);
      SevenBits(bits);
      SevenBits(v);
      out := out + [Or(0x80, bits)];
      bits, v := And(v, 0x7f), Shr(v, 7);
    }
    out := out + [bits];
  }

  // ---------- decoding ----------

  /** What the bytes stand for: seven bits each, lowest first. */
  function Payload(s: seq<Byte>): nat {
    if s == [] then 0 else s[0] % 128 + 128 * Payload(s[1..])
  }

  /** How many bytes ask for another one before the first that does not. */
  function Run(s: seq<Byte>): (n: nat)
    ensures n <= |s| && (n < |s| ==> s[n] < 128) && forall j | 0 <= j < n :: s[j] >= 128
  {
    if s == [] || s[0] < 128 then 0 else 1 + Run(s[1..])
  }

  /** The value kept of an integer: its low 32 bits, with the sign of a 64-bit number. */
  function Truncated(u: int): int {
    if u < 0x8000_0000_0000_0000 then u % 0x1_0000_0000 else u % 0x1_0000_0000 - 0x1_0000_0000
  }

  datatype Size = TooMany | Size(size: int, pos: nat)

  /** The end of the file gives (0, 0); ten bytes that all ask for another one are an error. */
  function ReadSize(s: seq<Byte>): Size {
    var n := Run(s);
    if n >= 10 then TooMany
    else if n == |s| then Size(0, 0)
    else Size(Truncated(Payload(s[..n + 1])), n + 1)
  }

  class InFile {
    const data: seq<Byte>
    var pos: nat

    ghost predicate Valid()
      reads this
    {
      pos <= |data|
    }

    ghost function Rest(): seq<Byte>
      requires Valid()
      reads this
    {
      data[pos..]
    }

    constructor (data: seq<Byte>)
      ensures Valid() && Rest() == data && this.data == data
    {
      this.data, pos := data, 0;
    }

    /** A negative count reads all that is left. */
    method Read(n: int) returns (buf: seq<Byte>)
      requires Valid()
      modifies this
      ensures Valid() && buf == ReadUpTo(old(Rest()), n) && Rest() == old(Rest())[|buf|..]
    {
      var stop := if n < 0 || n > |data| - pos then |data| else pos + n;
      buf := data[pos..stop];
      pos := stop;
    }
  }

  function ReadUpTo(s: seq<Byte>, n: int): seq<Byte> {
    if n < 0 || n > |s| then s else s[..n]
  }

  lemma {:induction false} PayloadSnoc(s: seq<Byte>, b: Byte)
    ensures Payload(s + [b]) == Payload(s) + (b % 128) * Pow2(7 * |s|)
  {
    if s == [] {
      assert s + [b] == [b];
      assert Payload([b]) == b % 128 + 128 * Payload([]);
    } else {
      assert (s + [b])[1..] == s[1..] + [b];
      PayloadSnoc(s[1..], b);
      PowersSum(7, 7 * |s[1..]|);
      Arith128(b % 128, Pow2(7 * |s[1..]|));
    }
  }

  lemma Arith128(b: int, p: int)
    ensures 128 * (b * p) == b * (128 * p)
  {
  }

  lemma {:induction false} PayloadBound(s: seq<Byte>)
    ensures Payload(s) < Pow2(7 * |s|)
  {
    if s != [] {
      PayloadBound(s[1..]);
      PowersSum(7, 7 * |s[1..]|);
    }
  }

  lemma {:induction false} RunIs(s: seq<Byte>, n: nat)
    requires n <= |s| && (n < |s| ==> s[n] < 128) && forall j | 0 <= j < n :: s[j] >= 128
    ensures Run(s) == n
  {
  }

  lemma {:induction false} RunIsLong(s: seq<Byte>, n: nat)
    requires n <= |s| && forall j | 0 <= j < n :: s[j] >= 128
    ensures Run(s) >= n
  {
  }

  lemma TruncatedByMask(u: int)
    ensures u <= 0x7fffffffffffffff ==> And(u, 0xffffffff) == Truncated(u)
    ensures u > 0x7fffffffffffffff ==> Or(u - Shl(1, 64), Not(0xffffffff)) == Truncated(u)
  {
    WordSizes();
    AndOnes(u, 32);
    OrHighOnes(u - Shl(1, 64), 32);
    Arith.DivModUnique(u - Shl(1, 64), 0x1_0000_0000, u / 0x1_0000_0000 - 0x1_0000_0000, u % 0x1_0000_0000);
  }

  /** One more byte: the or of the shifted seven bits is the payload of the longer prefix. */
  lemma OneMoreByte(s: seq<Byte>, b: Byte)
    ensures Or(Payload(s), Shl(And(b, 0x7f), 7 * |s|)) == Payload(s + [b])
  {
    SevenBits(b);
    PayloadBound(s);
    PayloadSnoc(s, b);
    OrIsSum(Payload(s), b % 128, 7 * |s|);
  }

  /** The loop after pos bytes, all of which ask for another one. */
  ghost predicate Decoding(s: seq<Byte>, pos: nat, result: int, shift: int) {
    && pos <= |s| && pos < 10 && shift == 7 * pos && result == Payload(s[..pos])
    && forall j | 0 <= j < pos :: s[j] >= 128
  }

  lemma NextByte(s: seq<Byte>, pos: nat, result: int, shift: int, b: Byte)
    requires Decoding(s, pos, result, shift) && pos < |s| && b == s[pos]
    ensures Or(result, Shl(And(b, 0x7f), shift)) == Payload(s[..pos + 1])
  {
    assert s[..pos + 1] == s[..pos] + [b];
    OneMoreByte(s[..pos], b);
  }

  lemma HighBitOf(b: Byte, m: int)
    requires m == 128 * ((b / 128) % 2)
    ensures m == 0 <==> b < 128
  {
  }

  lemma HighBit(b: Byte)
    ensures And(b, 0x80) == 0 <==> b < 128
  {
    SevenBits(b);
    HighBitOf(b, And(b, 0x80));
  }

  lemma DecodingStep(s: seq<Byte>, pos: nat, result: int, shift: int)
    requires Decoding(s, pos, result, shift) && pos < |s|
    ensures s[pos] < 128 ==> ReadSize(s) == Size(Truncated(Payload(s[..pos + 1])), pos + 1)
    ensures s[pos] >= 128 && shift + 7 >= 64 ==> ReadSize(s) == TooMany
    ensures s[pos] >= 128 && shift + 7 < 64 ==> Decoding(s, pos + 1, Payload(s[..pos + 1]), shift + 7)
  {
    if s[pos] < 128 {
      RunIs(s, pos);
    } else {
      RunIsLong(s, pos + 1);
    }
  }

  method DecodeVarint32(f: InFile) returns (r: Size)
    requires f.Valid()
    modifies f
    ensures f.Valid() && r == ReadSize(old(f.Rest()))
    ensures r.Size? && r.pos > 0 ==> r.pos <= |old(f.Rest())| && f.Rest() == old(f.Rest())[r.pos..]
  {
    ghost var s := f.Rest();
    var result, shift, pos := 0, 0, 0;
    while true
      invariant f.Valid() && Decoding(s, pos, result, shift) && f.Rest() == s[pos..]
      decreases 10 - pos
    {
      var c := f.Read(1);
      if |c| == 0 {
        RunIs(s, pos);
        return Size(0, 0);
      }
      var b := c[0];
      var more := Or(result, Shl(And(b, 0x7f), shift));
      NextByte(s, pos, result, shift, b);
      HighBit(b);
      DecodingStep(s, pos, result, shift);
      result, pos := more, pos + 1;
      if And(b, 0x80) == 0 {
        TruncatedByMask(result);
        if result > 0x7fffffffffffffff {
          result := Or(result - Shl(1, 64), Not(0xffffffff));
        } else {
          result := And(result, 0xffffffff);
        }
        return Size(result, pos);
      }
      shift := shift + 7;
      if shift >= 64 {
        return TooMany;
      }
    }
  }

  // ---------- one length, written and read ----------

  /** All bytes of a varint but the last ask for another one, and together they are the value. */
  lemma {:induction false} VarintShape(v: nat, rest: seq<Byte>)
    ensures Run(Varint(v) + rest) == |Varint(v)| - 1
    ensures Payload(Varint(v)) == v
  {
    var s := Varint(v) + rest;
    if v >= 128 {
      VarintShape(v / 128, rest);
      assert s[1..] == Varint(v / 128) + rest;
      assert Varint(v)[1..] == Varint(v / 128);
      Arith.DivModUnique(128 + v % 128, 128, 1, v % 128);
    }
  }

  lemma {:induction false} VarintLength(v: nat, n: nat)
    ensures |Varint(v)| <= n + 1 <==> v < Pow2(7 * (n + 1))
    decreases n
  {
    PowersSum(7, 7 * n);
    assert Pow2(7) == 128;
    if n == 0 {
      assert Pow2(0) == 1;
    } else if v < 128 {
      PowersGrow(7, 7 * (n + 1));
    } else {
      VarintLength(v / 128, n - 1);
      SmallerBy128(v, Pow2(7 * n));
    }
  }

  lemma SmallerBy128(v: nat, p: nat)
    ensures v < 128 * p <==> v / 128 < p
  {
  }

  lemma TenBytes(v: nat)
    ensures |Varint(v)| <= 10 <==> v < 0x40_0000_0000_0000_0000
  {
    WordSizes();
    VarintLength(v, 9);
  }

  /** A written length reads back with its low 32 bits: up to 2^63 as they are, up to 2^70 with
      the sign extended, and beyond that not at all. */
  lemma SizeAfterWrite(v: nat, rest: seq<Byte>)
    ensures v < 0x40_0000_0000_0000_0000 ==> ReadSize(Varint(v) + rest) == Size(Truncated(v), |Varint(v)|)
    ensures v >= 0x40_0000_0000_0000_0000 ==> ReadSize(Varint(v) + rest) == TooMany
  {
    var s := Varint(v) + rest;
    VarintShape(v, rest);
    TenBytes(v);
    assert s[..|Varint(v)|] == Varint(v);
  }

  /** So a length comes back as written exactly when it fits in 32 bits. */
  lemma SizeRoundTripIff(v: nat, rest: seq<Byte>)
    ensures ReadSize(Varint(v) + rest) == Size(v, |Varint(v)|) <==> v < 0x1_0000_0000
  {
    SizeAfterWrite(v, rest);
    TruncatedIff(v);
  }

  lemma TruncatedIff(v: nat)
    ensures Truncated(v) == v <==> v < 0x1_0000_0000
  {
  }

  /** No varint is the beginning of another. */
  lemma PrefixFree(v: nat, w: nat)
    requires Varint(v) <= Varint(w)
    ensures v == w
  {
    var rest := Varint(w)[|Varint(v)|..];
    assert Varint(w) == Varint(v) + rest;
    VarintShape(v, rest);
    VarintShape(w, []);
    assert Varint(w) + [] == Varint(w);
  }

  /** The other way round: the bytes of a length are the canonical ones exactly when the last
      byte is not a needless zero. */
  lemma {:induction false} CanonicalIff(s: seq<Byte>)
    requires s != [] && Run(s) == |s| - 1
    ensures Varint(Payload(s)) == s <==> |s| == 1 || s[|s| - 1] != 0
    ensures |s| > 1 && s[|s| - 1] != 0 ==> Payload(s) >= 128
  {
    if |s| > 1 {
      var t := s[1..];
      assert Run(t) == |t| - 1;
      CanonicalIff(t);
      PayloadOfHead(s);
      assert s == [s[0]] + t;
      assert t[|t| - 1] == s[|s| - 1];
      if |t| == 1 {
        assert Payload(t) == t[0] % 128 + 128 * Payload(t[1..]);
      }
    } else {
      assert Payload(s) == s[0] % 128 + 128 * Payload(s[1..]);
    }
  }

  lemma PayloadOfHead(s: seq<Byte>)
    requires |s| > 1 && s[0] >= 128
    ensures Payload(s) / 128 == Payload(s[1..]) && Payload(s) % 128 == s[0] - 128
  {
    Arith.DivModUnique(s[0], 128, 1, s[0] - 128);
    Arith.DivModUnique(Payload(s), 128, Payload(s[1..]), s[0] - 128);
  }

  // ---------- messages ----------

  datatype Next = Nothing | Message(buf: seq<Byte>, rest: seq<Byte>)

  /** A length of zero, the end of the file and an overlong length all mean: no message. */
  function NextMessage(s: seq<Byte>): (r: Next)
    ensures r.Message? ==> |r.rest| < |s|
  {
    match ReadSize(s)
    case TooMany => Nothing
    case Size(size, pos) =>
      if size == 0 then Nothing
      else var buf := ReadUpTo(s[pos..], size); Message(buf, s[pos + |buf|..])
  }

  method DecodeMessage(f: InFile) returns (r: Next)
    requires f.Valid()
    modifies f
    ensures f.Valid() && r == NextMessage(old(f.Rest()))
    ensures r.Message? ==> f.Rest() == r.rest
  {
    var size := DecodeVarint32(f);
    if size.TooMany? || size.size == 0 {
      return Nothing;
    }
    var buf := f.Read(size.size);
    r := Message(buf, f.data[f.pos..]);
  }

  /** All messages of a file, as the reading loops of the scripts see them. */
  function ReadAll(s: seq<Byte>): seq<seq<Byte>>
    decreases |s|
  {
    var next := NextMessage(s);
    if next.Nothing? then [] else [next.buf] + ReadAll(next.rest)
  }

  function Frame(m: seq<Byte>): seq<Byte> {
    Varint(|m|) + m
  }

  function Frames(ms: seq<seq<Byte>>): seq<Byte> {
    if ms == [] then [] else Frame(ms[0]) + Frames(ms[1..])
  }

  method EncodeMessage(m: seq<Byte>) returns (out: seq<Byte>)
    ensures out == Frame(m)
  {
    out := EncodeVarint32(|m|);
    out := out + m;
  }

  /** A message that can be told from the end of the file and whose length survives. */
  predicate Framed(m: seq<Byte>) {
    0 < |m| < 0x1_0000_0000
  }

  lemma ReadsFramed(m: seq<Byte>, rest: seq<Byte>)
    requires Framed(m)
    ensures NextMessage(Frame(m) + rest) == Message(m, rest)
  {
    var v, s := Varint(|m|), Frame(m) + rest;
    assert s == v + (m + rest);
    SizeRoundTripIff(|m|, m + rest);
    assert s[|v|..] == m + rest;
    assert s[|v| + |m|..] == rest;
    assert (m + rest)[..|m|] == m;
  }

  /** A message that is empty or longer than 32 bits can say is not read back. */
  lemma LosesUnframed(m: seq<Byte>, rest: seq<Byte>)
    requires !Framed(m) && |m| < 0x8000_0000_0000_0000
    ensures var next := NextMessage(Frame(m) + rest); next.Nothing? || next.buf != m
  {
    var v, s := Varint(|m|), Frame(m) + rest;
    assert s == v + (m + rest);
    SizeAfterWrite(|m|, m + rest);
    assert s[|v|..] == m + rest;
    if m != [] {
      LowBitsSmaller(|m|);
    }
  }

  lemma LowBitsSmaller(n: nat)
    requires 0x1_0000_0000 <= n
    ensures 0 <= n % 0x1_0000_0000 < n
  {
  }

  lemma ReadAllFramed(m: seq<Byte>, rest: seq<Byte>)
    requires Framed(m)
    ensures ReadAll(Frame(m) + rest) == [m] + ReadAll(rest)
  {
    ReadsFramed(m, rest);
  }

  lemma ReadAllUnframed(m: seq<Byte>, rest: seq<Byte>, ms: seq<seq<Byte>>)
    requires !Framed(m) && |m| < 0x8000_0000_0000_0000
    ensures ReadAll(Frame(m) + rest) != [m] + ms
  {
    LosesUnframed(m, rest);
    StartsOtherwise(Frame(m) + rest, m, ms);
  }

  lemma StartsOtherwise(s: seq<Byte>, m: seq<Byte>, ms: seq<seq<Byte>>)
    requires var next := NextMessage(s); next.Nothing? || next.buf != m
    ensures ReadAll(s) != [m] + ms
  {
    var next := NextMessage(s);
    if next.Message? {
      assert ReadAll(s)[0] == next.buf;
      assert ([m] + ms)[0] == m;
    } else {
      assert |ReadAll(s)| == 0;
    }
  }

  lemma SameTail(m: seq<Byte>, a: seq<seq<Byte>>, b: seq<seq<Byte>>)
    ensures [m] + a == [m] + b <==> a == b
  {
    assert ([m] + a)[1..] == a && ([m] + b)[1..] == b;
  }

  predicate AllFramed(ms: seq<seq<Byte>>) {
    forall i | 0 <= i < |ms| :: Framed(ms[i])
  }

  lemma AllFramedCons(ms: seq<seq<Byte>>)
    requires ms != []
    ensures AllFramed(ms) <==> Framed(ms[0]) && AllFramed(ms[1..])
  {
  }

  /** A file of messages reads back exactly when every message is framed. (No Python object is
      longer than 2^63 bytes.) */
  lemma {:induction false} FileRoundTripIff(ms: seq<seq<Byte>>)
    requires forall i | 0 <= i < |ms| :: |ms[i]| < 0x8000_0000_0000_0000
    ensures ReadAll(Frames(ms)) == ms <==> AllFramed(ms)
  {
    if ms != [] {
      var m, tail := ms[0], ms[1..];
      FileRoundTripIff(tail);
      AllFramedCons(ms);
      assert ms == [m] + tail;
      if Framed(m) {
        ReadAllFramed(m, Frames(tail));
        SameTail(m, ReadAll(Frames(tail)), tail);
      } else {
        ReadAllUnframed(m, Frames(tail), tail);
      }
    }
  }

  /** An empty message ends the file for the reader: what comes after it is lost. */
  lemma {:induction false} EmptyMessageEndsFile(ms: seq<seq<Byte>>, after: seq<Byte>)
    requires AllFramed(ms)
    ensures ReadAll(Frames(ms) + Frame([]) + after) == ms
  {
    var s := Frames(ms) + Frame([]) + after;
    if ms == [] {
      assert s == Varint(0) + after;
      SizeAfterWrite(0, after);
    } else {
      var m, rest := ms[0], Frames(ms[1..]) + Frame([]) + after;
      EmptyMessageEndsFile(ms[1..], after);
      assert s == Frame(m) + rest;
      ReadAllFramed(m, rest);
      assert ms == [m] + ms[1..];
    }
  }

  /** What is read of a file that was cut short: the first k messages, and perhaps a part of
      the next. */
  ghost predicate CutAt(ms: seq<seq<Byte>>, read: seq<seq<Byte>>, k: nat, part: seq<seq<Byte>>) {
    && k <= |ms| && read == ms[..k] + part
    && (part == [] || (k < |ms| && |part| == 1 && part[0] < ms[k]))
  }

  lemma CutAtCons(m: seq<Byte>, ms: seq<seq<Byte>>, read: seq<seq<Byte>>, k: nat, part: seq<seq<Byte>>)
    requires CutAt(ms, read, k, part)
    ensures CutAt([m] + ms, [m] + read, k + 1, part)
  {
    assert ([m] + ms)[..k + 1] == [m] + ms[..k];
  }

  /** A file cut short anywhere gives its first messages, and at most one that is cut short. */
  lemma {:induction false} CutFile(ms: seq<seq<Byte>>, cut: nat) returns (k: nat, part: seq<seq<Byte>>)
    requires AllFramed(ms) && cut <= |Frames(ms)|
    ensures CutAt(ms, ReadAll(Frames(ms)[..cut]), k, part)
  {
    if ms == [] {
      k, part := 0, [];
    } else {
      var m, tail := ms[0], ms[1..];
      var f, rest := Frame(m), Frames(tail);
      assert Framed(m) && ms == [m] + tail;
      if cut < |f| {
        CutFrame(m, cut);
        assert (f + rest)[..cut] == f[..cut];
        k, part := 0, ReadAll(f[..cut]);
      } else {
        k, part := CutFile(tail, cut - |f|);
        assert (f + rest)[..cut] == f + rest[..cut - |f|];
        ReadAllFramed(m, rest[..cut - |f|]);
        CutAtCons(m, tail, ReadAll(rest[..cut - |f|]), k, part);
        k := k + 1;
      }
    }
  }

  lemma CutFrame(m: seq<Byte>, cut: nat)
    requires Framed(m) && cut < |Frame(m)|
    ensures var r := ReadAll(Frame(m)[..cut]); r == [] || (|r| == 1 && r[0] < m)
  {
    var v := Varint(|m|);
    if cut < |v| {
      assert Frame(m)[..cut] == v[..cut];
      CutInLength(|m|, cut);
    } else {
      assert Frame(m)[..cut] == v + m[..cut - |v|];
      CutInBody(m, cut - |v|);
    }
  }

  lemma CutInLength(v: nat, cut: nat)
    requires v < 0x1_0000_0000 && cut < |Varint(v)|
    ensures ReadAll(Varint(v)[..cut]) == []
  {
    VarintShape(v, []);
    assert Varint(v) + [] == Varint(v);
    TenBytes(v);
    RunIs(Varint(v)[..cut], cut);
  }

  lemma CutInBody(m: seq<Byte>, n: nat)
    requires Framed(m) && n < |m|
    ensures ReadAll(Varint(|m|) + m[..n]) == [m[..n]]
  {
    var v := Varint(|m|);
    var s := v + m[..n];
    SizeRoundTripIff(|m|, m[..n]);
    assert s[|v|..] == m[..n];
    assert s[|v| + n..] == [];
    assert ReadAll([]) == [];
  }
}

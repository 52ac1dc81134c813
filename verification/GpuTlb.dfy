/** The translation hierarchy of the GPU: which coalescer and which of its ports each compute unit
    is connected to. Quotients of the script are real ones, cut off when they are printed. */
module GpuTlb {
  import Arith
  import GpuLayout

  datatype Config = PerLane | Mono | PerCU | TwoCU
  datatype Slot = Slot(coalescer: nat, port: nat)

  /** The number of first-level data TLBs. */
  function DataTlbs(c: Config, cus: nat): nat {
    match c
    case PerLane => 64 * cus
    case Mono => 1
    case PerCU => cus
    case TwoCU => cus / 2
  }

  /** The quotient and the remainder as the script prints them: the remainder of a real division
      is what is left after whole multiples. */
  function Whole(x: nat, q: real): nat
    requires q > 0.0
  {
    WholeIsNat(x, q);
    (x as real / q).Floor
  }

  lemma WholeIsNat(x: nat, q: real)
    requires q > 0.0
    ensures 0 <= (x as real / q).Floor
    ensures 0.0 <= x as real - (x as real / q).Floor as real * q < q
  {
    DivTimes(x as real, q);
    FloorOf(x as real, q, x as real / q);
  }

  lemma DivTimes(x: real, q: real)
    requires q > 0.0
    ensures (x / q) * q == x
  {
  }

  lemma FloorOf(x: real, q: real, r: real)
    requires q > 0.0 && r * q == x
    ensures 0.0 <= x - r.Floor as real * q < q
    ensures x >= 0.0 ==> r.Floor >= 0
  {
    FloorTimes(r.Floor as real, r, q, x);
  }

  lemma FloorTimes(f: real, r: real, q: real, x: real)
    requires f <= r < f + 1.0 && q > 0.0 && r * q == x
    ensures 0.0 <= x - f * q < q
  {
    var d := r - f;
    assert 0.0 <= d * q;
    assert (1.0 - d) * q > 0.0;
    assert d * q == x - f * q;
    assert (1.0 - d) * q == q - d * q;
  }

  lemma RealMul(a: real, b: real, q: real)
    requires a >= b && q > 0.0
    ensures a * q >= b * q
  {
    assert (a - b) * q >= 0.0;
    assert (a - b) * q == a * q - b * q;
  }

  function Left(x: nat, q: real): nat
    requires q > 0.0
  {
    WholeIsNat(x, q);
    (x as real - Whole(x, q) as real * q).Floor
  }

  /** Two units at the same coalescer have different ports. */
  lemma SlotsDiffer(x: nat, y: nat, q: real)
    requires q > 0.0 && x != y && Whole(x, q) == Whole(y, q)
    ensures Left(x, q) - Left(y, q) == x - y
  {
    var m := Whole(x, q) as real * q;
    assert (x as real - m) - (y as real - m) == (x - y) as real;
  }

  /** For whole divisors this is integer division. */
  lemma WholeDivisor(x: nat, k: nat)
    requires k >= 1
    ensures Whole(x, k as real) == x / k && Left(x, k as real) == x % k
  {
    WholeIsNat(x, k as real);
    var w := (x as real / k as real).Floor;
    assert w as real * k as real == (w * k) as real;
    assert 0 <= x - w * k < k;
    Arith.DivModUnique(x, k, w, x - w * k);
  }

  // ---------- caches shared by compute units ----------

  /** The unit's number is the slot read as two digits: coalescer times sharing degree plus port. */
  method WireShared(cus: nat, k: nat) returns (slots: seq<Slot>)
    requires k >= 1
    ensures |slots| == cus
    ensures forall i | 0 <= i < cus :: slots[i].coalescer == i / k && slots[i].port == i % k
  {
    slots := [];
    for i := 0 to cus
      invariant |slots| == i && forall j | 0 <= j < i :: slots[j].coalescer == j / k && slots[j].port == j % k
    {
      WholeDivisor(i, k);
      slots := slots + [SharedSlot(i, k)];
    }
  }

  function SharedSlot(i: nat, k: nat): Slot
    requires k >= 1
  {
    Slot(Whole(i, k as real), Left(i, k as real))
  }

  /** The translation port of a compute unit is at the coalescer with the number of its cache,
      which exists; no two units share a port, and every port is below the sharing degree. */
  lemma SharedSlots(cus: nat, i: nat, j: nat, k: nat)
    requires k >= 1 && i < cus && j < cus
    ensures SharedSlot(i, k).coalescer == i / k < GpuLayout.CeilDiv(cus, k) && SharedSlot(i, k).port < k
    ensures SharedSlot(i, k) == SharedSlot(j, k) ==> i == j
  {
    WholeDivisor(i, k);
    WholeDivisor(j, k);
    Arith.DivMonotone(i, cus - 1, k);
    Digits(i, k);
    Digits(j, k);
  }

  lemma Digits(i: nat, k: nat)
    requires k >= 1
    ensures i == i / k * k + i % k && 0 <= i % k < k
  {
  }

  // ---------- data TLBs ----------

  /** The slots of one compute unit. */
  function DataSlots(cus: nat, tlbs: nat, cu: nat): seq<Slot>
    requires 1 <= cus && 1 <= tlbs
  {
    var each := tlbs / cus;
    if each > 0 then seq(each, t requires 0 <= t => Slot(cu * each + t, 0))
    else
      var q := cus as real / tlbs as real;
      [Slot(Whole(cu, q), Left(cu, q))]
  }

  /** Without a TLB the division by their number fails: that is one compute unit in the
      configuration in which two share a TLB. */
  method WireData(config: Config, cus: nat) returns (ok: bool, slots: seq<seq<Slot>>)
    requires 1 <= cus
    ensures ok <==> !(config == TwoCU && cus == 1)
    ensures ok ==> DataTlbs(config, cus) > 0 && |slots| == cus
    ensures ok ==> forall c | 0 <= c < cus :: slots[c] == DataSlots(cus, DataTlbs(config, cus), c)
  {
    var tlbs := DataTlbs(config, cus);
    var each := tlbs / cus;
    slots := [];
    for c := 0 to cus
      invariant |slots| == c && (c > 0 ==> tlbs > 0)
      invariant tlbs > 0 ==> forall d | 0 <= d < c :: slots[d] == DataSlots(cus, tlbs, d)
    {
      if each > 0 {
        assert tlbs > 0;
        var mine: seq<Slot> := [];
        for t := 0 to each
          invariant mine == seq(t, u requires 0 <= u => Slot(c * each + u, 0))
        {
          mine := mine + [Slot(c * each + t, 0)];
        }
        slots := slots + [mine];
      } else {
        if tlbs == 0 {
          return false, slots;
        }
        var q := cus as real / tlbs as real;
        slots := slots + [[Slot(Whole(c, q), Left(c, q))]];
      }
    }
    ok := true;
  }

  lemma Quotient(c: nat, cus: nat, tlbs: nat)
    requires c < cus && 1 <= tlbs
    ensures cus as real / tlbs as real > 0.0 && Whole(c, cus as real / tlbs as real) < tlbs
  {
    var q := cus as real / tlbs as real;
    DivTimes(cus as real, tlbs as real);
    WholeIsNat(c, q);
    Below(Whole(c, q), tlbs, q, c as real, cus as real);
  }

  lemma Below(w: nat, n: nat, q: real, c: real, m: real)
    requires q > 0.0 && w as real * q <= c < m && q * n as real == m
    ensures w < n
  {
    if w >= n {
      RealMul(w as real, n as real, q);
      assert false;
    }
  }

  /** Every slot is at a coalescer that exists, and no two ports of compute units meet. */
  lemma DataSlotsApart(cus: nat, tlbs: nat, c: nat, i: nat, d: nat, j: nat)
    requires 1 <= tlbs && c < cus && d < cus
    requires i < |DataSlots(cus, tlbs, c)| && j < |DataSlots(cus, tlbs, d)| && (c, i) != (d, j)
    ensures DataSlots(cus, tlbs, c)[i].coalescer < tlbs
    ensures DataSlots(cus, tlbs, c)[i] != DataSlots(cus, tlbs, d)[j]
  {
    var each := tlbs / cus;
    if each > 0 {
      Arith.DivModUnique(c * each + i, each, c, i);
      Arith.DivModUnique(d * each + j, each, d, j);
      Arith.MulMonotone(each, c + 1, cus);
      assert each * cus <= tlbs;
      assert c * each + i < each * (c + 1);
    } else {
      var q := cus as real / tlbs as real;
      Quotient(c, cus, tlbs);
      if Whole(c, q) == Whole(d, q) {
        SlotsDiffer(c, d, q);
      }
    }
  }

  // ---------- the second level ----------

  ghost function Sum(widths: seq<nat>): nat {
    if widths == [] then 0 else Sum(widths[..|widths| - 1]) + widths[|widths| - 1]
  }

  /** First-level TLB i of type t takes the port after all those of the types before it. */
  method WireSecondLevel(widths: seq<nat>) returns (ports: seq<seq<nat>>)
    ensures |ports| == |widths|
    ensures forall t | 0 <= t < |widths| :: |ports[t]| == widths[t] &&
              forall i | 0 <= i < widths[t] :: ports[t][i] == Sum(widths[..t]) + i
  {
    var next := 0;
    ports := [];
    for t := 0 to |widths|
      invariant |ports| == t && next == Sum(widths[..t])
      invariant forall u | 0 <= u < t :: |ports[u]| == widths[u] &&
                  forall i | 0 <= i < widths[u] :: ports[u][i] == Sum(widths[..u]) + i
    {
      var mine: seq<nat> := [];
      for i := 0 to widths[t]
        invariant |mine| == i && next == Sum(widths[..t]) + i
        invariant forall j | 0 <= j < i :: mine[j] == Sum(widths[..t]) + j
      {
        mine := mine + [next];
        next := next + 1;
      }
      assert widths[..t + 1][..t] == widths[..t];
      ports := ports + [mine];
    }
  }

  /** All first-level TLBs have ports of their own, and no port below the total is left free. */
  lemma {:induction false} SecondLevelPorts(widths: seq<nat>, p: nat) returns (t: nat, i: nat)
    requires p < Sum(widths)
    ensures t < |widths| && i < widths[t] && p == Sum(widths[..t]) + i
  {
    var n := |widths| - 1;
    if p < Sum(widths[..n]) {
      t, i := SecondLevelPorts(widths[..n], p);
      assert widths[..n][..t] == widths[..t];
    } else {
      t, i := n, p - Sum(widths[..n]);
    }
  }

  lemma {:induction false} SumGrows(widths: seq<nat>, t: nat, u: nat)
    requires t < u <= |widths|
    ensures Sum(widths[..t]) + widths[t] <= Sum(widths[..u])
  {
    assert widths[..u][..u - 1] == widths[..u - 1];
    if t < u - 1 {
      SumGrows(widths, t, u - 1);
    }
  }

  lemma SecondLevelApart(widths: seq<nat>, t: nat, i: nat, u: nat, j: nat)
    requires t < |widths| && u < |widths| && i < widths[t] && j < widths[u]
    requires Sum(widths[..t]) + i == Sum(widths[..u]) + j
    ensures t == u && i == j
  {
    if t < u {
      SumGrows(widths, t, u);
    } else if u < t {
      SumGrows(widths, u, t);
    }
  }
}

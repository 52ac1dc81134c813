/** Merging checkpoints: their memory images one after the other, their addresses moved along,
    and their CPU sections renamed. */
module Aggregator {
  import opened PyStr

  type Byte = b: int | 0 <= b < 256

  /** What is used of a checkpoint: its number of pages, of 4096 bytes each, and its memory image. */
  datatype Checkpoint = Checkpoint(pages: nat, image: seq<Byte>) {
    /** The image holds at least the pages it should have. */
    predicate Full() {
      pages * 4096 <= |image|
    }
  }

  /** The first bytes of an image, or all there are. */
  function Take(image: seq<Byte>, n: nat): seq<Byte> {
    if n <= |image| then image[..n] else image
  }

  /** Copies page by page; reading past the end gives less, or nothing. */
  method CopyPages(image: seq<Byte>, pages: nat, out0: seq<Byte>) returns (out: seq<Byte>)
    ensures out == out0 + Take(image, pages * 4096)
  {
    out := out0;
    var pos := 0;
    for x := 0 to pages
      invariant pos == (if x * 4096 <= |image| then x * 4096 else |image|)
      invariant out == out0 + image[..pos]
    {
      var end := if pos + 4096 <= |image| then pos + 4096 else |image|;
      assert image[..end] == image[..pos] + image[pos..end];
      out := out + image[pos..end];
      pos := end;
    }
  }

  /** The first page of a checkpoint in the merged memory. */
  function Base(cpts: seq<Checkpoint>, i: nat): nat
    requires i <= |cpts|
  {
    if i == 0 then 0 else Base(cpts, i - 1) + cpts[i - 1].pages
  }

  ghost function Images(cpts: seq<Checkpoint>, i: nat): seq<Byte>
    requires i <= |cpts|
  {
    if i == 0 then [] else Images(cpts, i - 1) + Take(cpts[i - 1].image, cpts[i - 1].pages * 4096)
  }

  /** Where an address of checkpoint i goes. */
  function Relocated(cpts: seq<Checkpoint>, i: nat, paddr: nat): nat
    requires i < |cpts|
  {
    paddr + Base(cpts, i) * 4096
  }

  function PagesFor(pagePtr: nat, memorySize: int): nat {
    if memorySize <= pagePtr * 4096 then pagePtr else (memorySize + 4096 - 1) / 4096
  }

  ghost predicate IsPadding(s: seq<Byte>) {
    forall k | 0 <= k < |s| :: s[k] == '0' as int
  }

  /** So many pages of padding follow the images. */
  ghost predicate Padded(used: seq<Byte>, merged: seq<Byte>, pages: int) {
    used <= merged && IsPadding(merged[|used|..]) && |merged| == |used| + pages * 4096
  }

  /** The merged image and the number of its pages. The padding consists of digits zero, not of
      zero bytes. */
  method Aggregate(cpts: seq<Checkpoint>, memorySize: int)
    returns (merged: seq<Byte>, bases: seq<nat>, pagePtr: nat)
    ensures |bases| == |cpts| && forall i | 0 <= i < |cpts| :: bases[i] == Base(cpts, i)
    ensures pagePtr == PagesFor(Base(cpts, |cpts|), memorySize)
    ensures Padded(Images(cpts, |cpts|), merged, pagePtr - Base(cpts, |cpts|))
  {
    merged, bases, pagePtr := Merge(cpts);
    merged, pagePtr := Pad(merged, pagePtr, memorySize);
  }

  method Merge(cpts: seq<Checkpoint>) returns (merged: seq<Byte>, bases: seq<nat>, pagePtr: nat)
    ensures |bases| == |cpts| && forall i | 0 <= i < |cpts| :: bases[i] == Base(cpts, i)
    ensures pagePtr == Base(cpts, |cpts|) && merged == Images(cpts, |cpts|)
  {
    merged, bases, pagePtr := [], [], 0;
    for i := 0 to |cpts|
      invariant pagePtr == Base(cpts, i) && merged == Images(cpts, i)
      invariant |bases| == i && forall j | 0 <= j < i :: bases[j] == Base(cpts, j)
    {
      bases := bases + [pagePtr];
      pagePtr := pagePtr + cpts[i].pages;
      merged := CopyPages(cpts[i].image, cpts[i].pages, merged);
    }
  }

  method Pad(used: seq<Byte>, pages: nat, memorySize: int) returns (merged: seq<Byte>, pagePtr: nat)
    ensures pagePtr == PagesFor(pages, memorySize)
    ensures Padded(used, merged, pagePtr - pages)
  {
    merged, pagePtr := used, pages;
    var dummy: seq<Byte> := seq(4096, _ => '0' as int);
    var fileSize := pages * 4096;
    while fileSize < memorySize
      invariant fileSize == pagePtr * 4096 && pages <= pagePtr
      invariant pagePtr > pages ==> (pagePtr - 1) * 4096 < memorySize
      invariant Padded(used, merged, pagePtr - pages)
    {
      assert (merged + dummy)[|used|..] == merged[|used|..] + dummy;
      merged := merged + dummy;
      fileSize := fileSize + 4096;
      pagePtr := pagePtr + 1;
    }
  }

  // ---------- where everything is ----------

  ghost predicate AllFull(cpts: seq<Checkpoint>, i: nat)
    requires i <= |cpts|
  {
    forall j | 0 <= j < i :: cpts[j].Full()
  }

  lemma {:induction false} BasesGrow(cpts: seq<Checkpoint>, i: nat, j: nat)
    requires i < j <= |cpts|
    ensures Base(cpts, i) + cpts[i].pages <= Base(cpts, j)
  {
    if i < j - 1 {
      BasesGrow(cpts, i, j - 1);
    }
  }

  /** The images never take more room than their pages, and exactly as much when all are full. */
  lemma {:induction false} ImagesLength(cpts: seq<Checkpoint>, i: nat)
    requires i <= |cpts|
    ensures |Images(cpts, i)| <= Base(cpts, i) * 4096
    ensures |Images(cpts, i)| == Base(cpts, i) * 4096 <==> AllFull(cpts, i)
  {
    if i > 0 {
      ImagesLength(cpts, i - 1);
      assert AllFull(cpts, i) <==> AllFull(cpts, i - 1) && cpts[i - 1].Full();
    }
  }

  lemma {:induction false} ImagesAt(cpts: seq<Checkpoint>, n: nat, i: nat, k: nat)
    requires i < n <= |cpts| && AllFull(cpts, n) && k < cpts[i].pages * 4096
    ensures HoldsAt(Images(cpts, n), Relocated(cpts, i, k), cpts[i].image, k)
  {
    var before, last := Images(cpts, n - 1), cpts[n - 1];
    ImagesLength(cpts, n - 1);
    assert last.Full();
    if i < n - 1 {
      ImagesAt(cpts, n - 1, i, k);
      PrefixHolds(before, Images(cpts, n), Relocated(cpts, i, k), cpts[i].image, k);
    } else {
      AppendedHolds(before, last.image, last.pages * 4096, k);
    }
  }

  /** The byte at one place of the merged image is the byte at another place of an image. */
  ghost predicate HoldsAt(merged: seq<Byte>, at: nat, image: seq<Byte>, k: nat) {
    at < |merged| && k < |image| && merged[at] == image[k]
  }

  lemma PrefixHolds(used: seq<Byte>, merged: seq<Byte>, at: nat, image: seq<Byte>, k: nat)
    requires used <= merged && HoldsAt(used, at, image, k)
    ensures HoldsAt(merged, at, image, k)
  {
  }

  lemma AppendedHolds(before: seq<Byte>, image: seq<Byte>, n: nat, k: nat)
    requires k < n <= |image|
    ensures HoldsAt(before + Take(image, n), k + |before|, image, k)
  {
  }

  /** Every byte of every checkpoint is found at its moved address. */
  lemma RelocatedByte(cpts: seq<Checkpoint>, merged: seq<Byte>, i: nat, paddr: nat)
    requires AllFull(cpts, |cpts|) && Images(cpts, |cpts|) <= merged
    requires i < |cpts| && paddr < cpts[i].pages * 4096
    ensures HoldsAt(merged, Relocated(cpts, i, paddr), cpts[i].image, paddr)
  {
    ImagesAt(cpts, |cpts|, i, paddr);
    PrefixHolds(Images(cpts, |cpts|), merged, Relocated(cpts, i, paddr), cpts[i].image, paddr);
  }

  /** Addresses of different checkpoints never meet. */
  lemma RelocatedApart(cpts: seq<Checkpoint>, i: nat, x: nat, j: nat, y: nat)
    requires i < |cpts| && j < |cpts| && x < cpts[i].pages * 4096 && y < cpts[j].pages * 4096
    requires Relocated(cpts, i, x) == Relocated(cpts, j, y)
    ensures i == j && x == y
  {
    if i < j {
      BasesGrow(cpts, i, j);
    } else if j < i {
      BasesGrow(cpts, j, i);
    }
  }

  /** The merged image has the announced size exactly when all images were full; it is never
      larger, and the announced size is at least the memory asked for. */
  lemma MergedSizeIff(cpts: seq<Checkpoint>, merged: seq<Byte>, memorySize: int)
    requires var n := Base(cpts, |cpts|); Padded(Images(cpts, |cpts|), merged, PagesFor(n, memorySize) - n)
    ensures var size := PagesFor(Base(cpts, |cpts|), memorySize) * 4096;
            size >= memorySize && |merged| <= size && (|merged| == size <==> AllFull(cpts, |cpts|))
  {
    ImagesLength(cpts, |cpts|);
  }

  // ---------- section names ----------

  predicate StartsCpu(s: string) {
    |s| >= 3 && s[0] == 'c' && s[1] == 'p' && s[2] == 'u'
  }

  predicate HasCpu(s: string) {
    StartsCpu(s) || (s != "" && HasCpu(s[1..]))
  }

  /** Every "cpu" of a section name gets the checkpoint's number. */
  function Renamed(s: string, tag: string): string {
    if StartsCpu(s) then "cpu" + tag + Renamed(s[3..], tag)
    else if s == "" then ""
    else [s[0]] + Renamed(s[1..], tag)
  }

  /** Numbers are written with leading zeros to the width of the largest. */
  function Numbered(i: nat, n: nat): string
    requires i < n
  {
    Zeros(i, |Decimal(n - 1)|)
  }

  function Zeros(i: nat, width: nat): string {
    var d := Decimal(i);
    if |d| >= width then d else seq(width - |d|, _ => '0') + d
  }

  lemma HeadOfRenamed(s: string, tag: string)
    requires s != ""
    ensures Renamed(s, tag) != "" && Renamed(s, tag)[0] == s[0]
  {
  }

  /** Renaming does not make a new "cpu". */
  lemma NoNewCpu(s: string, tag: string)
    requires !StartsCpu(s)
    ensures !StartsCpu(Renamed(s, tag))
  {
    if |s| >= 2 {
      HeadOfRenamed(s[1..], tag);
      if s[1] == 'p' {
        assert Renamed(s[1..], tag) == [s[1]] + Renamed(s[2..], tag);
        if |s| >= 3 {
          HeadOfRenamed(s[2..], tag);
        }
      }
    }
  }

  /** Sections renamed with different numbers of one width never clash. */
  lemma {:induction false} RenamedApart(s: string, tag: string, s': string, tag': string)
    requires |tag| == |tag'| && HasCpu(s) && Renamed(s, tag) == Renamed(s', tag')
    ensures tag == tag'
    decreases |s|
  {
    var r := Renamed(s, tag);
    if StartsCpu(s) {
      if !StartsCpu(s') {
        NoNewCpu(s', tag');
        assert false;
      }
      assert r == "cpu" + tag + Renamed(s[3..], tag) == "cpu" + tag' + Renamed(s'[3..], tag');
      assert tag == r[3..3 + |tag|] == tag';
    } else {
      if StartsCpu(s') {
        NoNewCpu(s, tag);
        assert false;
      }
      assert r == [s[0]] + Renamed(s[1..], tag) == [s'[0]] + Renamed(s'[1..], tag');
      assert r[1..] == Renamed(s[1..], tag) == Renamed(s'[1..], tag');
      RenamedApart(s[1..], tag, s'[1..], tag');
    }
  }

  lemma {:induction false} ParseZeros(k: nat, i: nat)
    ensures ParseDigits(seq(k, _ => '0') + Decimal(i)) == Ok(i)
    decreases i
  {
    var z := seq(k, _ => '0');
    var s := z + Decimal(i);
    DecimalDigits(i);
    if i < 10 {
      ParseOnlyZeros(k, i);
    } else {
      DecimalDigits(i / 10);
      ParseZeros(k, i / 10);
      assert s[..|s| - 1] == z + Decimal(i / 10);
      assert IsDigit(s[|s| - 2]);
    }
  }

  lemma {:induction false} ParseOnlyZeros(k: nat, d: nat)
    requires d < 10
    ensures ParseDigits(seq(k, _ => '0') + Decimal(d)) == Ok(d)
  {
    var z := seq(k, _ => '0');
    var s := z + Decimal(d);
    if k > 0 {
      ParseOnlyZeros(k - 1, 0);
      assert s[..|s| - 1] == seq(k - 1, _ => '0') + Decimal(0);
    } else {
      assert s == Decimal(d);
    }
  }

  lemma {:induction false} LongerDecimal(i: nat, j: nat)
    requires i <= j
    ensures |Decimal(i)| <= |Decimal(j)|
    decreases i
  {
    if i >= 10 {
      LongerDecimal(i / 10, j / 10);
    } else {
      DecimalDigits(j);
    }
  }

  lemma NumberedWidth(i: nat, n: nat)
    requires i < n
    ensures |Numbered(i, n)| == |Decimal(n - 1)| && ParseDigits(Numbered(i, n)) == Ok(i)
  {
    LongerDecimal(i, n - 1);
    var k := |Decimal(n - 1)| - |Decimal(i)|;
    ParseZeros(k, i);
    if k == 0 {
      DigitsOfDecimal(i);
    }
  }

  /** CPU sections of different checkpoints never get the same name. */
  lemma SectionsApart(sec: string, i: nat, sec': string, j: nat, n: nat)
    requires i < n && j < n && HasCpu(sec)
    requires Renamed(sec, Numbered(i, n)) == Renamed(sec', Numbered(j, n))
    ensures i == j
  {
    NumberedWidth(i, n);
    NumberedWidth(j, n);
    RenamedApart(sec, Numbered(i, n), sec', Numbered(j, n));
  }
}

/** The page bitmap of the shared segment: one bit for each page, eight to a byte, and the scan for
    consecutive free pages that steps over whole bytes. */
module PageBitmap {

  import opened Options

  // ---- bytes of bits -----------------------------------------------------------------------------

  function Mask(j: nat): bv8
    requires j < 8
  {
    1 << j
  }

  predicate Bit(b: bv8, j: nat)
    requires j < 8
  {
    b & Mask(j) != 0
  }

  /** `set` on the bits selected by a mask. */
  function Written(b: bv8, m: bv8, on: bool): bv8 {
    if on then b | m else b ^ (b & m)
  }

  function WithBit(b: bv8, j: nat, on: bool): bv8
    requires j < 8
  {
    Written(b, Mask(j), on)
  }

  lemma MasksAreDistinct(j: nat, k: nat)
    requires j < 8 && k < 8 && j != k
    ensures Mask(j) & Mask(k) == 0
  {
  }

  lemma MaskIsSet(j: nat)
    requires j < 8
    ensures Mask(j) != 0
  {
  }

  lemma WrittenBits(b: bv8, m: bv8, n: bv8, on: bool)
    requires n != 0 && (m == n || m & n == 0)
    ensures Written(b, m, on) & n != 0 <==> if m == n then on else b & n != 0
  {
  }

  /** Writing one bit changes that bit and no other. */
  lemma WithBitThenBit(b: bv8, j: nat, on: bool, k: nat)
    requires j < 8 && k < 8
    ensures Bit(WithBit(b, j, on), k) <==> if k == j then on else Bit(b, k)
  {
    var m, n := Mask(j), Mask(k);
    assert n != 0 && (k == j ==> m == n) && (k != j ==> m & n == 0 && m != n) by {
      MaskIsSet(k);
      if k != j {
        MasksAreDistinct(j, k);
        assert n & n == n;
      }
    }
    WrittenBits(b, m, n, on);
  }

  lemma FullAndEmptyBytes(j: nat)
    requires j < 8
    ensures Bit(0xff, j) && !Bit(0, j)
  {
  }

  // ---- the bitmap --------------------------------------------------------------------------------

  /** Which pages a bitmap marks as used. */
  function Bits(bytes: seq<bv8>): (used: seq<bool>)
    ensures |used| == 8 * |bytes|
  {
    seq(8 * |bytes|, p requires 0 <= p < 8 * |bytes| => Bit(bytes[p / 8], p % 8))
  }

  function SetPage(bytes: seq<bv8>, p: nat, on: bool): seq<bv8>
    requires p < 8 * |bytes|
  {
    bytes[p / 8 := WithBit(bytes[p / 8], p % 8, on)]
  }

  /** Marking a page through its byte marks that page and no other. */
  lemma SetPageBits(bytes: seq<bv8>, p: nat, on: bool)
    requires p < 8 * |bytes|
    ensures Bits(SetPage(bytes, p, on)) == Bits(bytes)[p := on]
  {
    forall q | 0 <= q < 8 * |bytes|
      ensures Bits(SetPage(bytes, p, on))[q] == Bits(bytes)[p := on][q]
    {
      if q / 8 == p / 8 {
        assert q == p <==> q % 8 == p % 8;
        WithBitThenBit(bytes[p / 8], p % 8, on, q % 8);
      }
    }
  }

  /** The marks after the pages from `lo` up to `hi` were set, those past the end left out. */
  function Marked(used: seq<bool>, lo: nat, hi: nat, on: bool): (r: seq<bool>)
    ensures |r| == |used|
  {
    seq(|used|, p requires 0 <= p < |used| => if lo <= p < hi then on else used[p])
  }

  // ---- first fit ---------------------------------------------------------------------------------

  /** Pages `w .. w + n` exist and are free. */
  ghost predicate Window(used: seq<bool>, w: nat, n: nat) {
    w + n <= |used| && forall p :: w <= p < w + n ==> !used[p]
  }

  ghost predicate FirstWindow(used: seq<bool>, w: nat, n: nat) {
    Window(used, w, n) && forall v: nat :: v < w ==> !Window(used, v, n)
  }

  /** The bit-by-bit reference: the least start of `n` free pages, from `w` on. */
  ghost function FitFrom(used: seq<bool>, w: nat, n: nat): Option<nat>
    decreases |used| - w
  {
    if Window(used, w, n) then Some(w)
    else if w < |used| then FitFrom(used, w + 1, n)
    else None
  }

  ghost function FirstFit(used: seq<bool>, n: nat): Option<nat> {
    FitFrom(used, 0, n)
  }

  lemma {:induction false} FitFromIsLeast(used: seq<bool>, w: nat, n: nat)
    requires forall v: nat :: v < w ==> !Window(used, v, n)
    ensures FitFrom(used, w, n).Some? ==> FirstWindow(used, FitFrom(used, w, n).value, n)
    ensures FitFrom(used, w, n).None? ==> forall v: nat :: !Window(used, v, n)
    decreases |used| - w
  {
    if !Window(used, w, n) && w < |used| {
      FitFromIsLeast(used, w + 1, n);
    }
  }

  /** First fit finds the one least window, and fails only if there is none. */
  lemma FirstFitIff(used: seq<bool>, n: nat)
    ensures forall w: nat :: FirstFit(used, n) == Some(w) <==> FirstWindow(used, w, n)
    ensures FirstFit(used, n).None? <==> forall v: nat :: !Window(used, v, n)
  {
    FitFromIsLeast(used, 0, n);
  }

  // ---- the scan ----------------------------------------------------------------------------------

  /** The scan treats a request for no pages like a request for one. */
  function Need(count: nat): nat {
    if count == 0 then 1 else count
  }

  /** After `n` bits: the last `c` were free, and no window lies within them. */
  ghost predicate Scanned(used: seq<bool>, n: nat, c: nat, need: nat) {
    && c <= n <= |used| && c < need
    && (forall p :: n - c <= p < n ==> !used[p])
    && (c < n ==> used[n - c - 1])
    && forall w: nat :: w + need <= n ==> !Window(used, w, need)
  }

  lemma SkipUsed(used: seq<bool>, n: nat, c: nat, need: nat, m: nat)
    requires Scanned(used, n, c, need) && 0 < m && n + m <= |used|
    requires forall p :: n <= p < n + m ==> used[p]
    ensures Scanned(used, n + m, 0, need)
  {
    forall w: nat | w + need <= n + m
      ensures !Window(used, w, need)
    {
      if n < w + need {
        assert used[w + need - 1];
      }
    }
  }

  lemma SkipFree(used: seq<bool>, n: nat, c: nat, need: nat, m: nat)
    requires Scanned(used, n, c, need) && n + m <= |used|
    requires forall p :: n <= p < n + m ==> !used[p]
    ensures c + m < need ==> Scanned(used, n + m, c + m, need)
    ensures c + m >= need ==> FirstWindow(used, n - c, need)
  {
  }

  /** The eight marks from page `base` on are the bits of byte `b`. */
  ghost predicate ByteAt(used: seq<bool>, base: nat, b: bv8) {
    && base + 8 <= |used|
    && (forall j :: 0 <= j < 8 ==> (used[base + j] <==> Bit(b, j)))
    && (b == 0xff ==> forall p :: base <= p < base + 8 ==> used[p])
    && (b == 0 ==> forall p :: base <= p < base + 8 ==> !used[p])
  }

  lemma BytesOfBits(bytes: seq<bv8>, i: nat)
    requires i < |bytes|
    ensures ByteAt(Bits(bytes), 8 * i, bytes[i])
  {
    var used := Bits(bytes);
    forall p | 8 * i <= p < 8 * i + 8
      ensures used[p] == Bit(bytes[i], p - 8 * i)
      ensures bytes[i] == 0xff ==> used[p]
      ensures bytes[i] == 0 ==> !used[p]
    {
      assert p / 8 == i && p % 8 == p - 8 * i;
      FullAndEmptyBytes(p - 8 * i);
    }
    forall j | 0 <= j < 8
      ensures used[8 * i + j] <==> Bit(bytes[i], j)
    {
    }
  }

  /** The scan's variables: `i` runs `cursor` ahead of the pages looked at. */
  ghost predicate ScanState(used: seq<bool>, count: nat, n: nat, i: nat, cursor: nat, c: nat, lastStart: nat) {
    i == n + cursor && Scanned(used, n, c, Need(count)) && (c > 0 ==> lastStart + c == i)
  }

  /** `lastStart` is `cursor` above the first fit. */
  ghost predicate Finds(used: seq<bool>, count: nat, cursor: nat, lastStart: nat) {
    lastStart >= cursor && FirstFit(used, Need(count)) == Some(lastStart - cursor)
  }

  lemma PassUsed(used: seq<bool>, count: nat, n: nat, i: nat, cursor: nat, c: nat, lastStart: nat, m: nat)
    requires ScanState(used, count, n, i, cursor, c, lastStart) && 0 < m && n + m <= |used|
    requires forall p :: n <= p < n + m ==> used[p]
    ensures ScanState(used, count, n + m, i + m, cursor, 0, lastStart)
  {
    SkipUsed(used, n, c, Need(count), m);
  }

  lemma PassFree(used: seq<bool>, count: nat, n: nat, i: nat, cursor: nat, c: nat, lastStart: nat, m: nat, start: nat)
    requires ScanState(used, count, n, i, cursor, c, lastStart) && 0 < m && n + m <= |used|
    requires forall p :: n <= p < n + m ==> !used[p]
    requires start == if c == 0 then i else lastStart
    ensures if c + m >= count then Finds(used, count, cursor, start)
            else ScanState(used, count, n + m, i + m, cursor, c + m, start)
  {
    SkipFree(used, n, c, Need(count), m);
    FirstFitIff(used, Need(count));
  }

  lemma PassAll(used: seq<bool>, count: nat, i: nat, cursor: nat, c: nat, lastStart: nat)
    requires ScanState(used, count, |used|, i, cursor, c, lastStart)
    ensures FirstFit(used, Need(count)).None?
  {
    FirstFitIff(used, Need(count));
    assert forall v: nat :: !Window(used, v, Need(count));
  }

  /** The bits of a mixed byte, one by one. */
  method ScanByte(b: bv8, count: nat, i: nat, free: nat, start: nat, ghost used: seq<bool>, ghost n: nat,
                  ghost cursor: nat)
    returns (c: nat, lastStart: nat, found: bool)
    requires ScanState(used, count, n, i, cursor, free, start) && ByteAt(used, n, b)
    ensures if found then Finds(used, count, cursor, lastStart)
            else ScanState(used, count, n + 8, i + 8, cursor, c, lastStart)
  {
    c, lastStart := free, start;
    for j := 0 to 8
      invariant ScanState(used, count, n + j, i + j, cursor, c, lastStart)
    {
      if Bit(b, j) {
        PassUsed(used, count, n + j, i + j, cursor, c, lastStart, 1);
        c := 0;
      } else {
        PassFree(used, count, n + j, i + j, cursor, c, lastStart, 1, if c == 0 then i + j else lastStart);
        if c == 0 {
          lastStart := i + j;
        }
        c := c + 1;
        if c >= count {
          return c, lastStart, true;
        }
      }
    }
    found := false;
  }

  /** One byte of the scan: full and empty bytes are taken whole. */
  method ScanStep(b: bv8, count: nat, i: nat, free: nat, start: nat, ghost used: seq<bool>, ghost n: nat,
                  ghost cursor: nat)
    returns (c: nat, lastStart: nat, found: bool)
    requires ScanState(used, count, n, i, cursor, free, start) && ByteAt(used, n, b)
    ensures if found then Finds(used, count, cursor, lastStart)
            else ScanState(used, count, n + 8, i + 8, cursor, c, lastStart)
  {
    c, lastStart := free, start;
    if b == 0xff {
      PassUsed(used, count, n, i, cursor, c, lastStart, 8);
      c := 0;
    } else if b == 0 {
      PassFree(used, count, n, i, cursor, c, lastStart, 8, if c == 0 then i else lastStart);
      if c == 0 {
        lastStart := i;
      }
      c := c + 8;
      if c >= count {
        return c, lastStart, true;
      }
    } else {
      c, lastStart, found := ScanByte(b, count, i, c, lastStart, used, n, cursor);
      return;
    }
    found := false;
  }

  method ScanBytes(bytes: seq<bv8>, count: nat, cursor: nat, ghost used: seq<bool>) returns (found: bool, start: nat)
    requires cursor < 8 && |used| == 8 * |bytes|
    requires forall k :: 0 <= k < |bytes| ==> ByteAt(used, 8 * k, bytes[k])
    ensures if found then Finds(used, count, cursor, start) else FirstFit(used, Need(count)).None?
  {
    var i: nat, c: nat, lastStart: nat := cursor, 0, 0;
    while i / 8 < |bytes|
      invariant i == 8 * (i / 8) + cursor && i / 8 <= |bytes|
      invariant ScanState(used, count, 8 * (i / 8), i, cursor, c, lastStart)
      decreases |bytes| - i / 8
    {
      c, lastStart, found := ScanStep(bytes[i / 8], count, i, c, lastStart, used, 8 * (i / 8), cursor);
      if found {
        return true, lastStart;
      }
      i := i + 8;
    }
    PassAll(used, count, i, cursor, c, lastStart);
    return false, 0;
  }

  /** `findContinousFreePages` with the cursor starting at `cursor`; `None` is the exception. */
  method FindContinuousFreePages(bytes: seq<bv8>, count: nat, cursor: nat) returns (r: Option<nat>)
    requires cursor < 8
    ensures r == match FirstFit(Bits(bytes), Need(count)) case Some(w) => Some(w + cursor) case None => None
  {
    forall k | 0 <= k < |bytes|
      ensures ByteAt(Bits(bytes), 8 * k, bytes[k])
    {
      BytesOfBits(bytes, k);
    }
    var found, start := ScanBytes(bytes, count, cursor, Bits(bytes));
    return if found then Some(start) else None;
  }
}

/** `SharedMemoryInformation`: the shared segment with its page bitmap, its size, and what each
    process has mapped of it. Sizes and addresses are counted in pages. */
module SharedMemory {
  import opened Options
  import opened PageBitmap
  import opened PageAllocator
  import opened PageContents

  lemma MarkedSnoc(used: seq<bool>, lo: nat, hi: nat, on: bool)
    requires lo <= hi < |used|
    ensures Marked(used, lo, hi, on)[hi := on] == Marked(used, lo, hi + 1, on)
  {
  }

  lemma MarkedClipped(used: seq<bool>, lo: nat, hi: nat, on: bool)
    ensures Marked(used, lo, Min(hi, |used|), on) == Marked(used, lo, hi, on)
    ensures lo >= hi ==> Marked(used, lo, hi, on) == used
  {
  }

  lemma EmptyBitmap(bytes: seq<bv8>)
    requires forall i :: 0 <= i < |bytes| ==> bytes[i] == 0
    ensures forall p :: 0 <= p < 8 * |bytes| ==> !Bits(bytes)[p]
  {
  }

  /** Marks the pages `lo .. hi` one by one and says whether all of them have a bit. The code does not
      look where the bitmap ends and would write behind it; here those marks are dropped. */
  method MarkPages(pagesUsed: array<bv8>, lo: nat, hi: nat, on: bool) returns (inside: bool)
    modifies pagesUsed
    ensures Bits(pagesUsed[..]) == Marked(old(Bits(pagesUsed[..])), lo, hi, on)
    ensures inside <==> forall i :: lo <= i < hi ==> HasByte(pagesUsed.Length, i)
  {
    ghost var used := Bits(pagesUsed[..]);
    var end := Min(hi, 8 * pagesUsed.Length);
    MarkedClipped(used, lo, hi, on);
    MarkedClipped(used, lo, lo, on);
    MarkedClipped(used, lo, end, on);
    var i := lo;
    while i < end
      invariant if lo < end then lo <= i <= end else i == lo
      invariant Bits(pagesUsed[..]) == Marked(used, lo, i, on)
    {
      MarkOne(pagesUsed, i, on);
      MarkedSnoc(used, lo, i, on);
      i := i + 1;
    }
    inside := hi <= end || hi <= lo;
    assert !inside ==> !HasByte(pagesUsed.Length, hi - 1);
  }

  /** The byte that holds the bit of page `i` is in the bitmap. */
  predicate HasByte(length: nat, i: nat) {
    i / 8 < length
  }

  method MarkOne(pagesUsed: array<bv8>, p: nat, on: bool)
    requires p < 8 * pagesUsed.Length
    modifies pagesUsed
    ensures Bits(pagesUsed[..]) == old(Bits(pagesUsed[..]))[p := on]
  {
    ghost var bytes := pagesUsed[..];
    SetPageBits(bytes, p, on);
    pagesUsed[p / 8] := WithBit(pagesUsed[p / 8], p % 8, on);
    assert pagesUsed[..] == SetPage(bytes, p, on);
  }

  class SharedMemoryInformation {
    const cursor: nat
    const reserved: nat
    const pagesUsed: array<bv8>
    var pages: seq<Page>
    var firstUnused: nat
    var mapped: seq<nat>
    ghost var live: seq<Run>

    ghost function View(): State
      reads this, pagesUsed
    {
      State(Bits(pagesUsed[..]), reserved, pages, firstUnused, mapped, live)
    }

    ghost predicate Valid()
      reads this, pagesUsed
    {
      cursor < 8 && HighWater(View()) && Full(View())
    }

    /** `init`, with `usedPages` pages taken and all processes mapping the whole segment. */
    constructor (cursor: nat, bitsetSize: nat, usedPages: nat, processes: nat)
      requires cursor < 8 && usedPages <= 8 * bitsetSize
      ensures Valid() && Initial(View()) && fresh(pagesUsed) && |mapped| == processes
      ensures this.cursor == cursor && |View().used| == 8 * bitsetSize && View().reserved == usedPages
    {
      this.cursor := cursor;
      reserved := usedPages;
      pagesUsed := new bv8[bitsetSize](i => 0);
      pages := seq(usedPages, _ => ZeroPage());
      firstUnused := usedPages;
      mapped := seq(processes, _ => usedPages);
      live := [];
      new;
      EmptyBitmap(pagesUsed[..]);
      var _ := MarkPages(pagesUsed, 0, usedPages, true);
    }

    /** `remapSharedMemory` for one process. */
    method RemapSharedMemory(process: nat)
      requires process < |mapped|
      modifies `mapped
      ensures mapped == old(mapped)[process := |pages|]
    {
      mapped := mapped[process := |pages|];
    }

    /** A process maps the segment again if it has grown, as every receipt of a message does. */
    method InternalRemap(process: nat)
      requires process < |mapped|
      modifies `mapped
      ensures View() == Remapped(old(View()), process)
    {
      if |pages| > mapped[process] {
        RemapSharedMemory(process);
      }
    }

    /** `resizeSharedMemory`: growing adds zero pages, shrinking drops the pages at the end. */
    method ResizeSharedMemory(process: nat, size: nat)
      requires process < |mapped|
      modifies `pages, `mapped, `firstUnused
      ensures pages == if size < |old(pages)| then old(pages)[..size] else Grown(old(pages), size)
      ensures mapped == if size == |old(pages)| then old(mapped) else old(mapped)[process := size]
      ensures firstUnused == if size == |old(pages)| then old(firstUnused) else Min(old(firstUnused), size)
    {
      if size == |pages| {
        return;
      }
      pages := if size < |pages| then pages[..size] else Grown(pages, size);
      RemapSharedMemory(process);
      firstUnused := Min(firstUnused, size);
    }

    /** Makes the segment at least `size` pages long, all of it mapped by the process. */
    method Provide(process: nat, size: nat)
      requires process < |mapped| && mapped[process] <= |pages| && firstUnused <= |pages|
      modifies `pages, `mapped, `firstUnused
      ensures pages == Grown(old(pages), size) && firstUnused == old(firstUnused)
      ensures mapped == old(mapped)[process := |pages|]
    {
      if |pages| < size {
        ResizeSharedMemory(process, size);
      }
      if |pages| > mapped[process] {
        RemapSharedMemory(process);
      }
    }

    lemma InsideIff(pos: nat, count: nat)
      ensures (forall i :: pos <= i < pos + count ==> HasByte(pagesUsed.Length, i)) <==>
              InBitmap(View().used, Run(pos, count))
    {
      InBitmapIff(View().used, Run(pos, count));
      if count > 0 && HasByte(pagesUsed.Length, pos + count - 1) {
        assert forall i :: pos <= i < pos + count ==> HasByte(pagesUsed.Length, i);
      }
    }

    /** What follows the scan: grow and map the segment, clear, mark. */
    method Grant(process: nat, pos: nat, count: nat) returns (inside: bool)
      requires Valid() && process < |mapped|
      modifies this, pagesUsed
      ensures View() == HandOut(old(View()), process, pos, count)
      ensures inside <==> InBitmap(old(View()).used, Run(pos, count))
    {
      InsideIff(pos, count);
      Provide(process, pos + count);
      if pos < firstUnused {
        pages := Cleared(pages, pos, pos + count);
      }
      inside := MarkPages(pagesUsed, pos, pos + count, true);
      firstUnused := Max(firstUnused, pos + count);
      live := live + [Run(pos, count)];
    }

    /** `inside` says whether all marks went into the bitmap. */
    method RequestContinuousFreePagesInternal(process: nat, count: nat) returns (r: Option<nat>, inside: bool)
      requires Valid() && process < |mapped|
      modifies this, pagesUsed
      ensures Valid() && r == Answer(cursor, old(View()), count)
      ensures inside <==> StaysInside(cursor, old(View()), count)
      ensures View() == match r case Some(pos) => HandOut(old(View()), process, pos, count) case None => old(View())
    {
      r := FindContinuousFreePages(pagesUsed[..], count, cursor);
      if r.None? {
        return r, true;
      }
      HandOutKeepsHighWater(View(), process, r.value, count);
      inside := Grant(process, r.value, count);
    }

    method RequestContinuousFreePages(process: nat, count: nat) returns (r: Option<nat>, inside: bool)
      requires Valid() && process < |mapped|
      modifies this, pagesUsed
      ensures Valid() && r == Answer(cursor, old(View()), count)
      ensures inside <==> StaysInside(cursor, old(View()), count)
      ensures View() == AfterRequest(cursor, old(View()), process, count)
    {
      InternalRemap(process);
      r, inside := RequestContinuousFreePagesInternal(process, count);
    }

    method FreePages(pos: nat, count: nat)
      modifies pagesUsed
      ensures View() == old(View()).(used := Marked(old(View()).used, pos, pos + count, false))
    {
      var _ := MarkPages(pagesUsed, pos, pos + count, false);
    }

    /** `shm_munmap`: the pages leave whatever runs they belong to. */
    method Unmap(pos: nat, count: nat)
      requires Valid()
      modifies this`live, pagesUsed
      ensures Valid() && View() == AfterFree(old(View()), pos, count)
    {
      FreeKeepsHighWater(View(), pos, count);
      FreePages(pos, count);
      live := Trimmed(live, pos, pos + count);
    }

    /** `shm_mremap`. `defined` says whether the copy stays inside the segment and does not overlap; the
        code does not look, and here a copy past the end is cut off. */
    method Remap(process: nat, pos: nat, count: nat, size: nat) returns (r: Option<nat>, inside: bool, defined: bool)
      requires Valid() && process < |mapped|
      modifies this, pagesUsed
      ensures Valid() && r == Answer(cursor, old(View()), size)
      ensures inside <==> StaysInside(cursor, old(View()), size)
      ensures defined <==> CopyDefined(cursor, old(View()), pos, count, size)
      ensures View() == AfterMove(cursor, old(View()), process, pos, count, size)
    {
      MoveKeepsHighWater(cursor, View(), process, pos, count, size);
      ghost var before := live;
      r, inside := RequestContinuousFreePagesInternal(process, size);
      if r.None? || r.value == pos {
        return r, inside, true;
      }
      var to := r.value;
      defined := count == 0 || (Max(pos, to) + count <= |pages| && (to + count <= pos || pos + count <= to));
      pages := Copied(pages, pos, to, count);
      FreePages(pos, count);
      live := Trimmed(before, pos, pos + count) + [Run(to, size)];
    }
  }
}

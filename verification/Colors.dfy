/** The colour map of the graph searches: four two-bit colours in each byte. */
module Colors {

  datatype Color = White | Gray | Green | Black

  function Code(c: Color): bv8 {
    match c
    case White => 0
    case Gray => 1
    case Green => 2
    case Black => 3
  }

  function Decode(b: bv8): Color {
    if b == 0 then White else if b == 1 then Gray else if b == 2 then Green else Black
  }

  /** The two bits at position `k` of a byte. */
  function Field(b: bv8, k: nat): bv8
    requires k < 4
  {
    (b >> k >> k) & 3
  }

  /** What a bitwise OR of two colour codes means. */
  function Join(a: Color, c: Color): Color {
    if a == White || a == c then c
    else if c == White then a
    else Black
  }

  /** ORing a colour into one field joins it with the colour there and leaves the three other
      fields of the byte alone. */
  lemma OrTouchesOneField(b: bv8, c: Color, k: nat, j: nat)
    requires k < 4 && j < 4
    ensures Decode(Field(b | (Code(c) << k << k), j)) ==
            if j == k then Join(Decode(Field(b, k)), c) else Decode(Field(b, j))
  {
    if k == 0 {
      if j == 0 {} else if j == 1 {} else if j == 2 {} else {}
    } else if k == 1 {
      if j == 0 {} else if j == 1 {} else if j == 2 {} else {}
    } else if k == 2 {
      if j == 0 {} else if j == 1 {} else if j == 2 {} else {}
    } else {
      if j == 0 {} else if j == 1 {} else if j == 2 {} else {}
    }
  }

  /** `put_fast` stores the requested colour exactly for white vertices, for vertices that have it
      already, and for black. */
  lemma JoinStoresIff(a: Color, c: Color)
    ensures Join(a, c) == c <==> a == White || a == c || c == Black
  {
  }

  function Lookup(bytes: seq<bv8>, v: nat): Color
    requires v < 4 * |bytes|
  {
    Decode(Field(bytes[v / 4], v % 4))
  }

  /** The bytes after `put_fast(v, c)`. */
  function Put(bytes: seq<bv8>, v: nat, c: Color): seq<bv8>
    requires v < 4 * |bytes|
  {
    bytes[v / 4 := bytes[v / 4] | (Code(c) << (v % 4) << (v % 4))]
  }

  lemma PutThenLookup(bytes: seq<bv8>, v: nat, c: Color, w: nat)
    requires v < 4 * |bytes| && w < 4 * |bytes|
    ensures Lookup(Put(bytes, v, c), w) == if w == v then Join(Lookup(bytes, v), c) else Lookup(bytes, w)
  {
    if w / 4 == v / 4 {
      assert w == v <==> w % 4 == v % 4;
      OrTouchesOneField(bytes[v / 4], c, v % 4, w % 4);
    }
  }

  /** The plain list a byte vector stands for. */
  ghost function Unpacked(bytes: seq<bv8>): (r: seq<Color>)
    ensures |r| == 4 * |bytes|
  {
    seq(4 * |bytes|, v requires 0 <= v < 4 * |bytes| => Lookup(bytes, v))
  }

  datatype PutCall = PutCall(v: nat, c: Color)

  function PutAll(bytes: seq<bv8>, calls: seq<PutCall>): (r: seq<bv8>)
    requires forall i :: 0 <= i < |calls| ==> calls[i].v < 4 * |bytes|
    ensures |r| == |bytes|
    decreases |calls|
  {
    if calls == [] then bytes else PutAll(Put(bytes, calls[0].v, calls[0].c), calls[1..])
  }

  /** The same calls on a plain list of colours. */
  function StoreAll(cells: seq<Color>, calls: seq<PutCall>): seq<Color>
    requires forall i :: 0 <= i < |calls| ==> calls[i].v < |cells|
    decreases |calls|
  {
    if calls == [] then cells else StoreAll(cells[calls[0].v := calls[0].c], calls[1..])
  }

  /** Every call finds its vertex white, already in the requested colour, or turns it black: this
      covers the documented white to gray, white to black and gray to black transitions. */
  ghost predicate OnlyFastTransitions(cells: seq<Color>, calls: seq<PutCall>)
    requires forall i :: 0 <= i < |calls| ==> calls[i].v < |cells|
    decreases |calls|
  {
    calls != [] ==>
      var v, c := calls[0].v, calls[0].c;
      && (cells[v] == White || cells[v] == c || c == Black)
      && OnlyFastTransitions(cells[v := c], calls[1..])
  }

  /** Over any run of `put_fast` calls that keeps to the allowed transitions, the packed bytes and
      the plain list never disagree on any vertex. */
  lemma {:induction false} PackedRunAgrees(bytes: seq<bv8>, calls: seq<PutCall>)
    requires forall i :: 0 <= i < |calls| ==> calls[i].v < 4 * |bytes|
    requires OnlyFastTransitions(Unpacked(bytes), calls)
    ensures Unpacked(PutAll(bytes, calls)) == StoreAll(Unpacked(bytes), calls)
    decreases |calls|
  {
    if calls != [] {
      var v, c := calls[0].v, calls[0].c;
      var next := Put(bytes, v, c);
      forall w | 0 <= w < 4 * |bytes|
        ensures Unpacked(next)[w] == Unpacked(bytes)[v := c][w]
      {
        PutThenLookup(bytes, v, c, w);
      }
      assert Unpacked(next) == Unpacked(bytes)[v := c];
      PackedRunAgrees(next, calls[1..]);
    }
  }

  /** The vertices below `n` that are still white. */
  ghost function WhiteCells(cells: seq<Color>, n: nat): set<nat> {
    set v: nat | v < n && v < |cells| && cells[v].White?
  }

  class ColorMap {
    var colors: seq<bv8>

    /** The plain vertex-to-colour list the packed bytes stand for. */
    ghost function Cells(): (r: seq<Color>)
      reads this
      ensures |r| == 4 * |colors|
    {
      Unpacked(colors)
    }

    constructor (capacity: nat)
      ensures |colors| == capacity / 4 + 512
      ensures forall v :: 0 <= v < |Cells()| ==> Cells()[v] == White
    {
      colors := seq(capacity / 4 + 512, _ => 0);
    }

    method Init()
      modifies this
      ensures |colors| == old(|colors|)
      ensures forall v :: 0 <= v < |Cells()| ==> Cells()[v] == White
    {
      colors := seq(|colors|, _ => 0);
    }

    method PutFast(v: nat, c: Color)
      requires v < 4 * |colors|
      modifies this
      ensures |colors| == old(|colors|)
      ensures Cells() == old(Cells())[v := Join(old(Cells())[v], c)]
    {
      forall w | 0 <= w < 4 * |colors|
        ensures Lookup(Put(colors, v, c), w) == if w == v then Join(Lookup(colors, v), c) else Lookup(colors, w)
      {
        PutThenLookup(colors, v, c, w);
      }
      colors := Put(colors, v, c);
    }

    function Get(v: nat): (c: Color)
      requires v < 4 * |colors|
      reads this
      ensures c == Cells()[v]
    {
      Decode((colors[v / 4] >> (v % 4) >> (v % 4)) & 3)
    }
  }
}

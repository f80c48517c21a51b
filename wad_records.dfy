/** The fixed-size map records of wadfile.py (the `__load_*` decoders): what
    each record is, what the bytes at a position decode to, and the loops
    that read a lump's records one after another. */
module WadRecords {
  import opened Base
  import opened DataReaders
  import opened Datatypes

  datatype Thing = Thing(pos: Vec2, facing: int, kind: int, flags: int)

  /** The fifth field is the sector tag (the source names it `sector`). */
  datatype Linedef = Linedef(start: int, end: int, flags: int, special: int, sectorTag: int,
                             front: int, back: int)

  datatype Sidedef = Sidedef(xOffset: int, yOffset: int, upper: string, lower: string,
                             middle: string, sector: int)

  datatype Seg = Seg(start: int, end: int, angle: int, linedef: int, direction: int, offset: int)

  datatype Subsector = Subsector(segCount: int, firstSeg: int)

  /** A NODES record before the tree is built: child references are raw
      unsigned shorts. */
  datatype RawNode = RawNode(start: Vec2, diff: Vec2, rightBox: Box, leftBox: Box,
                             rightChild: int, leftChild: int)

  datatype Sector = Sector(floor: int, ceiling: int, floorTexture: string, ceilingTexture: string,
                           light: int, special: int, tag: int)

  // ---------------------------------------------------------------------
  // What one record at byte position p decodes to: every record is read
  // whole or not at all, since a short read of any field raises.

  /** The short at p (read_short). */
  function Short(data: seq<byte>, p: nat): int
    requires p + 2 <= |data|
  {
    S16(data[p], data[p + 1])
  }

  /** The int at p (read_int). */
  function Int(data: seq<byte>, p: nat): int
    requires p + 4 <= |data|
  {
    S32(data[p], data[p + 1], data[p + 2], data[p + 3])
  }

  /** The unsigned short at p (read_unsigned_short). */
  function UShort(data: seq<byte>, p: nat): int
    requires p + 2 <= |data|
  {
    U16(data[p], data[p + 1])
  }

  /** The eight-byte name at p as text, zero bytes dropped (read_8, then
      chr of each byte kept). */
  function Name(data: seq<byte>, p: nat): string
    requires p + 8 <= |data|
  {
    NameText(data, p, 8)
  }

  /** The characters of the non-zero bytes among the n at p. */
  function NameText(data: seq<byte>, p: nat, n: nat): string
    requires p + n <= |data|
  {
    if n == 0 then ""
    else NameText(data, p, n - 1) + (if data[p + n - 1] == 0 then "" else [data[p + n - 1] as char])
  }

  /** The name text is what read_8 yields, spelled out. */
  lemma {:induction false} NameTextIsName(data: seq<byte>, p: nat, n: nat)
    requires p + n <= |data|
    ensures NameText(data, p, n) == Text(NonZero(data[p..p + n]))
  {
    if n > 0 {
      NameTextIsName(data, p, n - 1);
      assert data[p..p + n][..n - 1] == data[p..p + n - 1];
      var b := data[p + n - 1];
      assert NonZero(data[p..p + n]) == NonZero(data[p..p + n - 1]) + (if b == 0 then [] else [b]);
    }
  }

  /** THINGS: five shorts. */
  function ThingAt(data: seq<byte>, p: nat): (r: Result<Thing>)
    ensures r.Ok? <==> p + 10 <= |data|
    ensures r.Fail? ==> r.error == Truncated
  {
    if p + 10 <= |data| then
      Ok(Thing(Vec2(Short(data, p), Short(data, p + 2)), Short(data, p + 4), Short(data, p + 6),
               Short(data, p + 8)))
    else Fail(Truncated)
  }

  /** LINEDEFS: seven shorts. */
  function LinedefAt(data: seq<byte>, p: nat): (r: Result<Linedef>)
    ensures r.Ok? <==> p + 14 <= |data|
    ensures r.Fail? ==> r.error == Truncated
  {
    if p + 14 <= |data| then
      Ok(Linedef(Short(data, p), Short(data, p + 2), Short(data, p + 4), Short(data, p + 6),
                 Short(data, p + 8), Short(data, p + 10), Short(data, p + 12)))
    else Fail(Truncated)
  }

  /** SIDEDEFS: two shorts, three eight-byte names, a short. */
  function SidedefAt(data: seq<byte>, p: nat): (r: Result<Sidedef>)
    ensures r.Ok? <==> p + 30 <= |data|
    ensures r.Fail? ==> r.error == Truncated
  {
    if p + 30 <= |data| then
      Ok(Sidedef(Short(data, p), Short(data, p + 2), Name(data, p + 4), Name(data, p + 12),
                 Name(data, p + 20), Short(data, p + 28)))
    else Fail(Truncated)
  }

  /** VERTEXES: two shorts. */
  function VertexAt(data: seq<byte>, p: nat): (r: Result<Vec2>)
    ensures r.Ok? <==> p + 4 <= |data|
    ensures r.Fail? ==> r.error == Truncated
  {
    if p + 4 <= |data| then Ok(Vec2(Short(data, p), Short(data, p + 2))) else Fail(Truncated)
  }

  /** SEGS: six shorts. */
  function SegAt(data: seq<byte>, p: nat): (r: Result<Seg>)
    ensures r.Ok? <==> p + 12 <= |data|
    ensures r.Fail? ==> r.error == Truncated
  {
    if p + 12 <= |data| then
      Ok(Seg(Short(data, p), Short(data, p + 2), Short(data, p + 4), Short(data, p + 6),
             Short(data, p + 8), Short(data, p + 10)))
    else Fail(Truncated)
  }

  /** SSECTORS: two shorts. */
  function SubsectorAt(data: seq<byte>, p: nat): (r: Result<Subsector>)
    ensures r.Ok? <==> p + 4 <= |data|
    ensures r.Fail? ==> r.error == Truncated
  {
    if p + 4 <= |data| then Ok(Subsector(Short(data, p), Short(data, p + 2))) else Fail(Truncated)
  }

  /** A bounding box of a NODES record: top, bottom, left, right, kept as
      ((left, top), (right, bottom)). */
  function BoxAt(data: seq<byte>, p: nat): (r: Result<Box>)
    ensures r.Ok? <==> p + 8 <= |data|
    ensures r.Fail? ==> r.error == Truncated
  {
    if p + 8 <= |data| then
      Ok(Box(Vec2(Short(data, p + 4), Short(data, p)), Vec2(Short(data, p + 6), Short(data, p + 2))))
    else Fail(Truncated)
  }

  /** NODES: four shorts, two boxes, two unsigned child references. */
  function RawNodeAt(data: seq<byte>, p: nat): (r: Result<RawNode>)
    ensures r.Ok? <==> p + 28 <= |data|
    ensures r.Fail? ==> r.error == Truncated
    ensures r.Ok? ==> 0 <= r.value.rightChild <= 0xFFFF && 0 <= r.value.leftChild <= 0xFFFF
  {
    if p + 28 <= |data| then
      Ok(RawNode(Vec2(Short(data, p), Short(data, p + 2)), Vec2(Short(data, p + 4), Short(data, p + 6)),
                 BoxAt(data, p + 8).value, BoxAt(data, p + 16).value,
                 UShort(data, p + 24), UShort(data, p + 26)))
    else Fail(Truncated)
  }

  /** SECTORS: two shorts, two eight-byte names, three shorts. */
  function SectorAt(data: seq<byte>, p: nat): (r: Result<Sector>)
    ensures r.Ok? <==> p + 26 <= |data|
    ensures r.Fail? ==> r.error == Truncated
  {
    if p + 26 <= |data| then
      Ok(Sector(Short(data, p), Short(data, p + 2), Name(data, p + 4), Name(data, p + 12),
                Short(data, p + 20), Short(data, p + 22), Short(data, p + 24)))
    else Fail(Truncated)
  }

  // ---------------------------------------------------------------------
  // A run of n records of width w read one after another from p.

  function Run<T>(dec: (seq<byte>, nat) -> Result<T>, data: seq<byte>, p: nat, n: int, w: nat)
    : (r: Result<seq<T>>)
    ensures r.Ok? ==> |r.value| == Max(n, 0)
    decreases n
  {
    if n <= 0 then Ok([])
    else
      var x :- dec(data, p);
      var rest :- Run(dec, data, p + w, n - 1, w);
      Ok([x] + rest)
  }

  /** A successful run holds exactly max(n, 0) records, record i decoded
      from position p + i * w. */
  lemma {:induction false} RunSound<T>(dec: (seq<byte>, nat) -> Result<T>, data: seq<byte>,
                                       p: nat, n: int, w: nat)
    requires Run(dec, data, p, n, w).Ok?
    ensures |Run(dec, data, p, n, w).value| == Max(n, 0)
    ensures forall i :: 0 <= i < Max(n, 0) ==>
              dec(data, p + i * w) == Ok(Run(dec, data, p, n, w).value[i])
    decreases n
  {
    if n > 0 {
      RunSound(dec, data, p + w, n - 1, w);
      var xs := Run(dec, data, p, n, w).value;
      forall i | 0 <= i < n
        ensures dec(data, p + i * w) == Ok(xs[i])
      {
        if i > 0 {
          assert p + i * w == (p + w) + (i - 1) * w;
        }
      }
    }
  }

  lemma RunStep<T>(dec: (seq<byte>, nat) -> Result<T>, data: seq<byte>, p: nat, n: int, w: nat)
    requires n > 0
    ensures dec(data, p).Fail? ==> Run(dec, data, p, n, w) == Fail(dec(data, p).error)
    ensures dec(data, p).Ok? ==>
              Run(dec, data, p, n, w) == Prepend([dec(data, p).value], Run(dec, data, p + w, n - 1, w))
  {
  }

  /** One turn of a loader loop: a decoded record moves from the rest of
      the run to the records already read. */
  lemma RunAdvance<T>(dec: (seq<byte>, nat) -> Result<T>, data: seq<byte>, p: nat, n: int, w: nat,
                      rv: seq<T>, x: T, q: nat, m: int)
    requires n > 0 && dec(data, p) == Ok(x)
    requires q == p + w && m == n - 1
    ensures Prepend(rv, Run(dec, data, p, n, w)) == Prepend(rv + [x], Run(dec, data, q, m, w))
  {
    RunStep(dec, data, p, n, w);
    PrependAppend(rv, [x], Run(dec, data, q, m, w));
  }

  /** A record that does not decode ends the run with its failure. */
  lemma RunStop<T>(dec: (seq<byte>, nat) -> Result<T>, data: seq<byte>, p: nat, n: int, w: nat,
                   rv: seq<T>)
    requires n > 0 && dec(data, p).Fail?
    ensures Prepend(rv, Run(dec, data, p, n, w)) == Fail(dec(data, p).error)
  {
  }

  /** A run that succeeds holds every shorter run from the same start. */
  lemma {:induction false} RunTake<T>(dec: (seq<byte>, nat) -> Result<T>, data: seq<byte>, p: nat,
                                      n: int, w: nat, j: nat)
    requires Run(dec, data, p, n, w).Ok? && j <= n
    ensures Run(dec, data, p, j, w) == Ok(Run(dec, data, p, n, w).value[..j])
    decreases j
  {
    if j > 0 {
      RunTake(dec, data, p + w, n - 1, w, j - 1);
      var xs := Run(dec, data, p, n, w).value;
      assert xs[..j] == [xs[0]] + xs[1..][..j - 1];
    }
  }

  /** Record i starts one record width after record i - 1. */
  lemma NextRecord(p: nat, w: nat, i: nat)
    requires i > 0
    ensures p + w + (i - 1) * w == p + i * w
  {
  }

  /** ... and every run that starts at a later record. */
  lemma {:induction false} RunDrop<T>(dec: (seq<byte>, nat) -> Result<T>, data: seq<byte>, p: nat,
                                      n: int, w: nat, i: nat)
    requires Run(dec, data, p, n, w).Ok? && i <= n
    ensures Run(dec, data, p + i * w, n - i, w) == Ok(Run(dec, data, p, n, w).value[i..])
    decreases i
  {
    if i > 0 {
      var xs := Run(dec, data, p, n, w).value;
      RunStep(dec, data, p, n, w);
      assert Run(dec, data, p + w, n - 1, w) == Ok(xs[1..]);
      RunDrop(dec, data, p + w, n - 1, w, i - 1);
      assert xs[i..] == xs[1..][i - 1..];
      NextRecord(p, w, i);
    }
  }

  /** So any stretch of records i to j of a successful run is itself a run. */
  lemma RunSlice<T>(dec: (seq<byte>, nat) -> Result<T>, data: seq<byte>, p: nat,
                    n: int, w: nat, i: nat, j: nat)
    requires Run(dec, data, p, n, w).Ok? && i <= j <= n
    ensures Run(dec, data, p + i * w, j - i, w) == Ok(Run(dec, data, p, n, w).value[i..j])
  {
    var xs := Run(dec, data, p, n, w).value;
    RunDrop(dec, data, p, n, w, i);
    RunTake(dec, data, p + i * w, n - i, w, j - i);
    assert xs[i..][..j - i] == xs[i..j];
  }

  /** When a record decodes exactly when its w bytes lie inside the file,
      a run succeeds exactly when its last record ends inside the file. */
  lemma {:induction false} RunFits<T>(dec: (seq<byte>, nat) -> Result<T>, data: seq<byte>,
                                      p: nat, n: int, w: nat)
    requires forall q: nat :: dec(data, q).Ok? <==> q + w <= |data|
    ensures Run(dec, data, p, n, w).Ok? <==> n <= 0 || p + n * w <= |data|
    decreases n
  {
    if n > 0 {
      RunFits(dec, data, p + w, n - 1, w);
      assert p + n * w == (p + w) + (n - 1) * w;
    }
  }

  // ---------------------------------------------------------------------
  // The lumps: seek to the lump's offset, then read size // k records.

  function Things(data: seq<byte>, offset: int, size: int): Result<seq<Thing>>
  {
    if offset < 0 then Fail(NegativeSeek) else Run(ThingAt, data, offset, size / 10, 10)
  }

  function Linedefs(data: seq<byte>, offset: int, size: int): Result<seq<Linedef>>
  {
    if offset < 0 then Fail(NegativeSeek) else Run(LinedefAt, data, offset, size / 14, 14)
  }

  function Sidedefs(data: seq<byte>, offset: int, size: int): Result<seq<Sidedef>>
  {
    if offset < 0 then Fail(NegativeSeek) else Run(SidedefAt, data, offset, size / 30, 30)
  }

  function Vertexes(data: seq<byte>, offset: int, size: int): Result<seq<Vec2>>
  {
    if offset < 0 then Fail(NegativeSeek) else Run(VertexAt, data, offset, size / 4, 4)
  }

  function Segs(data: seq<byte>, offset: int, size: int): Result<seq<Seg>>
  {
    if offset < 0 then Fail(NegativeSeek) else Run(SegAt, data, offset, size / 12, 12)
  }

  function Subsectors(data: seq<byte>, offset: int, size: int): Result<seq<Subsector>>
  {
    if offset < 0 then Fail(NegativeSeek) else Run(SubsectorAt, data, offset, size / 4, 4)
  }

  function Sectors(data: seq<byte>, offset: int, size: int): Result<seq<Sector>>
  {
    if offset < 0 then Fail(NegativeSeek) else Run(SectorAt, data, offset, size / 26, 26)
  }

  /** NODES is read while the cursor is before offset + size, whatever
      the size: a size that is not a multiple of 28 reads one record more,
      running past the lump. */
  function NodeRecords(data: seq<byte>, p: nat, end: int): Result<seq<RawNode>>
    decreases end - p
  {
    if p >= end then Ok([])
    else
      var node :- RawNodeAt(data, p);
      var rest :- NodeRecords(data, p + 28, end);
      Ok([node] + rest)
  }

  function Nodes(data: seq<byte>, offset: int, size: int): Result<seq<RawNode>>
  {
    if offset < 0 then Fail(NegativeSeek) else NodeRecords(data, offset, offset + size)
  }

  /** A NODES lump whose size is a multiple of 28 is read like the other
      lumps: size / 28 consecutive records. */
  lemma {:induction false} NodesWholeRecords(data: seq<byte>, p: nat, k: nat)
    ensures NodeRecords(data, p, p + 28 * k) == Run(RawNodeAt, data, p, k, 28)
    decreases k
  {
    if k > 0 {
      NodesWholeRecords(data, p + 28, k - 1);
      assert p + 28 + 28 * (k - 1) == p + 28 * k;
    }
  }

  /** In general the loop reads ceil((end - p) / 28) records. */
  lemma {:induction false} NodesCount(data: seq<byte>, p: nat, end: int)
    requires NodeRecords(data, p, end).Ok?
    ensures |NodeRecords(data, p, end).value| == if end <= p then 0 else (end - p + 27) / 28
    decreases end - p
  {
    if p < end {
      NodesCount(data, p + 28, end);
    }
  }

  // ---------------------------------------------------------------------
  // The loop bodies: one record read field by field with the cursor.

  method ReadThing(src: ByteSource) returns (r: Result<Thing>)
    modifies src
    ensures r == ThingAt(src.data, old(src.pos))
    ensures r.Ok? ==> src.pos == old(src.pos) + 10
  {
    var x :- src.ReadShort();
    var y :- src.ReadShort();
    var facing :- src.ReadShort();
    var kind :- src.ReadShort();
    var flags :- src.ReadShort();
    return Ok(Thing(Vec2(x, y), facing, kind, flags));
  }

  method ReadLinedef(src: ByteSource) returns (r: Result<Linedef>)
    modifies src
    ensures r == LinedefAt(src.data, old(src.pos))
    ensures r.Ok? ==> src.pos == old(src.pos) + 14
  {
    var start :- src.ReadShort();
    var end :- src.ReadShort();
    var flags :- src.ReadShort();
    var special :- src.ReadShort();
    var tag :- src.ReadShort();
    var front :- src.ReadShort();
    var back :- src.ReadShort();
    return Ok(Linedef(start, end, flags, special, tag, front, back));
  }

  method ReadSidedef(src: ByteSource) returns (r: Result<Sidedef>)
    modifies src
    ensures r == SidedefAt(src.data, old(src.pos))
    ensures r.Ok? ==> src.pos == old(src.pos) + 30
  {
    var xOffset :- src.ReadShort();
    var yOffset :- src.ReadShort();
    if src.pos + 8 <= |src.data| {
      NameTextIsName(src.data, src.pos, 8);
    }
    var upper :- src.Read8();
    if src.pos + 8 <= |src.data| {
      NameTextIsName(src.data, src.pos, 8);
    }
    var lower :- src.Read8();
    if src.pos + 8 <= |src.data| {
      NameTextIsName(src.data, src.pos, 8);
    }
    var middle :- src.Read8();
    var sector :- src.ReadShort();
    return Ok(Sidedef(xOffset, yOffset, Text(upper), Text(lower), Text(middle), sector));
  }

  method ReadVertex(src: ByteSource) returns (r: Result<Vec2>)
    modifies src
    ensures r == VertexAt(src.data, old(src.pos))
    ensures r.Ok? ==> src.pos == old(src.pos) + 4
  {
    var x :- src.ReadShort();
    var y :- src.ReadShort();
    return Ok(Vec2(x, y));
  }

  method ReadSeg(src: ByteSource) returns (r: Result<Seg>)
    modifies src
    ensures r == SegAt(src.data, old(src.pos))
    ensures r.Ok? ==> src.pos == old(src.pos) + 12
  {
    var start :- src.ReadShort();
    var end :- src.ReadShort();
    var angle :- src.ReadShort();
    var linedef :- src.ReadShort();
    var direction :- src.ReadShort();
    var offset :- src.ReadShort();
    return Ok(Seg(start, end, angle, linedef, direction, offset));
  }

  method ReadSubsector(src: ByteSource) returns (r: Result<Subsector>)
    modifies src
    ensures r == SubsectorAt(src.data, old(src.pos))
    ensures r.Ok? ==> src.pos == old(src.pos) + 4
  {
    var count :- src.ReadShort();
    var first :- src.ReadShort();
    return Ok(Subsector(count, first));
  }

  method ReadBox(src: ByteSource) returns (r: Result<Box>)
    modifies src
    ensures r == BoxAt(src.data, old(src.pos))
    ensures r.Ok? ==> src.pos == old(src.pos) + 8
  {
    var top :- src.ReadShort();
    var bottom :- src.ReadShort();
    var left :- src.ReadShort();
    var right :- src.ReadShort();
    return Ok(Box(Vec2(left, top), Vec2(right, bottom)));
  }

  method ReadRawNode(src: ByteSource) returns (r: Result<RawNode>)
    modifies src
    ensures r == RawNodeAt(src.data, old(src.pos))
    ensures r.Ok? ==> src.pos == old(src.pos) + 28
  {
    var xStart :- src.ReadShort();
    var yStart :- src.ReadShort();
    var xDiff :- src.ReadShort();
    var yDiff :- src.ReadShort();
    var rightBox :- ReadBox(src);
    var leftBox :- ReadBox(src);
    var rightChild :- src.ReadUnsignedShort();
    var leftChild :- src.ReadUnsignedShort();
    return Ok(RawNode(Vec2(xStart, yStart), Vec2(xDiff, yDiff), rightBox, leftBox,
                      rightChild, leftChild));
  }

  method ReadSector(src: ByteSource) returns (r: Result<Sector>)
    modifies src
    ensures r == SectorAt(src.data, old(src.pos))
    ensures r.Ok? ==> src.pos == old(src.pos) + 26
  {
    var floor :- src.ReadShort();
    var ceiling :- src.ReadShort();
    if src.pos + 8 <= |src.data| {
      NameTextIsName(src.data, src.pos, 8);
    }
    var floorTexture :- src.Read8();
    if src.pos + 8 <= |src.data| {
      NameTextIsName(src.data, src.pos, 8);
    }
    var ceilingTexture :- src.Read8();
    var light :- src.ReadShort();
    var special :- src.ReadShort();
    var tag :- src.ReadShort();
    return Ok(Sector(floor, ceiling, Text(floorTexture), Text(ceilingTexture), light, special, tag));
  }

  // ---------------------------------------------------------------------
  // The lump loops (__load_things and its siblings).

  method LoadThings(src: ByteSource, offset: int, size: int) returns (r: Result<seq<Thing>>)
    modifies src
    ensures r == Things(src.data, offset, size)
  {
    var count := size / 10;
    var s := src.Seek(offset);
    if s.Fail? {
      return Fail(s.error);
    }
    PrependNil(Run(ThingAt, src.data, src.pos, count, 10));
    ghost var whole := Things(src.data, offset, size);
    var rv: seq<Thing> := [];
    var i := 0;
    while i < count
      invariant whole == Prepend(rv, Run(ThingAt, src.data, src.pos, count - i, 10))
    {
      ghost var p := src.pos;
      var t := ReadThing(src);
      if t.Fail? {
        RunStop(ThingAt, src.data, p, count - i, 10, rv);
        return Fail(t.error);
      }
      RunAdvance(ThingAt, src.data, p, count - i, 10, rv, t.value, src.pos, count - (i + 1));
      rv := rv + [t.value];
      i := i + 1;
    }
    PrependDone(rv);
    return Ok(rv);
  }

  method LoadLinedefs(src: ByteSource, offset: int, size: int) returns (r: Result<seq<Linedef>>)
    modifies src
    ensures r == Linedefs(src.data, offset, size)
  {
    var count := size / 14;
    var s := src.Seek(offset);
    if s.Fail? {
      return Fail(s.error);
    }
    PrependNil(Run(LinedefAt, src.data, src.pos, count, 14));
    ghost var whole := Linedefs(src.data, offset, size);
    var rv: seq<Linedef> := [];
    var i := 0;
    while i < count
      invariant whole == Prepend(rv, Run(LinedefAt, src.data, src.pos, count - i, 14))
    {
      ghost var p := src.pos;
      var d := ReadLinedef(src);
      if d.Fail? {
        RunStop(LinedefAt, src.data, p, count - i, 14, rv);
        return Fail(d.error);
      }
      RunAdvance(LinedefAt, src.data, p, count - i, 14, rv, d.value, src.pos, count - (i + 1));
      rv := rv + [d.value];
      i := i + 1;
    }
    PrependDone(rv);
    return Ok(rv);
  }

  method LoadSidedefs(src: ByteSource, offset: int, size: int) returns (r: Result<seq<Sidedef>>)
    modifies src
    ensures r == Sidedefs(src.data, offset, size)
  {
    var count := size / 30;
    var s := src.Seek(offset);
    if s.Fail? {
      return Fail(s.error);
    }
    PrependNil(Run(SidedefAt, src.data, src.pos, count, 30));
    ghost var whole := Sidedefs(src.data, offset, size);
    var rv: seq<Sidedef> := [];
    var i := 0;
    while i < count
      invariant whole == Prepend(rv, Run(SidedefAt, src.data, src.pos, count - i, 30))
    {
      ghost var p := src.pos;
      var d := ReadSidedef(src);
      if d.Fail? {
        RunStop(SidedefAt, src.data, p, count - i, 30, rv);
        return Fail(d.error);
      }
      RunAdvance(SidedefAt, src.data, p, count - i, 30, rv, d.value, src.pos, count - (i + 1));
      rv := rv + [d.value];
      i := i + 1;
    }
    PrependDone(rv);
    return Ok(rv);
  }

  method LoadVertexes(src: ByteSource, offset: int, size: int) returns (r: Result<seq<Vec2>>)
    modifies src
    ensures r == Vertexes(src.data, offset, size)
  {
    var count := size / 4;
    var s := src.Seek(offset);
    if s.Fail? {
      return Fail(s.error);
    }
    PrependNil(Run(VertexAt, src.data, src.pos, count, 4));
    ghost var whole := Vertexes(src.data, offset, size);
    var rv: seq<Vec2> := [];
    var i := 0;
    while i < count
      invariant whole == Prepend(rv, Run(VertexAt, src.data, src.pos, count - i, 4))
    {
      ghost var p := src.pos;
      var v := ReadVertex(src);
      if v.Fail? {
        RunStop(VertexAt, src.data, p, count - i, 4, rv);
        return Fail(v.error);
      }
      RunAdvance(VertexAt, src.data, p, count - i, 4, rv, v.value, src.pos, count - (i + 1));
      rv := rv + [v.value];
      i := i + 1;
    }
    PrependDone(rv);
    return Ok(rv);
  }

  method LoadSegs(src: ByteSource, offset: int, size: int) returns (r: Result<seq<Seg>>)
    modifies src
    ensures r == Segs(src.data, offset, size)
  {
    var count := size / 12;
    var s := src.Seek(offset);
    if s.Fail? {
      return Fail(s.error);
    }
    PrependNil(Run(SegAt, src.data, src.pos, count, 12));
    ghost var whole := Segs(src.data, offset, size);
    var rv: seq<Seg> := [];
    var i := 0;
    while i < count
      invariant whole == Prepend(rv, Run(SegAt, src.data, src.pos, count - i, 12))
    {
      ghost var p := src.pos;
      var seg := ReadSeg(src);
      if seg.Fail? {
        RunStop(SegAt, src.data, p, count - i, 12, rv);
        return Fail(seg.error);
      }
      RunAdvance(SegAt, src.data, p, count - i, 12, rv, seg.value, src.pos, count - (i + 1));
      rv := rv + [seg.value];
      i := i + 1;
    }
    PrependDone(rv);
    return Ok(rv);
  }

  method LoadSubsectors(src: ByteSource, offset: int, size: int) returns (r: Result<seq<Subsector>>)
    modifies src
    ensures r == Subsectors(src.data, offset, size)
  {
    var count := size / 4;
    var s := src.Seek(offset);
    if s.Fail? {
      return Fail(s.error);
    }
    PrependNil(Run(SubsectorAt, src.data, src.pos, count, 4));
    ghost var whole := Subsectors(src.data, offset, size);
    var rv: seq<Subsector> := [];
    var i := 0;
    while i < count
      invariant whole == Prepend(rv, Run(SubsectorAt, src.data, src.pos, count - i, 4))
    {
      ghost var p := src.pos;
      var ss := ReadSubsector(src);
      if ss.Fail? {
        RunStop(SubsectorAt, src.data, p, count - i, 4, rv);
        return Fail(ss.error);
      }
      RunAdvance(SubsectorAt, src.data, p, count - i, 4, rv, ss.value, src.pos, count - (i + 1));
      rv := rv + [ss.value];
      i := i + 1;
    }
    PrependDone(rv);
    return Ok(rv);
  }

  method LoadNodes(src: ByteSource, offset: int, size: int) returns (r: Result<seq<RawNode>>)
    modifies src
    ensures r == Nodes(src.data, offset, size)
  {
    var s := src.Seek(offset);
    if s.Fail? {
      return Fail(s.error);
    }
    PrependNil(NodeRecords(src.data, src.pos, offset + size));
    ghost var whole := Nodes(src.data, offset, size);
    var rv: seq<RawNode> := [];
    while src.pos < offset + size
      invariant src.pos >= offset
      invariant whole == Prepend(rv, NodeRecords(src.data, src.pos, offset + size))
      decreases offset + size - src.pos
    {
      var node := ReadRawNode(src);
      if node.Fail? {
        return Fail(node.error);
      }
      PrependAppend(rv, [node.value], NodeRecords(src.data, src.pos, offset + size));
      rv := rv + [node.value];
    }
    PrependDone(rv);
    return Ok(rv);
  }

  method LoadSectors(src: ByteSource, offset: int, size: int) returns (r: Result<seq<Sector>>)
    modifies src
    ensures r == Sectors(src.data, offset, size)
  {
    var count := size / 26;
    var s := src.Seek(offset);
    if s.Fail? {
      return Fail(s.error);
    }
    PrependNil(Run(SectorAt, src.data, src.pos, count, 26));
    ghost var whole := Sectors(src.data, offset, size);
    var rv: seq<Sector> := [];
    var i := 0;
    while i < count
      invariant whole == Prepend(rv, Run(SectorAt, src.data, src.pos, count - i, 26))
    {
      ghost var p := src.pos;
      var sector := ReadSector(src);
      if sector.Fail? {
        RunStop(SectorAt, src.data, p, count - i, 26, rv);
        return Fail(sector.error);
      }
      RunAdvance(SectorAt, src.data, p, count - i, 26, rv, sector.value, src.pos, count - (i + 1));
      rv := rv + [sector.value];
      i := i + 1;
    }
    PrependDone(rv);
    return Ok(rv);
  }
}

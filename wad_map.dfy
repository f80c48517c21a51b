/** A level of the archive (WADMap in wadfile.py): the ten directory
    entries after the map marker, each lump decoded into the map object,
    and the vertex bounds. */
module WadMap {
  import opened Base
  import opened DataReaders
  import opened Datatypes
  import opened WadRecords
  import opened WadDirectory
  import opened WadTree

  /** What `load` has assigned so far; an attribute never assigned is None. */
  datatype Lumps = Lumps(things: Option<seq<Thing>>, linedefs: Option<seq<Linedef>>,
                         sidedefs: Option<seq<Sidedef>>, vertexes: Option<seq<Vec2>>,
                         segs: Option<seq<Seg>>, ssectors: Option<seq<Subsector>>,
                         nodes: Option<Node>, sectors: Option<seq<Sector>>)

  const NoLumps := Lumps(None, None, None, None, None, None, None, None)

  /** The number of directory entries `load` reads after the marker. */
  const MapLumpCount := 10

  /** One branch of the `if type == ...` chain: the lump named `kind`
      decoded from (offset, size) into its attribute. REJECT and BLOCKMAP
      load nothing and any other name is skipped. A failing decoder raises
      before its attribute is assigned. */
  function Dispatch(data: seq<byte>, offset: int, size: int, kind: string, acc: Lumps): Result<Lumps>
  {
    if kind == "THINGS" then
      var v :- Things(data, offset, size); Ok(acc.(things := Some(v)))
    else if kind == "LINEDEFS" then
      var v :- Linedefs(data, offset, size); Ok(acc.(linedefs := Some(v)))
    else if kind == "SIDEDEFS" then
      var v :- Sidedefs(data, offset, size); Ok(acc.(sidedefs := Some(v)))
    else if kind == "VERTEXES" then
      var v :- Vertexes(data, offset, size); Ok(acc.(vertexes := Some(v)))
    else if kind == "SEGS" then
      var v :- Segs(data, offset, size); Ok(acc.(segs := Some(v)))
    else if kind == "SSECTORS" then
      var v :- Subsectors(data, offset, size); Ok(acc.(ssectors := Some(v)))
    else if kind == "NODES" then
      var raw :- Nodes(data, offset, size);
      var tree :- BuildTree(raw);
      Ok(acc.(nodes := Some(tree)))
    else if kind == "SECTORS" then
      var v :- Sectors(data, offset, size); Ok(acc.(sectors := Some(v)))
    else Ok(acc)
  }

  /** What happens to the attributes for one directory entry. */
  type Step = (DirEntry, Lumps) -> Result<Lumps>

  /** The `if type == ...` chain over the file's bytes. */
  function Dispatcher(data: seq<byte>): Step
  {
    (e: DirEntry, acc: Lumps) => Dispatch(data, e.offset, e.size, e.name, acc)
  }

  /** The result of `load` from entry c on, with the entries at p: the
      attributes assigned, and the failure that stopped it, if any. */
  function LoadFrom(step: Step, data: seq<byte>, p: nat, c: nat, acc: Lumps): (Lumps, Result<()>)
    decreases MapLumpCount - c
  {
    if c >= MapLumpCount then (acc, Ok(()))
    else
      match EntryAt(data, p)
      case Fail(e) => (acc, Fail(e))
      case Ok(entry) =>
        match step(entry, acc)
        case Fail(e) => (acc, Fail(e))
        case Ok(next) => LoadFrom(step, data, p + 16, c + 1, next)
  }

  /** A run of directory entries, each applied in order. */
  function ApplyAll(step: Step, es: seq<DirEntry>, acc: Lumps): (Lumps, Result<()>)
  {
    if es == [] then (acc, Ok(()))
    else
      match step(es[0], acc)
      case Fail(e) => (acc, Fail(e))
      case Ok(next) => ApplyAll(step, es[1..], next)
  }

  /** The names the `if type == ...` chain recognises. */
  const LumpNames: set<string> :=
    {"THINGS", "LINEDEFS", "SIDEDEFS", "VERTEXES", "SEGS", "SSECTORS", "NODES", "SECTORS"}

  /** The attribute a lump name is loaded into, alone: every other
      attribute reads as unassigned. */
  function Only(l: Lumps, kind: string): (r: Lumps)
    ensures kind !in LumpNames ==> r == NoLumps
  {
    if kind == "THINGS" then NoLumps.(things := l.things)
    else if kind == "LINEDEFS" then NoLumps.(linedefs := l.linedefs)
    else if kind == "SIDEDEFS" then NoLumps.(sidedefs := l.sidedefs)
    else if kind == "VERTEXES" then NoLumps.(vertexes := l.vertexes)
    else if kind == "SEGS" then NoLumps.(segs := l.segs)
    else if kind == "SSECTORS" then NoLumps.(ssectors := l.ssectors)
    else if kind == "NODES" then NoLumps.(nodes := l.nodes)
    else if kind == "SECTORS" then NoLumps.(sectors := l.sectors)
    else NoLumps
  }

  /** Whether the attribute for `kind` has been assigned. */
  predicate Assigned(l: Lumps, kind: string)
  {
    Only(l, kind) != NoLumps
  }

  /** The attributes are determined by what each name's attribute holds. */
  lemma OnlyDetermines(l1: Lumps, l2: Lumps)
    requires forall kind :: kind in LumpNames ==> Only(l1, kind) == Only(l2, kind)
    ensures l1 == l2
  {
    assert Only(l1, "THINGS") == Only(l2, "THINGS");
    assert Only(l1, "LINEDEFS") == Only(l2, "LINEDEFS");
    assert Only(l1, "SIDEDEFS") == Only(l2, "SIDEDEFS");
    assert Only(l1, "VERTEXES") == Only(l2, "VERTEXES");
    assert Only(l1, "SEGS") == Only(l2, "SEGS");
    assert Only(l1, "SSECTORS") == Only(l2, "SSECTORS");
    assert Only(l1, "NODES") == Only(l2, "NODES");
    assert Only(l1, "SECTORS") == Only(l2, "SECTORS");
  }

  /** The last entry of `es` carrying `kind`, if any. */
  function LastNamed(es: seq<DirEntry>, kind: string): (r: Option<DirEntry>)
    ensures r.None? <==> forall k :: 0 <= k < |es| ==> es[k].name != kind
    ensures r.Some? ==> r.value.name == kind && r.value in es
  {
    if es == [] then None
    else
      match LastNamed(es[1..], kind)
      case Some(e) => Some(e)
      case None => if es[0].name == kind then Some(es[0]) else None
  }

  /** An unrecognised name (REJECT, BLOCKMAP or any other) assigns nothing. */
  lemma DispatchUnknown(data: seq<byte>, offset: int, size: int, kind: string, acc: Lumps)
    requires kind !in LumpNames
    ensures Dispatch(data, offset, size, kind, acc) == Ok(acc)
  {
  }

  /** One entry touches only the attribute of its own name, and what it
      stores there does not depend on the attributes assigned before. */
  lemma DispatchStep(data: seq<byte>, e: DirEntry, acc: Lumps, kind: string)
    requires Dispatch(data, e.offset, e.size, e.name, acc).Ok?
    ensures Dispatch(data, e.offset, e.size, e.name, NoLumps).Ok?
    ensures Only(Dispatch(data, e.offset, e.size, e.name, acc).value, kind)
            == if e.name == kind then Only(Dispatch(data, e.offset, e.size, kind, NoLumps).value, kind)
               else Only(acc, kind)
  {
    if e.name == kind {
      DispatchOwn(data, e.offset, e.size, kind, acc);
    } else {
      DispatchOther(data, e.offset, e.size, e.name, acc, kind);
    }
  }

  /** What an entry stores in its own attribute does not depend on the
      attributes assigned before. */
  lemma DispatchOwn(data: seq<byte>, offset: int, size: int, kind: string, acc: Lumps)
    requires Dispatch(data, offset, size, kind, acc).Ok?
    ensures Dispatch(data, offset, size, kind, NoLumps).Ok?
    ensures Only(Dispatch(data, offset, size, kind, acc).value, kind)
            == Only(Dispatch(data, offset, size, kind, NoLumps).value, kind)
  {
  }

  /** An entry leaves every other name's attribute as it was. */
  lemma DispatchOther(data: seq<byte>, offset: int, size: int, name: string, acc: Lumps, kind: string)
    requires name != kind && Dispatch(data, offset, size, name, acc).Ok?
    ensures Dispatch(data, offset, size, name, NoLumps).Ok?
    ensures Only(Dispatch(data, offset, size, name, acc).value, kind) == Only(acc, kind)
  {
    var out := Dispatch(data, offset, size, name, acc).value;
    if name in LumpNames {
      assert out.things == acc.things || name == "THINGS";
      assert out.linedefs == acc.linedefs || name == "LINEDEFS";
      assert out.sidedefs == acc.sidedefs || name == "SIDEDEFS";
      assert out.vertexes == acc.vertexes || name == "VERTEXES";
      assert out.segs == acc.segs || name == "SEGS";
      assert out.ssectors == acc.ssectors || name == "SSECTORS";
      assert out.nodes == acc.nodes || name == "NODES";
      assert out.sectors == acc.sectors || name == "SECTORS";
    } else {
      DispatchUnknown(data, offset, size, name, acc);
      DispatchUnknown(data, offset, size, name, NoLumps);
    }
  }

  /** Dispatch is by name: after a run of entries, the attribute for each
      name holds the decode of the last entry carrying that name, and is
      untouched when no entry carries it. */
  lemma {:induction false} ApplyAllByName(data: seq<byte>, es: seq<DirEntry>, acc: Lumps, kind: string)
    requires ApplyAll(Dispatcher(data), es, acc).1.Ok?
    ensures var out := ApplyAll(Dispatcher(data), es, acc).0;
            match LastNamed(es, kind)
            case None => Only(out, kind) == Only(acc, kind)
            case Some(e) =>
              Dispatch(data, e.offset, e.size, kind, NoLumps).Ok?
              && Only(out, kind) == Only(Dispatch(data, e.offset, e.size, kind, NoLumps).value, kind)
  {
    if es != [] {
      var next := Dispatch(data, es[0].offset, es[0].size, es[0].name, acc).value;
      DispatchStep(data, es[0], acc, kind);
      ApplyAllByName(data, es[1..], next, kind);
    }
  }

  /** A fresh map gets an attribute exactly when some entry carries its name. */
  lemma ApplyAllAssigns(data: seq<byte>, es: seq<DirEntry>, kind: string)
    requires ApplyAll(Dispatcher(data), es, NoLumps).1.Ok? && kind in LumpNames
    ensures Assigned(ApplyAll(Dispatcher(data), es, NoLumps).0, kind)
            <==> exists k :: 0 <= k < |es| && es[k].name == kind
  {
    ApplyAllByName(data, es, NoLumps, kind);
    match LastNamed(es, kind)
    case None =>
      assert Only(NoLumps, kind) == NoLumps;
    case Some(e) =>
      DispatchAssigns(data, e.offset, e.size, kind);
      assert e in es;
  }

  /** A recognised name that decodes assigns its attribute. */
  lemma DispatchAssigns(data: seq<byte>, offset: int, size: int, kind: string)
    requires kind in LumpNames && Dispatch(data, offset, size, kind, NoLumps).Ok?
    ensures Assigned(Dispatch(data, offset, size, kind, NoLumps).value, kind)
  {
  }

  /** The order of the entries does not matter beyond which entry comes
      last for each name. */
  lemma ApplyAllOrderFree(data: seq<byte>, es: seq<DirEntry>, fs: seq<DirEntry>, acc: Lumps)
    requires ApplyAll(Dispatcher(data), es, acc).1.Ok? && ApplyAll(Dispatcher(data), fs, acc).1.Ok?
    requires forall kind :: kind in LumpNames ==> LastNamed(es, kind) == LastNamed(fs, kind)
    ensures ApplyAll(Dispatcher(data), es, acc).0 == ApplyAll(Dispatcher(data), fs, acc).0
  {
    forall kind | kind in LumpNames
      ensures Only(ApplyAll(Dispatcher(data), es, acc).0, kind) == Only(ApplyAll(Dispatcher(data), fs, acc).0, kind)
    {
      ApplyAllByName(data, es, acc, kind);
      ApplyAllByName(data, fs, acc, kind);
    }
    OnlyDetermines(ApplyAll(Dispatcher(data), es, acc).0, ApplyAll(Dispatcher(data), fs, acc).0);
  }

  /** `load` applies exactly the entries it reads: entry c onwards. */
  lemma {:induction false} LoadFromEntries(step: Step, data: seq<byte>, p: nat, c: nat,
                                           es: seq<DirEntry>, acc: Lumps)
    requires c <= MapLumpCount && |es| == MapLumpCount - c
    requires Run(EntryAt, data, p, |es|, 16) == Ok(es)
    ensures LoadFrom(step, data, p, c, acc) == ApplyAll(step, es, acc)
    decreases MapLumpCount - c
  {
    if c < MapLumpCount {
      match step(es[0], acc)
      case Fail(e) =>
      case Ok(next) =>
        RunDrop(EntryAt, data, p, |es|, 16, 1);
        LoadFromEntries(step, data, p + 16, c + 1, es[1..], next);
    }
  }

  /** Ten entries after position i of a directory run: loading from just
      after entry i applies directory entries i + 1 to i + 10. */
  lemma LoadReadsNextTen(step: Step, data: seq<byte>, d: nat, n: int, lumps: seq<DirEntry>,
                         i: nat, acc: Lumps)
    requires Run(EntryAt, data, d, n, 16) == Ok(lumps) && i + MapLumpCount < |lumps|
    ensures LoadFrom(step, data, d + 16 * (i + 1), 0, acc)
            == ApplyAll(step, lumps[i + 1..i + 1 + MapLumpCount], acc)
  {
    NextTenRun(data, d, n, lumps, i);
    LoadFromEntries(step, data, d + 16 * (i + 1), 0, lumps[i + 1..i + 1 + MapLumpCount], acc);
  }

  /** The ten entries after entry i are a run of their own. */
  lemma NextTenRun(data: seq<byte>, d: nat, n: int, lumps: seq<DirEntry>, i: nat)
    requires Run(EntryAt, data, d, n, 16) == Ok(lumps) && i + MapLumpCount < |lumps|
    ensures Run(EntryAt, data, d + 16 * (i + 1), MapLumpCount, 16) == Ok(lumps[i + 1..i + 1 + MapLumpCount])
  {
    RunSlice(EntryAt, data, d, n, 16, i + 1, i + 1 + MapLumpCount);
    assert d + (i + 1) * 16 == d + 16 * (i + 1);
  }

  class WadMap {
    const name: string
    var things: Option<seq<Thing>>
    var linedefs: Option<seq<Linedef>>
    var sidedefs: Option<seq<Sidedef>>
    var vertexes: Option<seq<Vec2>>
    var segs: Option<seq<Seg>>
    var ssectors: Option<seq<Subsector>>
    var nodes: Option<Node>
    var sectors: Option<seq<Sector>>

    function Contents(): Lumps
      reads this
    {
      Lumps(things, linedefs, sidedefs, vertexes, segs, ssectors, nodes, sectors)
    }

    constructor(name: string)
      ensures this.name == name && Contents() == NoLumps
    {
      this.name := name;
      things, linedefs, sidedefs, vertexes := None, None, None, None;
      segs, ssectors, nodes, sectors := None, None, None, None;
    }

    /** One `if type == ...` branch. */
    method LoadLump(src: ByteSource, offset: int, size: int, kind: string) returns (r: Result<()>)
      modifies this, src
      ensures Dispatch(src.data, offset, size, kind, old(Contents()))
              == (if r.Ok? then Ok(Contents()) else Fail(r.error))
      ensures r.Fail? ==> Contents() == old(Contents())
    {
      if kind == "THINGS" {
        var v := LoadThings(src, offset, size);
        if v.Fail? { return Fail(v.error); }
        things := Some(v.value);
      } else if kind == "LINEDEFS" {
        var v := LoadLinedefs(src, offset, size);
        if v.Fail? { return Fail(v.error); }
        linedefs := Some(v.value);
      } else if kind == "SIDEDEFS" {
        var v := LoadSidedefs(src, offset, size);
        if v.Fail? { return Fail(v.error); }
        sidedefs := Some(v.value);
      } else if kind == "VERTEXES" {
        var v := LoadVertexes(src, offset, size);
        if v.Fail? { return Fail(v.error); }
        vertexes := Some(v.value);
      } else if kind == "SEGS" {
        var v := LoadSegs(src, offset, size);
        if v.Fail? { return Fail(v.error); }
        segs := Some(v.value);
      } else if kind == "SSECTORS" {
        var v := LoadSubsectors(src, offset, size);
        if v.Fail? { return Fail(v.error); }
        ssectors := Some(v.value);
      } else if kind == "NODES" {
        var raw := LoadNodes(src, offset, size);
        if raw.Fail? { return Fail(raw.error); }
        var tree := BuildTree(raw.value);
        if tree.Fail? { return Fail(tree.error); }
        nodes := Some(tree.value);
      } else if kind == "SECTORS" {
        var v := LoadSectors(src, offset, size);
        if v.Fail? { return Fail(v.error); }
        sectors := Some(v.value);
      }
      return Ok(());
    }

    /** load: the ten entries after the marker, each dispatched by name,
        the cursor put back after the entry before the next one. */
    method Load(src: ByteSource) returns (r: Result<()>)
      modifies this, src
      ensures (Contents(), r) == LoadFrom(Dispatcher(src.data), src.data, old(src.pos), 0, old(Contents()))
      ensures r.Ok? ==> src.pos == old(src.pos) + 16 * MapLumpCount
    {
      for c := 0 to MapLumpCount
        invariant LoadFrom(Dispatcher(src.data), src.data, old(src.pos), 0, old(Contents()))
                  == LoadFrom(Dispatcher(src.data), src.data, src.pos, c, Contents())
        invariant src.pos == old(src.pos) + 16 * c
      {
        var entry := ReadEntry(src);
        if entry.Fail? {
          return Fail(entry.error);
        }
        var offs := src.pos;
        var loaded := LoadLump(src, entry.value.offset, entry.value.size, entry.value.name);
        if loaded.Fail? {
          return loaded;
        }
        var back := src.Seek(offs);
      }
      return Ok(());
    }

    /** get_map_bounds: the least and greatest vertex coordinates. */
    function MapBounds(): (r: Result<Bounds>)
      reads this
      ensures r.Ok? <==> vertexes.Some? && |vertexes.value| > 0
      ensures r.Ok? ==> BoundsOf(vertexes.value, r.value)
    {
      if vertexes.None? then Fail(MissingLump)
      else VertexBounds(vertexes.value)
    }
  }

  /** A map extent: least and greatest x, least and greatest y. */
  datatype Bounds = Bounds(xMin: int, xMax: int, yMin: int, yMax: int)

  /** b is the tightest box around the points: each bound is attained and
      no point lies outside. */
  ghost predicate BoundsOf(vs: seq<Vec2>, b: Bounds)
  {
    (forall k :: 0 <= k < |vs| ==> b.xMin <= vs[k].x <= b.xMax && b.yMin <= vs[k].y <= b.yMax)
    && (exists k :: 0 <= k < |vs| && vs[k].x == b.xMin) && (exists k :: 0 <= k < |vs| && vs[k].x == b.xMax)
    && (exists k :: 0 <= k < |vs| && vs[k].y == b.yMin) && (exists k :: 0 <= k < |vs| && vs[k].y == b.yMax)
  }

  /** The first and last keys after sorting, as `sorted(...)[0]` and
      `[-1]`; an empty list fails on the subscript. */
  function VertexBounds(vs: seq<Vec2>): (r: Result<Bounds>)
    ensures r.Ok? <==> |vs| > 0
    ensures r.Fail? ==> r.error == IndexOutOfRange
    ensures r.Ok? ==> BoundsOf(vs, r.value)
  {
    if vs == [] then Fail(IndexOutOfRange)
    else
      var xs := seq(|vs|, k requires 0 <= k < |vs| => vs[k].x);
      var ys := seq(|vs|, k requires 0 <= k < |vs| => vs[k].y);
      var b := Bounds(Least(xs), Greatest(xs), Least(ys), Greatest(ys));
      assert forall k :: 0 <= k < |vs| ==> xs[k] == vs[k].x && ys[k] == vs[k].y;
      Ok(b)
  }

  function Least(s: seq<int>): (m: int)
    requires s != []
    ensures forall k :: 0 <= k < |s| ==> m <= s[k]
    ensures exists k :: 0 <= k < |s| && s[k] == m
  {
    if |s| == 1 then s[0]
    else
      var rest := Least(s[1..]);
      assert forall k :: 1 <= k < |s| ==> s[k] == s[1..][k - 1];
      if s[0] <= rest then s[0] else rest
  }

  function Greatest(s: seq<int>): (m: int)
    requires s != []
    ensures forall k :: 0 <= k < |s| ==> s[k] <= m
    ensures exists k :: 0 <= k < |s| && s[k] == m
  {
    if |s| == 1 then s[0]
    else
      var rest := Greatest(s[1..]);
      assert forall k :: 1 <= k < |s| ==> s[k] == s[1..][k - 1];
      if s[0] >= rest then s[0] else rest
  }
}

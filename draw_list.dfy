/** From the visible subsectors to screen lines (renderer.py): remap_x and
    remap_y, and __build_draw_list, which expands each subsector into its
    run of segs and maps both ends of every seg into the window. */
module DrawList {
  import opened Base
  import opened Datatypes
  import opened WadRecords
  import opened WadMap
  import opened Visibility

  /** The margin left on every side of the window: remap_x and remap_y map
      onto [30, WIDTH - 30] and [30, HEIGHT - 30]. */
  const Inset := 30

  /** What the renderer keeps for remapping: the map bounds it took from
      get_map_bounds, and the window size (WIDTH, HEIGHT). */
  datatype Projection = Projection(bounds: Bounds, width: int, height: int)

  /** One entry of the draw list: a seg's two ends in window coordinates. */
  datatype Line = Line(start: Vec2, end: Vec2)

  /** `max(lo, min(n, hi))`. */
  function Clamp(n: int, lo: int, hi: int): int
  {
    Max(lo, Min(n, hi))
  }

  function Abs(a: int): nat
  {
    if a < 0 then -a else a
  }

  /** Python's int() of the exact quotient a / b: the whole number nearest
      to a / b on the side of zero. */
  function Truncate(a: int, b: int): (q: int)
    requires b != 0
    ensures Abs(a - q * b) < Abs(b)
    ensures 0 <= q * b <= a || a <= q * b <= 0
  {
    var m := Abs(a) / Abs(b);
    TruncateSign(a, b, m);
    if (a >= 0) == (b > 0) then m else -m
  }

  /** The two candidates for Truncate: the quotient of the magnitudes, with
      the sign the operands' signs give it. */
  lemma TruncateSign(a: int, b: int, m: int)
    requires b != 0 && m == Abs(a) / Abs(b)
    ensures var q := if (a >= 0) == (b > 0) then m else -m;
            Abs(a - q * b) < Abs(b) && (0 <= q * b <= a || a <= q * b <= 0)
  {
    var p := m * Abs(b);
    DivMod(Abs(a), Abs(b));
    MulNonNegative(m, Abs(b));
    assert 0 <= Abs(a) - p < Abs(b);
    if b > 0 {
      assert m * b == p && -m * b == -p;
    } else {
      assert m * b == -p && -m * b == p;
    }
  }

  /** Euclidean division: a is q b plus a remainder below b. */
  lemma DivMod(a: int, b: int)
    requires b > 0
    ensures a == (a / b) * b + a % b && 0 <= a % b < b
  {
  }

  lemma MulNonNegative(x: int, y: int)
    requires x >= 0 && y >= 0
    ensures x * y >= 0
  {
  }

  /** Whole multiples of a positive b are at least b apart. */
  lemma MulGap(x: int, y: int, b: int)
    requires b > 0
    ensures x < y ==> x * b + b <= y * b
  {
    if x < y {
      MulNonNegative(y - x - 1, b);
      assert y * b - (x * b + b) == (y - x - 1) * b;
    }
  }

  /** The quotient is the one q with q b <= a < (q + 1) b. */
  lemma DivUnique(a: int, b: int, q: int)
    requires b > 0 && q * b <= a < q * b + b
    ensures q == a / b
  {
    var d := a / b;
    assert d * b <= a < d * b + b;
    MulGap(q, d, b);
    MulGap(d, q, b);
  }

  /** On a non-negative quotient Truncate is Dafny's floor division. */
  lemma TruncateFloor(a: int, b: int)
    requires a >= 0 && b > 0
    ensures Truncate(a, b) == a / b
  {
    var q := Truncate(a, b);
    assert 0 <= q * b <= a && a - q * b < b;
    DivUnique(a, b, q);
  }

  /** remap_x: the coordinate clamped to [x_min, x_max], scaled onto
      [Inset, width - Inset] and truncated; a map whose vertices share one
      x divides by zero. */
  function RemapX(proj: Projection, n: int): (r: Result<int>)
    ensures r.Fail? <==> proj.bounds.xMin == proj.bounds.xMax
    ensures r.Fail? ==> r.error == DivisionByZero
  {
    var lo, hi := proj.bounds.xMin, proj.bounds.xMax;
    var outMin, outMax := Inset, proj.width - Inset;
    if hi == lo then Fail(DivisionByZero)
    else Ok(Truncate((Clamp(n, lo, hi) - lo) * (outMax - outMin) + outMin * (hi - lo), hi - lo))
  }

  /** remap_y: the same scaling onto [Inset, height - Inset], turned upside
      down (`HEIGHT - ...`) since window rows grow downwards. */
  function RemapY(proj: Projection, n: int): (r: Result<int>)
    ensures r.Fail? <==> proj.bounds.yMin == proj.bounds.yMax
    ensures r.Fail? ==> r.error == DivisionByZero
  {
    var lo, hi := proj.bounds.yMin, proj.bounds.yMax;
    var outMin, outMax := Inset, proj.height - Inset;
    if hi == lo then Fail(DivisionByZero)
    else Ok(Truncate(proj.height * (hi - lo) - (Clamp(n, lo, hi) - lo) * (outMax - outMin) - outMin * (hi - lo),
                     hi - lo))
  }

  /** A map with some width, drawn into a window at least twice the margin
      wide. */
  predicate WideX(proj: Projection)
  {
    proj.bounds.xMin < proj.bounds.xMax && proj.width >= 2 * Inset
  }

  predicate WideY(proj: Projection)
  {
    proj.bounds.yMin < proj.bounds.yMax && proj.height >= 2 * Inset
  }

  /** a lies between lo b and hi b, so a / b lies between lo and hi. */
  lemma DivBetween(a: int, b: int, lo: int, hi: int)
    requires b > 0 && lo * b <= a <= hi * b
    ensures lo <= a / b <= hi
  {
    var d := a / b;
    assert d * b <= a < d * b + b;
    MulGap(d, lo, b);
    MulGap(hi, d, b);
  }

  lemma DivMonotone(a: int, a': int, b: int)
    requires b > 0 && a <= a'
    ensures a / b <= a' / b
  {
    var d, d' := a / b, a' / b;
    assert d * b <= a < d * b + b && d' * b <= a' < d' * b + b;
    MulGap(d', d, b);
  }

  lemma ScaleMonotone(c: int, c': int, s: int)
    requires c <= c' && s >= 0
    ensures c * s <= c' * s
  {
    assert c' * s - c * s == (c' - c) * s;
  }

  /** The numerator remap_x truncates, over the map width: the clamped
      offset scaled onto the window, plus the margin. */
  function XNum(proj: Projection, n: int): int
  {
    var lo, hi := proj.bounds.xMin, proj.bounds.xMax;
    (Clamp(n, lo, hi) - lo) * (proj.width - 2 * Inset) + Inset * (hi - lo)
  }

  /** The numerator remap_y truncates: the window height less the scaled
      offset and the margin. */
  function YNum(proj: Projection, n: int): int
  {
    var lo, hi := proj.bounds.yMin, proj.bounds.yMax;
    (proj.height - Inset) * (hi - lo) - (Clamp(n, lo, hi) - lo) * (proj.height - 2 * Inset)
  }

  /** remap_x is floor division of XNum, which lies between Inset and
      width - Inset times the map width. */
  lemma ScaledX(proj: Projection, n: int)
    requires WideX(proj)
    ensures var w := proj.bounds.xMax - proj.bounds.xMin;
            RemapX(proj, n) == Ok(XNum(proj, n) / w)
            && Inset * w <= XNum(proj, n) <= (proj.width - Inset) * w
  {
    var lo, hi := proj.bounds.xMin, proj.bounds.xMax;
    var s := proj.width - 2 * Inset;
    var c := Clamp(n, lo, hi) - lo;
    ScaleMonotone(0, c, s);
    ScaleMonotone(c, hi - lo, s);
    assert (hi - lo) * s + Inset * (hi - lo) == (proj.width - Inset) * (hi - lo);
    TruncateFloor(XNum(proj, n), hi - lo);
  }

  lemma XNumMonotone(proj: Projection, n: int, n': int)
    requires WideX(proj) && n <= n'
    ensures XNum(proj, n) <= XNum(proj, n')
  {
    var lo, hi := proj.bounds.xMin, proj.bounds.xMax;
    ScaleMonotone(Clamp(n, lo, hi) - lo, Clamp(n', lo, hi) - lo, proj.width - 2 * Inset);
  }

  /** For a map with some width, remap_x lands inside the window's margins. */
  lemma RemapXOnScreen(proj: Projection, n: int)
    requires WideX(proj)
    ensures RemapX(proj, n).Ok? && Inset <= RemapX(proj, n).value <= proj.width - Inset
  {
    ScaledX(proj, n);
    DivBetween(XNum(proj, n), proj.bounds.xMax - proj.bounds.xMin, Inset, proj.width - Inset);
  }

  /** remap_x never decreases as the coordinate grows. */
  lemma RemapXMonotone(proj: Projection, n: int, n': int)
    requires WideX(proj) && n <= n'
    ensures RemapX(proj, n).value <= RemapX(proj, n').value
  {
    ScaledX(proj, n);
    ScaledX(proj, n');
    XNumMonotone(proj, n, n');
    DivMonotone(XNum(proj, n), XNum(proj, n'), proj.bounds.xMax - proj.bounds.xMin);
  }

  /** The map's left edge (and anything left of it) goes to the left
      margin, its right edge (and beyond) to the right margin. */
  lemma RemapXEnds(proj: Projection, n: int)
    requires WideX(proj)
    ensures n <= proj.bounds.xMin ==> RemapX(proj, n) == Ok(Inset)
    ensures n >= proj.bounds.xMax ==> RemapX(proj, n) == Ok(proj.width - Inset)
  {
    var lo, hi := proj.bounds.xMin, proj.bounds.xMax;
    ScaledX(proj, n);
    if n <= lo {
      assert XNum(proj, n) == Inset * (hi - lo);
      DivUnique(Inset * (hi - lo), hi - lo, Inset);
    }
    if n >= hi {
      assert XNum(proj, n) == (hi - lo) * (proj.width - 2 * Inset) + Inset * (hi - lo);
      assert XNum(proj, n) == (proj.width - Inset) * (hi - lo);
      DivUnique((proj.width - Inset) * (hi - lo), hi - lo, proj.width - Inset);
    }
  }

  /** remap_y is floor division of YNum, which lies between Inset and
      height - Inset times the map height. */
  lemma ScaledY(proj: Projection, n: int)
    requires WideY(proj)
    ensures var h := proj.bounds.yMax - proj.bounds.yMin;
            RemapY(proj, n) == Ok(YNum(proj, n) / h)
            && Inset * h <= YNum(proj, n) <= (proj.height - Inset) * h
  {
    var lo, hi := proj.bounds.yMin, proj.bounds.yMax;
    var s := proj.height - 2 * Inset;
    var c := Clamp(n, lo, hi) - lo;
    ScaleMonotone(0, c, s);
    ScaleMonotone(c, hi - lo, s);
    assert proj.height * (hi - lo) - c * s - Inset * (hi - lo) == YNum(proj, n);
    assert (proj.height - Inset) * (hi - lo) - (hi - lo) * s == Inset * (hi - lo);
    TruncateFloor(YNum(proj, n), hi - lo);
  }

  lemma YNumMonotone(proj: Projection, n: int, n': int)
    requires WideY(proj) && n <= n'
    ensures YNum(proj, n') <= YNum(proj, n)
  {
    var lo, hi := proj.bounds.yMin, proj.bounds.yMax;
    ScaleMonotone(Clamp(n, lo, hi) - lo, Clamp(n', lo, hi) - lo, proj.height - 2 * Inset);
  }

  /** For a map with some height, remap_y lands inside the window's
      margins. */
  lemma RemapYOnScreen(proj: Projection, n: int)
    requires WideY(proj)
    ensures RemapY(proj, n).Ok? && Inset <= RemapY(proj, n).value <= proj.height - Inset
  {
    ScaledY(proj, n);
    DivBetween(YNum(proj, n), proj.bounds.yMax - proj.bounds.yMin, Inset, proj.height - Inset);
  }

  /** remap_y never increases as the coordinate grows: north is up. */
  lemma RemapYMonotone(proj: Projection, n: int, n': int)
    requires WideY(proj) && n <= n'
    ensures RemapY(proj, n').value <= RemapY(proj, n).value
  {
    ScaledY(proj, n);
    ScaledY(proj, n');
    YNumMonotone(proj, n, n');
    DivMonotone(YNum(proj, n'), YNum(proj, n), proj.bounds.yMax - proj.bounds.yMin);
  }

  /** The map's bottom edge goes to the bottom margin, its top edge to the
      top margin. */
  lemma RemapYEnds(proj: Projection, n: int)
    requires WideY(proj)
    ensures n <= proj.bounds.yMin ==> RemapY(proj, n) == Ok(proj.height - Inset)
    ensures n >= proj.bounds.yMax ==> RemapY(proj, n) == Ok(Inset)
  {
    var lo, hi := proj.bounds.yMin, proj.bounds.yMax;
    ScaledY(proj, n);
    if n <= lo {
      assert YNum(proj, n) == (proj.height - Inset) * (hi - lo);
      DivUnique((proj.height - Inset) * (hi - lo), hi - lo, proj.height - Inset);
    }
    if n >= hi {
      assert YNum(proj, n) == (proj.height - Inset) * (hi - lo) - (hi - lo) * (proj.height - 2 * Inset);
      assert YNum(proj, n) == Inset * (hi - lo);
      DivUnique(Inset * (hi - lo), hi - lo, Inset);
    }
  }

  // ---------------------------------------------------------------------
  // __build_draw_list

  /** A subscript of a map attribute: one `load` never assigned raises
      AttributeError; otherwise Python list indexing. */
  function Lookup<T>(o: Option<seq<T>>, i: int): (r: Result<T>)
    ensures r.Ok? <==> o.Some? && -|o.value| <= i < |o.value|
    ensures o.Some? && 0 <= i < |o.value| ==> r == Ok(o.value[i])
  {
    if o.None? then Fail(MissingLump) else PyIndex(o.value, i)
  }

  /** `SEGS[c + first]` for c from `from` up to (not including) count. */
  function SegRun(segs: Option<seq<Seg>>, first: int, from: int, count: int): (r: Result<seq<Seg>>)
    ensures r.Ok? ==> |r.value| == Max(count - from, 0)
    decreases count - from
  {
    if from >= count then Ok([])
    else
      var s :- Lookup(segs, first + from);
      Prepend([s], SegRun(segs, first, from + 1, count))
  }

  /** The segs one subsector contributes: its record's count of them,
      starting at its first seg. */
  function SubsectorSegs(lumps: Lumps, ssc: int): Result<seq<Seg>>
  {
    var s :- Lookup(lumps.ssectors, ssc);
    SegRun(lumps.segs, s.firstSeg, 0, s.segCount)
  }

  /** The seg list of a run of subsectors, in order. */
  function SegsOf(lumps: Lumps, ids: seq<int>): Result<seq<Seg>>
  {
    if ids == [] then Ok([])
    else
      var run :- SubsectorSegs(lumps, ids[0]);
      Prepend(run, SegsOf(lumps, ids[1..]))
  }

  /** One seg as a line: both vertices looked up, then x and y of the start
      remapped, then those of the end. */
  function Project(lumps: Lumps, proj: Projection, seg: Seg): Result<Line>
  {
    var sv :- Lookup(lumps.vertexes, seg.start);
    var ev :- Lookup(lumps.vertexes, seg.end);
    var sx :- RemapX(proj, sv.x);
    var sy :- RemapY(proj, sv.y);
    Ok(Line(Vec2(sx, sy), Vec2(RemapX(proj, ev.x).value, RemapY(proj, ev.y).value)))
  }

  function DrawLines(lumps: Lumps, proj: Projection, segs: seq<Seg>): Result<seq<Line>>
  {
    if segs == [] then Ok([])
    else
      var line :- Project(lumps, proj, segs[0]);
      Prepend([line], DrawLines(lumps, proj, segs[1..]))
  }

  /** __build_draw_list: walk the tree from the root, list the segs of the
      'LEFT' subsectors and then of the 'RIGHT' ones, and project every seg. */
  function DrawList(lumps: Lumps, viewer: Viewer, proj: Projection): Result<seq<Line>>
  {
    if lumps.nodes.None? then Fail(MissingLump)
    else
      var found :- Walk(lumps.nodes.value, viewer);
      var segs :- SegsOf(lumps, found.left + found.right);
      DrawLines(lumps, proj, segs)
  }

  /** A subsector whose segs lie inside the list contributes exactly
      SEGS[first .. first + count), in order. */
  lemma {:induction false} SegRunSlice(segs: seq<Seg>, first: int, from: int, count: int)
    requires 0 <= first && 0 <= from <= count && first + count <= |segs|
    ensures SegRun(Some(segs), first, from, count) == Ok(segs[first + from..first + count])
    decreases count - from
  {
    if from < count {
      assert Lookup(Some(segs), first + from) == Ok(segs[first + from]);
      SegRunSlice(segs, first, from + 1, count);
      assert segs[first + from..first + count] == [segs[first + from]] + segs[first + from + 1..first + count];
    } else {
      assert segs[first + from..first + count] == [];
    }
  }

  /** The segs of the 'LEFT' subsectors all come before those of the
      'RIGHT' ones. */
  lemma {:induction false} SegsOfAppend(lumps: Lumps, l: seq<int>, r: seq<int>)
    ensures SegsOf(lumps, l + r)
            == (if SegsOf(lumps, l).Fail? then SegsOf(lumps, l)
                else Prepend(SegsOf(lumps, l).value, SegsOf(lumps, r)))
    decreases |l|
  {
    if l == [] {
      assert l + r == r;
      PrependNil(SegsOf(lumps, r));
    } else {
      assert (l + r)[0] == l[0] && (l + r)[1..] == l[1..] + r;
      SegsOfAppend(lumps, l[1..], r);
      var run := SubsectorSegs(lumps, l[0]);
      if run.Ok? && SegsOf(lumps, l[1..]).Ok? {
        PrependAppend(run.value, SegsOf(lumps, l[1..]).value, SegsOf(lumps, r));
      }
    }
  }

  /** How many segs the subsectors name: each record's count, a negative
      count giving none. */
  function SegTotal(lumps: Lumps, ids: seq<int>): int
  {
    if ids == [] then 0
    else
      var s := Lookup(lumps.ssectors, ids[0]);
      (if s.Ok? then Max(s.value.segCount, 0) else 0) + SegTotal(lumps, ids[1..])
  }

  /** The seg list is as long as the subsectors' counts add up to. */
  lemma {:induction false} SegsOfLength(lumps: Lumps, ids: seq<int>)
    requires SegsOf(lumps, ids).Ok?
    ensures |SegsOf(lumps, ids).value| == SegTotal(lumps, ids)
  {
    if ids != [] {
      SegsOfLength(lumps, ids[1..]);
    }
  }

  /** One line per seg, line k projected from seg k. */
  lemma {:induction false} DrawLinesShape(lumps: Lumps, proj: Projection, segs: seq<Seg>)
    requires DrawLines(lumps, proj, segs).Ok?
    ensures var lines := DrawLines(lumps, proj, segs).value;
            |lines| == |segs| && forall k :: 0 <= k < |segs| ==> Project(lumps, proj, segs[k]) == Ok(lines[k])
  {
    if segs != [] {
      DrawLinesShape(lumps, proj, segs[1..]);
      var lines := DrawLines(lumps, proj, segs).value;
      assert lines[1..] == DrawLines(lumps, proj, segs[1..]).value;
      forall k | 0 < k < |segs|
        ensures Project(lumps, proj, segs[k]) == Ok(lines[k])
      {
        assert segs[k] == segs[1..][k - 1] && lines[k] == lines[1..][k - 1];
      }
    }
  }

  predicate OnScreen(proj: Projection, p: Vec2)
  {
    Inset <= p.x <= proj.width - Inset && Inset <= p.y <= proj.height - Inset
  }

  /** For a map with some width and height, every line drawn lies within
      the window's margins. */
  lemma DrawListOnScreen(lumps: Lumps, viewer: Viewer, proj: Projection)
    requires WideX(proj) && WideY(proj)
    requires DrawList(lumps, viewer, proj).Ok?
    ensures forall l :: l in DrawList(lumps, viewer, proj).value ==> OnScreen(proj, l.start) && OnScreen(proj, l.end)
  {
    var found := Walk(lumps.nodes.value, viewer).value;
    var segs := SegsOf(lumps, found.left + found.right).value;
    var lines := DrawList(lumps, viewer, proj).value;
    DrawLinesShape(lumps, proj, segs);
    forall l | l in lines
      ensures OnScreen(proj, l.start) && OnScreen(proj, l.end)
    {
      var k :| 0 <= k < |lines| && lines[k] == l;
      var sv := Lookup(lumps.vertexes, segs[k].start).value;
      var ev := Lookup(lumps.vertexes, segs[k].end).value;
      RemapXOnScreen(proj, sv.x);
      RemapYOnScreen(proj, sv.y);
      RemapXOnScreen(proj, ev.x);
      RemapYOnScreen(proj, ev.y);
    }
  }

  /** The inner loop over one subsector: look its record up, then append
      `SEGS[c + first]` for each c below its count. */
  method ExtendWithSubsector(lumps: Lumps, segList: seq<Seg>, ssc: int) returns (r: Result<seq<Seg>>)
    ensures r == Prepend(segList, SubsectorSegs(lumps, ssc))
  {
    var subsect := Lookup(lumps.ssectors, ssc);
    if subsect.Fail? {
      return Fail(subsect.error);
    }
    var first, count := subsect.value.firstSeg, subsect.value.segCount;
    var out := segList;
    var c := 0;
    while c < count
      invariant Prepend(segList, SegRun(lumps.segs, first, 0, count)) == Prepend(out, SegRun(lumps.segs, first, c, count))
      decreases count - c
    {
      var seg := Lookup(lumps.segs, first + c);
      if seg.Fail? {
        return Fail(seg.error);
      }
      PrependAppend(out, [seg.value], SegRun(lumps.segs, first, c + 1, count));
      out := out + [seg.value];
      c := c + 1;
    }
    PrependDone(out);
    return Ok(out);
  }

  /** __build_draw_list, loop by loop. */
  method BuildDrawList(m: WadMap, viewer: Viewer, proj: Projection) returns (r: Result<seq<Line>>)
    ensures r == DrawList(m.Contents(), viewer, proj)
  {
    var lumps := m.Contents();
    if m.nodes.None? {
      return Fail(MissingLump);
    }
    var walked := WalkTree(m.nodes.value, viewer);
    if walked.Fail? {
      return Fail(walked.error);
    }
    var ssectors := walked.value;
    ghost var whole := SegsOf(lumps, ssectors.left + ssectors.right);
    var segList: seq<Seg> := [];
    PrependNil(whole);
    assert ssectors.left[0..] == ssectors.left;
    for i := 0 to |ssectors.left|
      invariant whole == Prepend(segList, SegsOf(lumps, ssectors.left[i..] + ssectors.right))
    {
      ghost var ids := ssectors.left[i..] + ssectors.right;
      assert ids[0] == ssectors.left[i] && ids[1..] == ssectors.left[i + 1..] + ssectors.right;
      var next := ExtendWithSubsector(lumps, segList, ssectors.left[i]);
      if next.Fail? {
        return Fail(next.error);
      }
      PrependAppend(segList, SubsectorSegs(lumps, ssectors.left[i]).value, SegsOf(lumps, ids[1..]));
      segList := next.value;
    }
    assert ssectors.left[|ssectors.left|..] + ssectors.right == ssectors.right[0..];
    for j := 0 to |ssectors.right|
      invariant whole == Prepend(segList, SegsOf(lumps, ssectors.right[j..]))
    {
      ghost var ids := ssectors.right[j..];
      assert ids[0] == ssectors.right[j] && ids[1..] == ssectors.right[j + 1..];
      var next := ExtendWithSubsector(lumps, segList, ssectors.right[j]);
      if next.Fail? {
        return Fail(next.error);
      }
      PrependAppend(segList, SubsectorSegs(lumps, ssectors.right[j]).value, SegsOf(lumps, ids[1..]));
      segList := next.value;
    }
    PrependDone(segList);
    ghost var lines := DrawLines(lumps, proj, segList);
    var drawList: seq<Line> := [];
    PrependNil(lines);
    assert segList[0..] == segList;
    for k := 0 to |segList|
      invariant lines == Prepend(drawList, DrawLines(lumps, proj, segList[k..]))
    {
      assert segList[k..][1..] == segList[k + 1..];
      var line := Project(lumps, proj, segList[k]);
      if line.Fail? {
        return Fail(line.error);
      }
      PrependAppend(drawList, [line.value], DrawLines(lumps, proj, segList[k + 1..]));
      drawList := drawList + [line.value];
    }
    PrependDone(drawList);
    return Ok(drawList);
  }
}

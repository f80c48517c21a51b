# A verified model of a Python Doom map loader and BSP visibility walk

This project models the core of a small Python Doom map viewer. It covers
three parts:

- **Byte readers** (`data_readers.py`): fixed-width little-endian fields read
  from a file object whose cursor each read advances.
- **The WAD archive** (`wadfile.py`):
  - the 12-byte header and the 16-byte directory entries;
  - the search for a map marker by name;
  - the loading of the ten lumps after the marker into a map object;
  - the fixed-size record decoders;
  - the construction of the BSP tree from the NODES records;
  - the vertex bounds of a map.
- **The visibility query** (`renderer.py`):
  - the cross-product side test against a node's splitter;
  - the region selection and loop of the bounding-box field-of-view test;
  - the recursive tree walk that collects subsectors;
  - the draw list, which expands each subsector into its run of segs and
    maps every vertex into the window with `remap_x`/`remap_y`.

The model follows the source's form:

- The file object is a class `ByteSource` with the file's bytes and a cursor
  `pos`.
- The map object is a class `WadMap` whose optional attributes the loading
  methods assign.
- Loops that append to lists, such as the lump loaders, the directory loop,
  the `ssectors` dictionary of `__walk_tree` and the seg and draw lists, are
  methods with loops.
- Each method is proved equal to a function that says what it computes.
  The properties are proved about those functions.
- Python exceptions are the `Fail` cases of a `Result`, one `Error` value
  per cause:
  - a short read (`struct.error`, or `ord(b'')` in `read_8`);
  - a negative seek;
  - an index out of range;
  - unbounded recursion;
  - a division by zero;
  - a subsector handed to the walk;
  - a map attribute never assigned (`AttributeError`).

Modules, one per file:

| file | module | what it holds |
|---|---|---|
| base.dfy | Base | bytes, `Error`, `Result`, `Option`, Python list indexing, `Prepend` (a list in front of a result) |
| data_readers.dfy | DataReaders | `ByteSource` and its readers, decoding and encoding of fields, round trips |
| datatypes.dfy | Datatypes | `Vec2`, `Box`, the BSP `Node` |
| wad_records.dfy | WadRecords | the eight record kinds, their decoders, runs of records, the lump loaders |
| wad_directory.dfy | WadDirectory | header, directory entries, the directory loop, `get_entry_named` |
| wad_tree.dfy | WadTree | `__make_node` and `__build_tree`, and the tree the records describe |
| wad_map.dfy | WadMap | `WADMap`: the ten-entry load and `get_map_bounds` |
| wad_file.dfy | WadFile | `WADFile`: opening an archive and `load_map` |
| visibility.dfy | Visibility | side test, field-of-view test, `__walk_tree` |
| draw_list.dfy | DrawList | `remap_x`, `remap_y`, `__build_draw_list` |

Behaviour worth knowing, as the code has it:

- `read_8` drops every zero byte of the eight, not only the trailing padding.
- `read_4` itself never fails: near the end of the file it returns empty
  reads. The header then fails on `ord` of an empty read, so a header fails
  exactly when its twelve bytes are not all in the file.
- The NODES loop reads records while the cursor is before `offset + size`.
  A size that is not a multiple of 28 therefore reads one record more than
  `size // 28`.
- `__make_node` indexes the raw records with a Python subscript. Child
  references are read as unsigned shorts, so the only negative index is the
  root's `len(nodemap) - 1` of an empty NODES list, and that subscript
  raises `IndexError` (`BuildTreeEmpty`). A reference past the end raises
  `IndexError` too. A reference cycle recurses until Python's recursion
  limit. The model counts recursion with a fuel of one level per record,
  which runs out exactly when the references loop, and proves that a list
  whose children precede their parents always builds.
- `__walk_tree` labels each collected subsector by the side it hangs on
  below its own parent. Left children go to `'LEFT'` and right children to
  `'RIGHT'`, at every depth, because each recursive result is merged side by
  side (`WalkLabels`).
- When the near child of a node is a leaf, that leaf is the whole answer and
  the far box is never checked. On the front side, a far left child that is a
  leaf is never collected.
- `remap_x` and `remap_y` divide by the map's width and height. A map whose
  vertices all share one x (or one y) raises `ZeroDivisionError`.

## Model

| member | source | states |
|---|---|---|
| DataReaders.S16 | data_readers.py:26-33 | a two-byte signed value lies in [-32768, 32767] and is negative exactly when the high byte's top bit is set |
| DataReaders.IntAt | data_readers.py:17-24 | read_int succeeds exactly when four bytes remain, fails with a short read otherwise, and yields a value in [-2^31, 2^31) |
| DataReaders.ShortAt | data_readers.py:26-33 | read_short succeeds exactly when two bytes remain and yields a value in [-32768, 32767] |
| DataReaders.UShortAt | data_readers.py:44-51 | read_unsigned_short succeeds exactly when two bytes remain and yields a value in [0, 65535] |
| DataReaders.UByteAt | data_readers.py:35-42 | read_unsigned_byte succeeds exactly when a byte remains and yields a value in [0, 255] |
| DataReaders.NonZero | data_readers.py:9-15 | the bytes read_8 keeps are all non-zero and no more than were read |
| DataReaders.NameAt | data_readers.py:9-15 | read_8 succeeds exactly when eight bytes remain and yields at most eight bytes |
| DataReaders.ByteSource.Read4 | data_readers.py:3-7 | read_4 returns the next bytes in file order, up to four, fewer only at the end of the file, and moves the cursor by as many |
| DataReaders.ByteSource.Read8 | data_readers.py:9-15 | read_8 yields the non-zero bytes among the next eight in order, fails when a read comes back empty, and moves the cursor by eight on success, to the end of the file otherwise |
| DataReaders.ByteSource.ReadInt | data_readers.py:17-24 | the result is the little-endian two's-complement int at the cursor, or a short-read failure; the cursor moves by four on success, otherwise to the end of the file (staying put if already past it) |
| DataReaders.ByteSource.ReadShort | data_readers.py:26-33 | the result is the signed short at the cursor, or a short-read failure; the cursor moves by two on success, otherwise to the end of the file (staying put if already past it) |
| DataReaders.ByteSource.ReadUnsignedByte | data_readers.py:35-42 | the result is the byte at the cursor, or a short-read failure; the cursor moves by one on success, otherwise to the end of the file (staying put if already past it) |
| DataReaders.ByteSource.ReadUnsignedShort | data_readers.py:44-51 | the result is the unsigned short at the cursor, or a short-read failure; the cursor moves by two on success, otherwise to the end of the file (staying put if already past it) |
| DataReaders.ShortRoundTrip | data_readers.py:26-33 | reading a short where an encoded short sits gives the value back |
| DataReaders.UShortRoundTrip | data_readers.py:44-51 | reading an unsigned short where an encoded one sits gives the value back |
| DataReaders.IntRoundTrip | data_readers.py:17-24 | reading an int where an encoded int sits gives the value back |
| DataReaders.ShortBytesRoundTrip | data_readers.py:26-33 | encoding the short read from two bytes gives back those bytes |
| DataReaders.IntBytesRoundTrip | data_readers.py:17-24 | encoding the int read from four bytes gives back those bytes |
| DataReaders.NameRoundTrip | data_readers.py:9-15 | reading a name of at most eight non-zero bytes padded with zeros gives back the name |
| DataReaders.ZeroDropped | data_readers.py:9-15 | a zero byte anywhere among the eight is dropped, interior ones included |
| DataReaders.NonZeroAppend | data_readers.py:9-15 | dropping zeros from two stretches of bytes in turn is dropping them from the whole |
| WadRecords.ThingAt | wadfile.py:102-107 | a THINGS record decodes exactly when its ten bytes lie in the file |
| WadRecords.LinedefAt | wadfile.py:114-122 | a LINEDEFS record decodes exactly when its fourteen bytes lie in the file |
| WadRecords.SidedefAt | wadfile.py:129-136 | a SIDEDEFS record decodes exactly when its thirty bytes lie in the file |
| WadRecords.VertexAt | wadfile.py:143-146 | a vertex decodes exactly when its four bytes lie in the file |
| WadRecords.SegAt | wadfile.py:153-160 | a SEGS record decodes exactly when its twelve bytes lie in the file |
| WadRecords.SubsectorAt | wadfile.py:167-170 | a SSECTORS record decodes exactly when its four bytes lie in the file |
| WadRecords.BoxAt | wadfile.py:181-190 | a node box (top, bottom, left, right) decodes exactly when its eight bytes lie in the file |
| WadRecords.RawNodeAt | wadfile.py:177-193 | a NODES record decodes exactly when its 28 bytes lie in the file, and both child references lie in [0, 65535] |
| WadRecords.SectorAt | wadfile.py:200-208 | a SECTORS record decodes exactly when its 26 bytes lie in the file |
| WadRecords.NameTextIsName | wadfile.py:132-134 | the text of a name field is chr of each byte read_8 keeps |
| WadRecords.RunSound | wadfile.py:98-108 | a successful run of n records holds max(n, 0) of them, record i decoded from p + i * w |
| WadRecords.RunFits | wadfile.py:98-108 | a run of fixed-size records succeeds exactly when its last record ends inside the file |
| WadRecords.RunSlice | wadfile.py:281-291 | any stretch of records i to j of a successful run is the run read from record i |
| WadRecords.NodesWholeRecords | wadfile.py:173-194 | a NODES lump whose size is a multiple of 28 yields size / 28 consecutive records |
| WadRecords.NodesCount | wadfile.py:173-194 | the NODES loop reads ceil(size / 28) records, one more than size // 28 when size is not a multiple of 28 |
| WadRecords.ReadThing | wadfile.py:103-107 | one loop turn yields the THINGS record at the cursor and moves the cursor by ten |
| WadRecords.ReadLinedef | wadfile.py:115-122 | one loop turn yields the LINEDEFS record at the cursor and moves the cursor by fourteen |
| WadRecords.ReadSidedef | wadfile.py:130-136 | one loop turn yields the SIDEDEFS record at the cursor and moves the cursor by thirty |
| WadRecords.ReadVertex | wadfile.py:144-146 | one loop turn yields the vertex at the cursor and moves the cursor by four |
| WadRecords.ReadSeg | wadfile.py:154-160 | one loop turn yields the SEGS record at the cursor and moves the cursor by twelve |
| WadRecords.ReadSubsector | wadfile.py:168-170 | one loop turn yields the SSECTORS record at the cursor and moves the cursor by four |
| WadRecords.ReadBox | wadfile.py:181-185 | a box is read as top, bottom, left, right and kept as ((left, top), (right, bottom)) |
| WadRecords.ReadRawNode | wadfile.py:177-193 | one loop turn yields the NODES record at the cursor and moves the cursor by 28 |
| WadRecords.ReadSector | wadfile.py:201-208 | one loop turn yields the SECTORS record at the cursor and moves the cursor by 26 |
| WadRecords.LoadThings | wadfile.py:98-108 | the loader yields size // 10 records read one after another from the lump's offset, or the first failure |
| WadRecords.LoadLinedefs | wadfile.py:110-123 | the loader yields size // 14 consecutive records from the offset, or the first failure |
| WadRecords.LoadSidedefs | wadfile.py:125-137 | the loader yields size // 30 consecutive records from the offset, or the first failure |
| WadRecords.LoadVertexes | wadfile.py:139-147 | the loader yields size // 4 consecutive vertices from the offset, or the first failure |
| WadRecords.LoadSegs | wadfile.py:149-161 | the loader yields size // 12 consecutive records from the offset, or the first failure |
| WadRecords.LoadSubsectors | wadfile.py:163-171 | the loader yields size // 4 consecutive records from the offset, or the first failure |
| WadRecords.LoadNodes | wadfile.py:173-194 | the loader reads records while the cursor is before offset + size, or fails |
| WadRecords.LoadSectors | wadfile.py:196-209 | the loader yields size // 26 consecutive records from the offset, or the first failure |
| WadDirectory.HeaderAt | wadfile.py:15-18 | the header reads exactly when its twelve bytes lie in the file, and otherwise fails as a short read |
| WadDirectory.EntryAt | wadfile.py:286-290 | a directory entry reads exactly when its sixteen bytes lie in the file, and its base offset is where it starts |
| WadDirectory.ReadHeader | wadfile.py:15-18 | reading the header yields the magic, lump count and directory offset at the cursor, or a short-read failure |
| WadDirectory.ReadEntry | wadfile.py:286-290 | one directory turn yields the entry at the cursor, with `tell()` as its base offset, and moves the cursor by sixteen |
| WadDirectory.ReadDirectory | wadfile.py:281-291 | the directory loop yields the entries the directory function describes, or the first failure |
| WadDirectory.DirectoryShape | wadfile.py:281-291 | a loaded directory holds max(num_lumps, 0) entries, entry k read from dir_offs + 16 k, which is its base offset |
| WadDirectory.DirectoryLoads | wadfile.py:281-291 | the directory loads exactly when its offset is not negative and its last entry ends inside the file |
| WadDirectory.EntryRoundTrip | wadfile.py:286-290 | reading an encoded entry gives back its offset, size and name, and its position as the base offset |
| WadDirectory.EntryNamed | wadfile.py:299-303 | None exactly when no entry has the name; otherwise an entry with the name before which none has it |
| WadDirectory.EntryNamedFirst | wadfile.py:299-303 | when entry i is the first with the name, that entry is the one found |
| WadDirectory.GetEntryNamed | wadfile.py:299-303 | the search loop returns the first entry with the name, or None |
| WadTree.MakeNode | wadfile.py:76-93 | a reference of 32768 or above is the leaf for subsector ref - 32768; any other reference that builds is an internal node carrying the indexed record's splitter and boxes; a reference outside the list raises `IndexError`, and the only failures are `IndexError` and running out of recursion |
| WadTree.BuildTree | wadfile.py:70-74 | an empty NODES list raises `IndexError`; the only failures are `IndexError` and running out of recursion; a built tree over at most 32768 records is rooted at an internal node carrying the last record's splitter and boxes |
| WadTree.MakeNodeSound | wadfile.py:76-93 | every tree __make_node builds is the one the records describe (leaf for references of 32768 and above with subsector ref - 32768, otherwise the record's splitter and boxes, left child from field 7, right from field 6), no deeper than the recursion allowed |
| WadTree.MakeNodeComplete | wadfile.py:76-93 | every tree the records describe is built, given recursion room for its depth |
| WadTree.EncodesUnique | wadfile.py:76-93 | a reference describes at most one tree |
| WadTree.PrecedingChildrenBuild | wadfile.py:76-93 | when every record's children come before it, record i builds within i + 1 levels |
| WadTree.BuildTreeSucceeds | wadfile.py:70-74 | a non-empty list in that order always builds, and the root carries the last record's splitter and boxes |
| WadTree.BuildTreeEmpty | wadfile.py:70-74 | an empty NODES list fails on the subscript of the last record |
| WadTree.SelfLoopFails | wadfile.py:76-93 | a record that is its own left child never finishes building |
| WadTree.LeafRange | wadfile.py:80-82 | every leaf of a built tree names a subsector in [0, 32767] |
| WadMap.LoadFromEntries | wadfile.py:32-68 | loading from entry c on applies exactly the directory entries read from there, in order |
| WadMap.LoadReadsNextTen | wadfile.py:33-37 | loading from just after entry i applies directory entries i + 1 to i + 10 |
| WadMap.NextTenRun | wadfile.py:33-37 | the ten directory entries after entry i are read consecutively from just after it |
| WadMap.LastNamed | wadfile.py:33-68 | finds an entry with the name exactly when one exists, and the entry found carries the name |
| WadMap.DispatchUnknown | wadfile.py:38-68 | an entry whose name is none of the eight recognised ones assigns nothing |
| WadMap.DispatchOwn | wadfile.py:38-61 | what an entry stores in its own attribute does not depend on what was assigned before |
| WadMap.DispatchOther | wadfile.py:38-68 | an entry leaves the attribute of every other name as it was |
| WadMap.DispatchStep | wadfile.py:38-68 | one entry changes only its own name's attribute, to a value independent of the earlier attributes |
| WadMap.ApplyAllByName | wadfile.py:33-68 | dispatch is by name: after a run of entries each attribute holds the decode of the last entry carrying its name, and is untouched when none does |
| WadMap.ApplyAllAssigns | wadfile.py:33-68 | a fresh map gets an attribute exactly when some entry carries its name |
| WadMap.ApplyAllOrderFree | wadfile.py:33-68 | two runs that agree on the last entry of each name give the same attributes, whatever the order of the entries |
| WadMap.WadMap.constructor | wadfile.py:26-27 | a new map has its name and no attribute assigned |
| WadMap.WadMap.LoadLump | wadfile.py:38-68 | one branch assigns the named attribute from its decoder (NODES through the tree builder), skips REJECT, BLOCKMAP and unknown names, and on failure leaves the attributes as they were |
| WadMap.WadMap.Load | wadfile.py:32-68 | load reads the ten entries at the cursor one after another, restoring the cursor after each entry's lump, and the attributes are those the entries' dispatch assigns |
| WadMap.WadMap.MapBounds | wadfile.py:258-265 | the bounds exist exactly when vertices were loaded and there is one; each bound is reached by a vertex and no vertex lies outside |
| WadMap.VertexBounds | wadfile.py:258-265 | an empty vertex list fails on the subscript; otherwise the bounds are tight |
| WadMap.Least | wadfile.py:259-260 | the first x after sorting is no greater than any and is one of them |
| WadMap.Greatest | wadfile.py:259-260 | the last x after sorting is no smaller than any and is one of them |
| WadFile.OpenWad | wadfile.py:308-312 | opening an archive reads the header at the start and then the directory it points to |
| WadFile.LoadMap | wadfile.py:314-327 | load_map is None when no entry has the name, otherwise a fresh map with that name whose attributes are what loading after the marker gives, or the failure |
| WadFile.LoadMarkedMap | wadfile.py:321-326 | after the seek, the marker entry is skipped and a fresh map with the name is loaded from the entries after it, or the first failure is returned |
| WadFile.MapIsNextTen | wadfile.py:314-327 | the map named by the first entry i with the name is exactly the entries i + 1 to i + 10 dispatched in order |
| WadFile.MapAfterMarker | wadfile.py:317-326 | for any directory read as a run of entries, the map named by its first holder of the name is the next ten entries dispatched in order |
| WadFile.MapMissing | wadfile.py:317-320 | load_map yields None exactly when no entry carries the name |
| Visibility.OnBackSide | renderer.py:26-35 | the side test raises exactly for a subsector leaf, and the error is the leaf check's; the side itself (the cross product not positive) is characterised by BackSideAtStart, BackSideAlongSplitter and BackSideReversed |
| Visibility.BackSideAtStart | renderer.py:29-35 | a viewer on the splitter's start is on the back side |
| Visibility.BackSideAlongSplitter | renderer.py:29-35 | moving the viewer by any integer multiple of the splitter direction leaves the side unchanged |
| Visibility.BackSideReversed | renderer.py:29-35 | a viewer is on the back side of both a splitter and its reverse exactly when it lies on the splitter's line |
| Visibility.Sides | renderer.py:45-69 | no pair exactly when the viewer is within the box's closed extents, two pairs exactly in a corner region, and every pair is a side of the box |
| Visibility.SidesAreFacingEdges | renderer.py:49-69 | for a box with area, a side is checked exactly when the viewer is strictly beyond it |
| Visibility.SidesFaceViewer | renderer.py:45-69 | read from first to second corner, every pair checked has the viewer strictly on its front side |
| Visibility.InFovByFacing | renderer.py:37-86 | the box is visible exactly when the viewer is inside, or beyond a side whose corners the angular check does not reject |
| Visibility.BoxInFov | renderer.py:37-86 | the test returns true whatever the facing when the viewer is inside, and otherwise true exactly when some checked pair is not rejected |
| Visibility.Walk | renderer.py:92-128 | the walk raises exactly when handed a leaf |
| Visibility.LeavesBySide | renderer.py:97-125 | the left-child and right-child leaves of a node are together all its subsectors |
| Visibility.WalkLabels | renderer.py:96-127 | every subsector in 'LEFT' is a left child somewhere below the node and every one in 'RIGHT' a right child, so every index returned is a subsector of the tree |
| Visibility.FarSideGate | renderer.py:96-127 | a near leaf is the whole answer, in the list of its side; a far box that fails the test, or on the front side a far leaf, leaves the near child's answer unchanged |
| Visibility.WalkNearFirst | renderer.py:97-125 | the near child's lists start each of the node's lists |
| Visibility.ViewerCellFirst | renderer.py:96-127 | the viewer's own subsector is always collected, first in its list |
| Visibility.Absorb | renderer.py:99-101 | appending a recursive result value by value adds each of its lists to the same side, in order |
| Visibility.WalkTree | renderer.py:92-128 | the recursive walk with its dictionary of lists computes the walk |
| DrawList.Truncate | renderer.py:19-20 | int() of an exact quotient: the remainder is smaller than the divisor and the product lies between zero and the dividend |
| DrawList.TruncateFloor | renderer.py:19-20 | on non-negative operands int() of the quotient is floor division |
| DrawList.RemapX | renderer.py:18-20 | remap_x divides by zero exactly when the map has no width |
| DrawList.RemapY | renderer.py:22-24 | remap_y divides by zero exactly when the map has no height |
| DrawList.ScaledX | renderer.py:18-20 | for a map with width, remap_x is floor division of a numerator between 30 and WIDTH - 30 map widths |
| DrawList.ScaledY | renderer.py:22-24 | for a map with height, remap_y is floor division of a numerator between 30 and HEIGHT - 30 map heights |
| DrawList.RemapXOnScreen | renderer.py:18-20 | for a map with width, remap_x lies in [30, WIDTH - 30] |
| DrawList.RemapXMonotone | renderer.py:18-20 | remap_x never decreases as the coordinate grows |
| DrawList.RemapXEnds | renderer.py:18-20 | x_min and anything left of it go to 30, x_max and anything right of it to WIDTH - 30 |
| DrawList.RemapYOnScreen | renderer.py:22-24 | for a map with height, remap_y lies in [30, HEIGHT - 30] |
| DrawList.RemapYMonotone | renderer.py:22-24 | remap_y never increases as the coordinate grows |
| DrawList.RemapYEnds | renderer.py:22-24 | y_min and below go to HEIGHT - 30, y_max and above to 30 |
| DrawList.Lookup | renderer.py:136-138 | a subscript of an unassigned attribute fails, and an in-range one yields that element |
| DrawList.SegRun | renderer.py:137-138 | a subsector's run has one seg per count below seg_count |
| DrawList.SegRunSlice | renderer.py:137-138 | a subsector whose segs lie in the list contributes SEGS[first .. first + count), in order |
| DrawList.SegsOfAppend | renderer.py:135-143 | the segs of the 'LEFT' subsectors come before those of the 'RIGHT' ones |
| DrawList.SegsOfLength | renderer.py:135-143 | the seg list is as long as the subsectors' seg counts add up to |
| DrawList.DrawLinesShape | renderer.py:146-151 | one line per seg, line k projected from seg k |
| DrawList.DrawListOnScreen | renderer.py:130-152 | for a map with width and height, every line drawn lies within the window's margins |
| DrawList.ExtendWithSubsector | renderer.py:136-138 | the inner loop appends the subsector's run of segs to the list, or fails on a bad subscript |
| DrawList.BuildDrawList | renderer.py:130-152 | the loops build the draw list the walk, the seg runs and the projection describe |

## Left out

- Drawing, the event loop, `render` and `__render_bsp_path_to_player`: these are pygame output.
- The angular check of `__bbox_in_fov` (`__point_at`, `atan2` in degrees, the `% 360` comparisons): it is floating point, so it is kept abstract as the viewer's `rejected` predicate on a corner pair. Everything around it is modelled.
- The `player` object: the walk takes a `Viewer` (position and the abstract check).
- `constants.py`: WIDTH and HEIGHT are fields of `Projection`. FOV and H_FOV appear only inside the abstract check.
- The REJECT and BLOCKMAP decoders: their bodies are `pass`, so those entries assign nothing that is used. The model leaves the attributes out.
- Opening and closing the file, and the message printed when a map is missing: the archive is its bytes in memory.
- The `__str__` methods, and the `ID` and `PARENT` fields of tree nodes, which nothing reads.
- Floats: `vec2` coordinates are the 16-bit integers the loaders read. `remap_x` and `remap_y` are modelled as exact rational arithmetic truncated toward zero. This agrees with the float computation for 16-bit inputs and window sizes in the usual range. The model does not capture float rounding.
- WadTree.MakeNode: the fuel of one level per record runs out exactly on reference cycles. Python's fixed limit of about 1000 frames is not modelled, so a tree with no cycle but more than about 1000 levels builds in the model where Python raises `RecursionError`.
- WadMap.WadMap.Load: the cursor position after a failed load is not stated, because the exception abandons the file.
- DrawList.BuildDrawList: it takes the map and the remapping bounds directly. The renderer's constructor, which computes the bounds with `get_map_bounds` and pre-maps every vertex for drawing, is not modelled.
- The `quit()` in the readers' `except` clauses is never reached for in-memory data. The model treats the `finally`-clause unpack as the reader's result and its failure as the reader's failure.

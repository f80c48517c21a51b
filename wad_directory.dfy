/** The archive header and the lump directory of wadfile.py (WADHeader,
    WADDirEntry, WADDir). */
module WadDirectory {
  import opened Base
  import opened DataReaders
  import opened WadRecords

  /** WADHeader: the four-character magic, the lump count and the byte
      offset of the directory. */
  datatype Header = Header(magic: string, numLumps: int, dirOffs: int)

  /** WADDirEntry: where the entry itself sits in the file (`base_offset`,
      what `tell` said before reading it), the lump's offset and size, and
      its name. */
  datatype DirEntry = DirEntry(baseOffset: int, offset: int, size: int, name: string)

  /** The header at p: four one-byte reads (a missing byte fails on
      `ord(b'')`), then two ints. */
  function HeaderAt(data: seq<byte>, p: nat): (r: Result<Header>)
    ensures r.Ok? <==> p + 12 <= |data|
    ensures r.Fail? ==> r.error == Truncated
  {
    if p + 12 <= |data| then Ok(Header(Text(data[p..p + 4]), Int(data, p + 4), Int(data, p + 8)))
    else Fail(Truncated)
  }

  /** One 16-byte directory entry at p. */
  function EntryAt(data: seq<byte>, p: nat): (r: Result<DirEntry>)
    ensures r.Ok? <==> p + 16 <= |data|
    ensures r.Fail? ==> r.error == Truncated
    ensures r.Ok? ==> r.value.baseOffset == p
  {
    if p + 16 <= |data| then Ok(DirEntry(p, Int(data, p), Int(data, p + 4), Name(data, p + 8)))
    else Fail(Truncated)
  }

  /** WADDir: seek to the directory, then read num_lumps entries. */
  function Directory(data: seq<byte>, h: Header): Result<seq<DirEntry>>
  {
    if h.dirOffs < 0 then Fail(NegativeSeek) else Run(EntryAt, data, h.dirOffs, h.numLumps, 16)
  }

  method ReadHeader(src: ByteSource) returns (r: Result<Header>)
    modifies src
    ensures r == HeaderAt(src.data, old(src.pos))
  {
    var tag := src.Read4();
    if |tag| < 4 {
      return Fail(Truncated);
    }
    var numLumps :- src.ReadInt();
    var dirOffs :- src.ReadInt();
    return Ok(Header(Text(tag), numLumps, dirOffs));
  }

  method ReadEntry(src: ByteSource) returns (r: Result<DirEntry>)
    modifies src
    ensures r == EntryAt(src.data, old(src.pos))
    ensures r.Ok? ==> src.pos == old(src.pos) + 16
  {
    var baseOffs := src.pos;
    var offs :- src.ReadInt();
    var size :- src.ReadInt();
    if src.pos + 8 <= |src.data| {
      NameTextIsName(src.data, src.pos, 8);
    }
    var name :- src.Read8();
    return Ok(DirEntry(baseOffs, offs, size, Text(name)));
  }

  method ReadDirectory(src: ByteSource, h: Header) returns (r: Result<seq<DirEntry>>)
    modifies src
    ensures r == Directory(src.data, h)
  {
    var s := src.Seek(h.dirOffs);
    if s.Fail? {
      return Fail(s.error);
    }
    PrependNil(Run(EntryAt, src.data, src.pos, h.numLumps, 16));
    ghost var whole := Directory(src.data, h);
    var lumps: seq<DirEntry> := [];
    var lcount := 0;
    while lcount < h.numLumps
      invariant whole == Prepend(lumps, Run(EntryAt, src.data, src.pos, h.numLumps - lcount, 16))
      decreases h.numLumps - lcount
    {
      ghost var p := src.pos;
      var e := ReadEntry(src);
      if e.Fail? {
        RunStop(EntryAt, src.data, p, h.numLumps - lcount, 16, lumps);
        return Fail(e.error);
      }
      RunAdvance(EntryAt, src.data, p, h.numLumps - lcount, 16, lumps, e.value, src.pos,
                 h.numLumps - (lcount + 1));
      lumps := lumps + [e.value];
      lcount := lcount + 1;
    }
    PrependDone(lumps);
    return Ok(lumps);
  }

  /** A directory that loads holds num_lumps entries (none for a negative
      count), entry k read from dir_offs + 16 k, which is its base offset. */
  lemma DirectoryShape(data: seq<byte>, h: Header)
    requires Directory(data, h).Ok?
    ensures h.dirOffs >= 0
    ensures |Directory(data, h).value| == Max(h.numLumps, 0)
    ensures forall k :: 0 <= k < |Directory(data, h).value| ==>
              EntryAt(data, h.dirOffs + 16 * k) == Ok(Directory(data, h).value[k])
              && Directory(data, h).value[k].baseOffset == h.dirOffs + 16 * k
  {
    RunSound(EntryAt, data, h.dirOffs, h.numLumps, 16);
  }

  /** The directory loads exactly when its offset is not negative and its
      last entry ends inside the file. */
  lemma DirectoryLoads(data: seq<byte>, h: Header)
    ensures Directory(data, h).Ok? <==>
              h.dirOffs >= 0 && (h.numLumps <= 0 || h.dirOffs + 16 * h.numLumps <= |data|)
  {
    if h.dirOffs >= 0 {
      RunFits(EntryAt, data, h.dirOffs, h.numLumps, 16);
    }
  }

  // ---------------------------------------------------------------------
  // Writing a directory entry, the inverse of reading one.

  /** A 16-byte entry: offset and size as ints, the name padded with zeros. */
  function EncodeEntry(offset: int, size: int, name: seq<byte>): (r: seq<byte>)
    requires -0x8000_0000 <= offset < 0x8000_0000 && -0x8000_0000 <= size < 0x8000_0000
    requires |name| <= 8
    ensures |r| == 16
  {
    EncodeS32(offset) + EncodeS32(size) + PadName(name)
  }

  /** Reading an encoded entry gives back its fields, the name as text. */
  lemma EntryRoundTrip(pre: seq<byte>, offset: int, size: int, name: seq<byte>, post: seq<byte>)
    requires -0x8000_0000 <= offset < 0x8000_0000 && -0x8000_0000 <= size < 0x8000_0000
    requires |name| <= 8 && forall k :: 0 <= k < |name| ==> name[k] != 0
    ensures EntryAt(pre + EncodeEntry(offset, size, name) + post, |pre|)
            == Ok(DirEntry(|pre|, offset, size, Text(name)))
  {
    var data := pre + EncodeEntry(offset, size, name) + post;
    var p := |pre|;
    assert data == pre + EncodeS32(offset) + (EncodeS32(size) + PadName(name) + post);
    IntRoundTrip(pre, offset, EncodeS32(size) + PadName(name) + post);
    assert data == (pre + EncodeS32(offset)) + EncodeS32(size) + (PadName(name) + post);
    IntRoundTrip(pre + EncodeS32(offset), size, PadName(name) + post);
    assert data == (pre + EncodeS32(offset) + EncodeS32(size)) + PadName(name) + post;
    NameRoundTrip(pre + EncodeS32(offset) + EncodeS32(size), name, post);
    NameTextIsName(data, p + 8, 8);
  }

  // ---------------------------------------------------------------------
  // get_entry_named: the first entry carrying the name.

  function EntryNamed(lumps: seq<DirEntry>, name: string): (r: Option<DirEntry>)
    ensures r.None? <==> forall k :: 0 <= k < |lumps| ==> lumps[k].name != name
    ensures r.Some? ==> exists k :: 0 <= k < |lumps| && lumps[k] == r.value && r.value.name == name
                                    && forall j :: 0 <= j < k ==> lumps[j].name != name
  {
    if lumps == [] then None
    else if lumps[0].name == name then Some(lumps[0])
    else
      var r := EntryNamed(lumps[1..], name);
      assert r.Some? ==> exists k :: 0 <= k < |lumps[1..]| && lumps[1..][k] == r.value
                          && r.value.name == name && forall j :: 0 <= j < k ==> lumps[1..][j].name != name;
      assert r.Some? ==> exists k :: 1 <= k < |lumps| && lumps[k] == r.value && r.value.name == name
                          && forall j :: 0 <= j < k ==> lumps[j].name != name;
      r
  }

  /** The entry found is the first one with the name. */
  lemma {:induction false} EntryNamedFirst(lumps: seq<DirEntry>, name: string, i: nat)
    requires i < |lumps| && lumps[i].name == name
    requires forall j :: 0 <= j < i ==> lumps[j].name != name
    ensures EntryNamed(lumps, name) == Some(lumps[i])
  {
    if i > 0 {
      EntryNamedFirst(lumps[1..], name, i - 1);
    }
  }

  method GetEntryNamed(lumps: seq<DirEntry>, name: string) returns (r: Option<DirEntry>)
    ensures r == EntryNamed(lumps, name)
  {
    for i := 0 to |lumps|
      invariant EntryNamed(lumps, name) == EntryNamed(lumps[i..], name)
    {
      assert lumps[i..][1..] == lumps[i + 1..];
      if lumps[i].name == name {
        return Some(lumps[i]);
      }
    }
    return None;
  }
}

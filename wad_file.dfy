/** The archive as a whole (WADFile in wadfile.py): header and directory
    read once, and a map loaded by name from a fresh read of the file. */
module WadFile {
  import opened Base
  import opened DataReaders
  import opened WadRecords
  import opened WadDirectory
  import opened WadMap

  /** An opened archive: the file's bytes (which `load_map` reads again),
      its header and its directory. */
  datatype Wad = Wad(data: seq<byte>, header: Header, directory: seq<DirEntry>)

  /** WADFile.__init__: the header at the start of the file, then the
      directory it points to. */
  function WadAt(data: seq<byte>): Result<Wad>
  {
    var header :- HeaderAt(data, 0);
    var directory :- Directory(data, header);
    Ok(Wad(data, header, directory))
  }

  method OpenWad(data: seq<byte>) returns (r: Result<Wad>)
    ensures r == WadAt(data)
  {
    var src := new ByteSource(data);
    var header :- ReadHeader(src);
    var directory :- ReadDirectory(src, header);
    return Ok(Wad(data, header, directory));
  }

  /** load_map: no map of that name yields None (the source prints a
      message); a marker at a negative offset fails the seek; otherwise the
      map is what reading from the marker gives. */
  function MapAt(wad: Wad, name: string): Result<Option<Lumps>>
  {
    match EntryNamed(wad.directory, name)
    case None => Ok(None)
    case Some(marker) =>
      if marker.baseOffset < 0 then Fail(NegativeSeek)
      else
        var lumps :- MarkerMap(wad.data, marker.baseOffset);
        Ok(Some(lumps))
  }

  /** From a marker entry at p: the entry is read again and skipped, then
      the ten entries after it are loaded. */
  function MarkerMap(data: seq<byte>, p: nat): Result<Lumps>
  {
    var skipped :- EntryAt(data, p);
    AsMap(LoadFrom(Dispatcher(data), data, p + 16, 0, NoLumps))
  }

  /** The attributes `load` assigned, or the failure that stopped it. */
  function AsMap(loaded: (Lumps, Result<()>)): Result<Lumps>
  {
    if loaded.1.Ok? then Ok(loaded.0) else Fail(loaded.1.error)
  }

  /** load_map yields None exactly when no directory entry carries the
      name; a map that is found is loaded or fails, never None. */
  lemma MapMissing(wad: Wad, name: string)
    ensures MapAt(wad, name) == Ok(None) <==>
              forall k :: 0 <= k < |wad.directory| ==> wad.directory[k].name != name
  {
  }

  method LoadMap(wad: Wad, name: string) returns (r: Result<Option<WadMap>>)
    ensures r.Fail? ==> MapAt(wad, name) == Fail(r.error)
    ensures r == Ok(None) ==> MapAt(wad, name) == Ok(None)
    ensures r.Ok? && r.value.Some? ==>
              fresh(r.value.value) && r.value.value.name == name
              && MapAt(wad, name) == Ok(Some(r.value.value.Contents()))
  {
    var src := new ByteSource(wad.data);
    var marker := GetEntryNamed(wad.directory, name);
    if marker.None? {
      return Ok(None);
    }
    var s := src.Seek(marker.value.baseOffset);
    if s.Fail? {
      return Fail(s.error);
    }
    var m := LoadMarkedMap(src, name);
    if m.Fail? {
      return Fail(m.error);
    }
    return Ok(Some(m.value));
  }

  /** The part of load_map after the seek: skip the marker entry, then load
      a new map from the entries after it. */
  method LoadMarkedMap(src: ByteSource, name: string) returns (r: Result<WadMap>)
    modifies src
    ensures r.Fail? ==> MarkerMap(src.data, old(src.pos)) == Fail(r.error)
    ensures r.Ok? ==> fresh(r.value) && r.value.name == name
                      && MarkerMap(src.data, old(src.pos)) == Ok(r.value.Contents())
  {
    var m := new WadMap(name);
    var skipped := ReadEntry(src);
    if skipped.Fail? {
      return Fail(skipped.error);
    }
    var loaded := m.Load(src);
    if loaded.Fail? {
      return Fail(loaded.error);
    }
    return Ok(m);
  }

  /** The map named by directory entry i (its first holder of the name) is
      the ten entries after it, dispatched in order. */
  lemma MapIsNextTen(data: seq<byte>, name: string, i: nat)
    requires WadAt(data).Ok?
    requires var dir := WadAt(data).value.directory;
             i + MapLumpCount < |dir| && dir[i].name == name
             && forall j :: 0 <= j < i ==> dir[j].name != name
    ensures var wad := WadAt(data).value;
            var loaded := ApplyAll(Dispatcher(data), wad.directory[i + 1..i + 1 + MapLumpCount], NoLumps);
            MapAt(wad, name) == if loaded.1.Ok? then Ok(Some(loaded.0)) else Fail(loaded.1.error)
  {
    var wad := WadAt(data).value;
    var h := HeaderAt(data, 0).value;
    assert wad == Wad(data, h, Directory(data, h).value);
    assert h.dirOffs >= 0 && Run(EntryAt, data, h.dirOffs, h.numLumps, 16) == Ok(wad.directory);
    MapAfterMarker(wad, name, i, h.dirOffs, h.numLumps);
  }

  /** The same for any directory read as a run of entries from d. */
  lemma MapAfterMarker(wad: Wad, name: string, i: nat, d: nat, n: int)
    requires Run(EntryAt, wad.data, d, n, 16) == Ok(wad.directory)
    requires i + MapLumpCount < |wad.directory| && wad.directory[i].name == name
    requires forall j :: 0 <= j < i ==> wad.directory[j].name != name
    ensures var loaded := ApplyAll(Dispatcher(wad.data), wad.directory[i + 1..i + 1 + MapLumpCount], NoLumps);
            MapAt(wad, name) == if loaded.1.Ok? then Ok(Some(loaded.0)) else Fail(loaded.1.error)
  {
    var marker := wad.directory[i];
    var after := d + 16 * (i + 1);
    assert EntryAt(wad.data, d + i * 16) == Ok(marker) by {
      RunSlice(EntryAt, wad.data, d, n, 16, i, i + 1);
      assert wad.directory[i..i + 1] == [marker];
    }
    assert MarkerMap(wad.data, marker.baseOffset)
           == AsMap(LoadFrom(Dispatcher(wad.data), wad.data, after, 0, NoLumps)) by {
      assert marker.baseOffset + 16 == after;
    }
    EntryNamedFirst(wad.directory, name, i);
    LoadReadsNextTen(Dispatcher(wad.data), wad.data, d, n, wad.directory, i, NoLumps);
  }
}

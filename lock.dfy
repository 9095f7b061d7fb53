/**
 * The collections lock store: an in-memory map from collection name to
 * lock entry, loaded once from the lock file and written back as a whole
 * document tagged with format version "1.0" after every change. JSON text
 * is not modelled: the file holds a decoded JSON value, or is missing, or
 * cannot be opened or decoded.
 */
module Lock {
  import opened Wrappers
  import opened FileSystem

  /** A decoded JSON value; numbers, booleans and arrays are not told apart. */
  datatype Json = JNull | JString(s: string) | JObject(fields: map<string, Json>) | JOther

  /** The lock file as the store finds it. */
  datatype LockFile = Missing | Unreadable | Document(root: Json)

  const Version: string := "1.0"

  datatype CollectionLockEntry = CollectionLockEntry(
    name: string,
    source: string,
    commit: Option<string>,
    path: string,
    installedAt: string)

  const EntryKeys: set<string> := {"name", "source", "commit", "path", "installed_at"}

  /** `to_dict`: one JSON field per entry field; a missing commit is null. */
  function ToDict(e: CollectionLockEntry): (j: Json)
    ensures j.JObject? && j.fields.Keys == EntryKeys
  {
    JObject(map[
      "name" := JString(e.name),
      "source" := JString(e.source),
      "commit" := (if e.commit.Some? then JString(e.commit.value) else JNull),
      "path" := JString(e.path),
      "installed_at" := JString(e.installedAt)])
  }

  /**
   * `from_dict`: the constructor takes exactly the five fields as keyword
   * arguments, so a missing or an extra key is an error.
   */
  function FromDict(j: Json): (r: Option<CollectionLockEntry>)
    ensures r.Some? ==> j.JObject? && j.fields.Keys == EntryKeys
  {
    if !j.JObject? || j.fields.Keys != EntryKeys then None
    else
      var f := j.fields;
      assert "name" in f && "source" in f && "commit" in f && "path" in f && "installed_at" in f;
      if !(f["name"].JString? && f["source"].JString? && f["path"].JString? && f["installed_at"].JString?) then None
      else if !(f["commit"].JString? || f["commit"].JNull?) then None
      else Some(CollectionLockEntry(
        f["name"].s, f["source"].s,
        if f["commit"].JString? then Some(f["commit"].s) else None,
        f["path"].s, f["installed_at"].s))
  }

  lemma EntryRoundTrip(e: CollectionLockEntry)
    ensures FromDict(ToDict(e)) == Some(e)
  {
  }

  /** The document `_save` writes for `data`. */
  function Encode(data: map<string, CollectionLockEntry>): (j: Json)
    ensures j.JObject? && j.fields.Keys == {"version", "collections"} && j.fields["version"] == JString(Version)
  {
    JObject(map[
      "version" := JString(Version),
      "collections" := JObject(map n | n in data :: ToDict(data[n]))])
  }

  /**
   * What `_load` leaves in `_data`. A missing file, a file that cannot be
   * read or decoded, a document of the wrong shape and an entry that does
   * not convert all give the empty map; the version tag is only reported.
   */
  function Decode(f: LockFile): (data: map<string, CollectionLockEntry>)
    ensures !f.Document? ==> data == map[]
    ensures data != map[] ==> f.Document? && f.root.JObject? && "collections" in f.root.fields
    ensures forall n :: n in data ==>
      f.Document? && f.root.JObject? && "collections" in f.root.fields &&
      f.root.fields["collections"].JObject? && n in f.root.fields["collections"].fields &&
      FromDict(f.root.fields["collections"].fields[n]) == Some(data[n])
  {
    match f
    case Missing => map[]
    case Unreadable => map[]
    case Document(root) =>
      if !root.JObject? then map[]
      else
        var collections := if "collections" in root.fields then root.fields["collections"] else JObject(map[]);
        if !collections.JObject? then map[]
        else if exists n :: n in collections.fields && FromDict(collections.fields[n]).None? then map[]
        else map n | n in collections.fields :: FromDict(collections.fields[n]).value
  }

  /** Saving and loading again restores the map exactly. */
  lemma SaveLoadRoundTrip(data: map<string, CollectionLockEntry>)
    ensures Decode(Document(Encode(data))) == data
  {
    var coll := map n | n in data :: ToDict(data[n]);
    forall n | n in coll ensures FromDict(coll[n]) == Some(data[n]) {
      EntryRoundTrip(data[n]);
    }
    var decoded := Decode(Document(Encode(data)));
    assert decoded.Keys == data.Keys;
  }

  /** The version tag does not affect what is loaded. */
  lemma VersionIgnored(fields: map<string, Json>, v: Json)
    ensures Decode(Document(JObject(fields["version" := v]))) == Decode(Document(JObject(fields - {"version"})))
  {
    var a := fields["version" := v];
    var b := fields - {"version"};
    assert ("collections" in a) == ("collections" in b);
    assert "collections" in a ==> a["collections"] == b["collections"];
  }

  class CollectionLock {
    const lockPath: Path
    /** `_data`: the entries by collection name. */
    var data: map<string, CollectionLockEntry>
    /** The lock file's content as this store last read or wrote it. */
    ghost var persisted: LockFile

    /** `__init__`: loads the file at `lockPath`, whose content is `onDisk`; nothing is written. */
    constructor (lockPath: Path, onDisk: LockFile)
      ensures this.lockPath == lockPath
      ensures data == Decode(onDisk)
      ensures persisted == onDisk
    {
      this.lockPath := lockPath;
      data := map[];
      persisted := onDisk;
      new;
      Load(onDisk);
    }

    /** `_load`: replaces the entries by what the file decodes to. */
    method Load(onDisk: LockFile)
      modifies this
      ensures data == Decode(onDisk)
      ensures persisted == onDisk
    {
      if onDisk.Missing? {
        data := map[];
      } else {
        // open, decode and convert; any failure leaves the store empty
        data := Decode(onDisk);
      }
      persisted := onDisk;
    }

    /** `_save`: overwrites the lock file with the whole map. */
    method Save()
      modifies this`persisted
      ensures persisted == Document(Encode(data))
    {
      persisted := Document(Encode(data));
    }

    /** `add_entry`: inserts or replaces the entry for `name` and saves. */
    method AddEntry(name: string, source: string, commit: Option<string>, path: Path, installedAt: string)
      modifies this
      ensures data == old(data)[name := CollectionLockEntry(name, source, commit, PathText(path), installedAt)]
      ensures GetEntry(name) == Some(CollectionLockEntry(name, source, commit, PathText(path), installedAt))
      ensures forall n :: n != name ==> GetEntry(n) == old(GetEntry(n))
      ensures persisted == Document(Encode(data))
    {
      var entry := CollectionLockEntry(name, source, commit, PathText(path), installedAt);
      data := data[name := entry];
      Save();
    }

    /** `remove_entry`: deletes a present name and saves; an absent name changes nothing. */
    method RemoveEntry(name: string)
      modifies this
      ensures name in old(data) ==> data == old(data) - {name} && persisted == Document(Encode(data))
      ensures name !in old(data) ==> data == old(data) && persisted == old(persisted)
      ensures GetEntry(name) == None
    {
      if name in data {
        data := data - {name};
        Save();
      }
    }

    /** `get_entry`. */
    function GetEntry(name: string): (r: Option<CollectionLockEntry>)
      reads this
      ensures r.Some? <==> name in data
      ensures r.Some? ==> r.value == data[name]
    {
      if name in data then Some(data[name]) else None
    }

    /** `is_installed`: exactly when `get_entry` finds something. */
    function IsInstalled(name: string): (r: bool)
      reads this
      ensures r <==> GetEntry(name).Some?
    {
      name in data
    }

    /**
     * `list_entries`: the stored entries, one per stored name, in an
     * unspecified order; `names` gives the name each position came from.
     */
    method ListEntries() returns (entries: seq<CollectionLockEntry>, ghost names: seq<string>)
      ensures |entries| == |data|
      ensures forall e :: e in entries <==> e in data.Values
      ensures |names| == |data|
      ensures forall i :: 0 <= i < |names| ==> names[i] in data && entries[i] == data[names[i]]
      ensures forall i, j :: 0 <= i < j < |names| ==> names[i] != names[j]
      ensures forall n :: n in data ==> n in names
    {
      entries, names := [], [];
      var remaining := data.Keys;
      while remaining != {}
        invariant remaining <= data.Keys
        invariant |entries| == |names|
        invariant forall i :: 0 <= i < |names| ==> names[i] in data && names[i] !in remaining && entries[i] == data[names[i]]
        invariant forall i, j :: 0 <= i < j < |names| ==> names[i] != names[j]
        invariant forall n :: n in data ==> n in names || n in remaining
        invariant |names| + |remaining| == |data|
        decreases remaining
      {
        var name :| name in remaining;
        entries, names := entries + [data[name]], names + [name];
        remaining := remaining - {name};
      }
    }
  }
}

/**
 * Extracting a collection's declared name from any path inside an installed
 * collection: the collection directory is the component right after the
 * first "collections" component, and its name comes from metadata read flat,
 * then nested, then from the directory name as a last resort.
 */
module Utils {
  import opened Wrappers
  import opened FileSystem
  import Schema

  /** `parts.index(x)`: the first position of `x`. */
  function IndexOf(parts: seq<string>, x: string): (r: Option<nat>)
    ensures r.None? <==> x !in parts
    ensures r.Some? ==> r.value < |parts| && parts[r.value] == x && x !in parts[..r.value]
  {
    if parts == [] then None
    else if parts[0] == x then Some(0)
    else
      match IndexOf(parts[1..], x)
      case None => None
      case Some(i) =>
        assert parts[..i + 1] == [parts[0]] + parts[1..][..i];
        Some(i + 1)
  }

  /**
   * `Path(*parts[:collections_idx + 2])`: the prefix ending one component
   * after the first "collections", absent when there is no "collections"
   * component or the first one is the last component.
   */
  function CollectionDir(searchPath: Path): (r: Option<Path>)
    ensures r.None? <==> "collections" !in searchPath || IndexOf(searchPath, "collections").value + 1 >= |searchPath|
    ensures r.Some? ==>
      2 <= |r.value| <= |searchPath| && r.value == searchPath[..|r.value|] &&
      r.value[|r.value| - 2] == "collections" && "collections" !in r.value[..|r.value| - 2]
  {
    if "collections" !in searchPath then None
    else
      var idx := IndexOf(searchPath, "collections").value;
      if idx + 1 >= |searchPath| then None
      else
        assert searchPath[..idx + 2][..idx] == searchPath[..idx];
        Some(searchPath[..idx + 2])
  }

  lemma {:induction false} IndexOfExtends(parts: seq<string>, suffix: seq<string>, x: string)
    requires x in parts
    ensures IndexOf(parts + suffix, x) == IndexOf(parts, x)
  {
    if parts[0] != x {
      assert (parts + suffix)[1..] == parts[1..] + suffix;
      IndexOfExtends(parts[1..], suffix, x);
    }
  }

  /** Components below the collection directory do not change which directory it is. */
  lemma DeeperPathSameCollection(searchPath: Path, suffix: seq<string>)
    requires CollectionDir(searchPath).Some?
    ensures CollectionDir(searchPath + suffix) == CollectionDir(searchPath)
  {
    IndexOfExtends(searchPath, suffix, "collections");
    var idx := IndexOf(searchPath, "collections").value;
    assert (searchPath + suffix)[..idx + 2] == searchPath[..idx + 2];
  }

  /** The declared name in `dir/pyproject.toml`, if it reads without error. */
  function DeclaredName(fs: Snapshot, dir: Path): Option<string> {
    match Schema.FromPyproject(fs, dir + [PyprojectName])
    case Success(m) => Some(m.name)
    case Failure(_) => None
  }

  /** The flat layout's name: pyproject.toml directly in the collection directory. */
  function FlatName(fs: Snapshot, dir: Path): Option<string> {
    if HasPyproject(fs, dir) then DeclaredName(fs, dir) else None
  }

  /** A subdirectory the nested search looks into. */
  predicate NestedCandidate(fs: Snapshot, dir: Path, n: string) {
    IsDir(fs, dir + [n]) && !StartsWith(n, ".") && !EndsWith(n, ".dist-info") && HasPyproject(fs, dir + [n])
  }

  /** Every name the nested search could return, one per readable candidate. */
  function NestedNames(fs: Snapshot, dir: Path): set<string> {
    if !IsDir(fs, dir) then {}
    else set n | n in ChildNames(fs, dir) && NestedCandidate(fs, dir, n) && DeclaredName(fs, dir + [n]).Some?
             :: DeclaredName(fs, dir + [n]).value
  }

  /**
   * `extract_collection_name_from_path`. The nested search visits the
   * subdirectories in an unspecified order and returns the first readable
   * candidate, so when several are readable the result is one of their names.
   */
  method ExtractCollectionName(fs: Snapshot, searchPath: Path) returns (r: Option<string>)
    ensures r.None? <==> CollectionDir(searchPath).None?
    ensures CollectionDir(searchPath).Some? ==>
      var dir := CollectionDir(searchPath).value;
      (FlatName(fs, dir).Some? ==> r == FlatName(fs, dir)) &&
      (FlatName(fs, dir).None? && NestedNames(fs, dir) != {} ==> r.Some? && r.value in NestedNames(fs, dir)) &&
      (FlatName(fs, dir).None? && NestedNames(fs, dir) == {} ==> r == Some(Name(dir)))
  {
    if "collections" !in searchPath {
      return None;
    }
    var collectionsIdx := IndexOf(searchPath, "collections").value;
    if collectionsIdx + 1 >= |searchPath| {
      return None;
    }
    var collectionDir := searchPath[..collectionsIdx + 2];
    assert collectionDir == CollectionDir(searchPath).value;

    // Strategy 1: flat layout
    if Exists(fs, collectionDir + [PyprojectName]) {
      var metadata := Schema.FromPyproject(fs, collectionDir + [PyprojectName]);
      if metadata.Success? {
        return Some(metadata.value.name);
      }
      // a read failure is swallowed
    }

    // Strategy 2: nested layout; iterdir() on a missing directory raises, which is swallowed
    if IsDir(fs, collectionDir) {
      var remaining := ChildNames(fs, collectionDir);
      while remaining != {}
        invariant remaining <= ChildNames(fs, collectionDir)
        invariant forall n :: n in ChildNames(fs, collectionDir) - remaining && NestedCandidate(fs, collectionDir, n)
                    ==> DeclaredName(fs, collectionDir + [n]).None?
        decreases remaining
      {
        var item :| item in remaining;
        var itemPath := collectionDir + [item];
        if IsDir(fs, itemPath) && !StartsWith(item, ".") && !EndsWith(item, ".dist-info")
           && Exists(fs, itemPath + [PyprojectName]) {
          var metadata := Schema.FromPyproject(fs, itemPath + [PyprojectName]);
          if metadata.Success? {
            assert DeclaredName(fs, itemPath) == Some(metadata.value.name);
            return Some(metadata.value.name);
          }
        }
        remaining := remaining - {item};
      }
    }

    // Fallback: the directory's own name
    return Some(collectionDir[|collectionDir| - 1]);
  }
}

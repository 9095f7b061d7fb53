/**
 * Resolving collection names to directories over search roots ordered from
 * lowest to highest precedence. A collection is identified by its directory
 * name alone: `root/name` qualifies when it is a directory holding an entry
 * named pyproject.toml.
 */
module Resolver {
  import opened Wrappers
  import opened FileSystem

  /** `root/name` is a directory containing pyproject.toml. */
  predicate Qualifies(fs: Snapshot, root: Path, name: string) {
    IsDir(fs, root + [name]) && HasPyproject(fs, root + [name])
  }

  /**
   * What `resolve(name)` returns: `root/name` for the last qualifying root.
   * It is absent exactly when no root qualifies; otherwise it lies under the
   * highest-index qualifying root and ends with `name`. The name must be
   * one path component, so that `root / name` appends exactly it.
   */
  function ResolveIn(roots: seq<Path>, fs: Snapshot, name: string): (r: Option<Path>)
    requires SingleComponent(name)
    ensures r.None? <==> forall i :: 0 <= i < |roots| ==> !Qualifies(fs, roots[i], name)
    ensures r.Some? ==>
      exists i :: 0 <= i < |roots| && Qualifies(fs, roots[i], name) && r.value == roots[i] + [name] &&
        forall j :: i < j < |roots| ==> !Qualifies(fs, roots[j], name)
    ensures r.Some? ==> IsDir(fs, r.value) && Name(r.value) == name
    decreases |roots|
  {
    if roots == [] then None
    else if Qualifies(fs, roots[|roots| - 1], name) then Some(roots[|roots| - 1] + [name])
    else
      var r := ResolveIn(roots[..|roots| - 1], fs, name);
      assert forall i :: 0 <= i < |roots| - 1 ==> roots[..|roots| - 1][i] == roots[i];
      r
  }

  /** The qualifying entries of one root, keyed by directory name. */
  function RootEntries(fs: Snapshot, root: Path): (m: map<string, Path>)
    ensures forall n :: n in m <==> Qualifies(fs, root, n)
    ensures forall n :: n in m ==> m[n] == root + [n]
  {
    map n | n in ChildNames(fs, root) && Qualifies(fs, root, n) :: root + [n]
  }

  datatype ListError = NotADirectory(path: Path)

  /**
   * What `list_collections()` computes: roots are taken first to last, a
   * missing root is skipped, an existing root that is not a directory makes
   * `iterdir()` fail, and entries of later roots overwrite earlier ones.
   */
  function ListIn(roots: seq<Path>, fs: Snapshot): (r: Result<map<string, Path>, ListError>)
    ensures r.Failure? ==> r.error.path in roots
    ensures r.Success? ==> forall n :: n in r.value ==> Name(r.value[n]) == n
    decreases |roots|
  {
    if roots == [] then Success(map[])
    else
      var root := roots[|roots| - 1];
      match ListIn(roots[..|roots| - 1], fs)
      case Failure(e) =>
        assert e.path in roots[..|roots| - 1];
        Failure(e)
      case Success(m) =>
        if !Exists(fs, root) then Success(m)
        else if !IsDir(fs, root) then Failure(NotADirectory(root))
        else Success(m + RootEntries(fs, root))
  }

  class CollectionResolver {
    /** Search roots, lowest precedence first. Never reordered. */
    const searchPaths: seq<Path>

    constructor (searchPaths: seq<Path>)
      ensures this.searchPaths == searchPaths
    {
      this.searchPaths := searchPaths;
    }

    /** `resolve`: scans the roots from last to first and stops at the first that qualifies. */
    method Resolve(fs: Snapshot, collectionName: string) returns (r: Option<Path>)
      requires SingleComponent(collectionName)
      ensures r == ResolveIn(searchPaths, fs, collectionName)
    {
      var i := |searchPaths|;
      while i > 0
        invariant 0 <= i <= |searchPaths|
        invariant ResolveIn(searchPaths, fs, collectionName) == ResolveIn(searchPaths[..i], fs, collectionName)
      {
        var searchPath := searchPaths[i - 1];
        var candidate := searchPath + [collectionName];
        if Exists(fs, candidate) && IsDir(fs, candidate) && Exists(fs, candidate + [PyprojectName]) {
          assert searchPaths[..i][i - 1] == searchPath;
          return Some(candidate);
        }
        assert searchPaths[..i][..i - 1] == searchPaths[..i - 1];
        i := i - 1;
      }
      return None;
    }

    /** `resolve_collection_path`: the protocol's name for `resolve`. */
    method ResolveCollectionPath(fs: Snapshot, collectionName: string) returns (r: Option<Path>)
      requires SingleComponent(collectionName)
      ensures r == ResolveIn(searchPaths, fs, collectionName)
    {
      r := Resolve(fs, collectionName);
    }

    /** `list_collections`: a name-to-path map built root by root, later roots overwriting. */
    method ListCollections(fs: Snapshot) returns (r: Result<map<string, Path>, ListError>)
      ensures r == ListIn(searchPaths, fs)
    {
      var collections: map<string, Path> := map[];
      var i := 0;
      while i < |searchPaths|
        invariant 0 <= i <= |searchPaths|
        invariant ListIn(searchPaths[..i], fs) == Success(collections)
      {
        var searchPath := searchPaths[i];
        assert searchPaths[..i + 1][..i] == searchPaths[..i];
        if !Exists(fs, searchPath) {
          i := i + 1;
          continue;
        }
        if !IsDir(fs, searchPath) {
          // iterdir() on a file raises NotADirectoryError, which is not caught
          FailureIsFinal(searchPaths, fs, i + 1);
          return Failure(NotADirectory(searchPath));
        }
        collections := ScanRoot(fs, searchPath, collections);
        i := i + 1;
      }
      assert searchPaths[..|searchPaths|] == searchPaths;
      return Success(collections);
    }
  }

  /** The qualifying entries of `root` among the names in `names`. */
  function EntriesAmong(fs: Snapshot, root: Path, names: set<string>): map<string, Path> {
    map n | n in names && Qualifies(fs, root, n) :: root + [n]
  }

  lemma EntriesAmongStep(fs: Snapshot, root: Path, names: set<string>, n: string)
    ensures EntriesAmong(fs, root, names + {n}) ==
      if Qualifies(fs, root, n) then EntriesAmong(fs, root, names)[n := root + [n]] else EntriesAmong(fs, root, names)
  {
  }

  lemma UpdateAfterUnion(a: map<string, Path>, b: map<string, Path>, k: string, v: Path)
    ensures (a + b)[k := v] == a + b[k := v]
  {
  }

  /** The inner loop of `list_collections`: adds one root's qualifying entries to `collections`. */
  method ScanRoot(fs: Snapshot, searchPath: Path, collections: map<string, Path>) returns (updated: map<string, Path>)
    ensures updated == collections + RootEntries(fs, searchPath)
  {
    updated := collections;
    var remaining := ChildNames(fs, searchPath);
    ghost var done: set<string> := {};
    while remaining != {}
      invariant done + remaining == ChildNames(fs, searchPath)
      invariant updated == collections + EntriesAmong(fs, searchPath, done)
      decreases remaining
    {
      var collectionDir :| collectionDir in remaining;
      var dirPath := searchPath + [collectionDir];
      EntriesAmongStep(fs, searchPath, done, collectionDir);
      if IsDir(fs, dirPath) && Exists(fs, dirPath + [PyprojectName]) {
        UpdateAfterUnion(collections, EntriesAmong(fs, searchPath, done), collectionDir, dirPath);
        updated := updated[collectionDir := dirPath];
      }
      remaining := remaining - {collectionDir};
      done := done + {collectionDir};
    }
    assert EntriesAmong(fs, searchPath, done) == RootEntries(fs, searchPath);
  }

  /** Once listing a prefix of the roots has failed, listing every longer prefix fails the same way. */
  lemma {:induction false} FailureIsFinal(roots: seq<Path>, fs: Snapshot, k: nat)
    requires 0 < k <= |roots|
    requires Exists(fs, roots[k - 1]) && !IsDir(fs, roots[k - 1])
    requires ListIn(roots[..k - 1], fs).Success?
    ensures ListIn(roots, fs) == Failure(NotADirectory(roots[k - 1]))
    decreases |roots|
  {
    if k == |roots| {
      assert roots[..|roots| - 1] == roots[..k - 1];
    } else {
      assert roots[..|roots| - 1][..k - 1] == roots[..k - 1];
      FailureIsFinal(roots[..|roots| - 1], fs, k);
    }
  }

  /**
   * The listing has an entry for `n` exactly when some root qualifies for it,
   * and that entry is `n` under the highest qualifying root.
   */
  lemma {:induction false} ListPrecedence(roots: seq<Path>, fs: Snapshot, n: string)
    requires WellFormed(fs)
    requires ListIn(roots, fs).Success?
    ensures n in ListIn(roots, fs).value <==> exists i :: 0 <= i < |roots| && Qualifies(fs, roots[i], n)
    ensures n in ListIn(roots, fs).value ==>
      exists i :: 0 <= i < |roots| && ListIn(roots, fs).value[n] == roots[i] + [n] && Qualifies(fs, roots[i], n) &&
        forall j :: i < j < |roots| ==> !Qualifies(fs, roots[j], n)
    decreases |roots|
  {
    if roots != [] {
      var last := |roots| - 1;
      var front := roots[..last];
      ListLastStep(roots, fs, n);
      ListPrecedence(front, fs, n);
      var m := ListIn(roots, fs).value;
      if Qualifies(fs, roots[last], n) {
        assert m[n] == roots[last] + [n];
      } else {
        ListPrecedenceSkip(roots, fs, n);
      }
    }
  }

  /** The inductive step of `ListPrecedence` when the last root does not qualify for `n`. */
  lemma ListPrecedenceSkip(roots: seq<Path>, fs: Snapshot, n: string)
    requires WellFormed(fs) && roots != [] && !Qualifies(fs, roots[|roots| - 1], n)
    requires ListIn(roots, fs).Success? && ListIn(roots[..|roots| - 1], fs).Success?
    requires var front := roots[..|roots| - 1];
      (n in ListIn(front, fs).value <==> exists i :: 0 <= i < |front| && Qualifies(fs, front[i], n)) &&
      (n in ListIn(front, fs).value ==>
        exists i :: 0 <= i < |front| && ListIn(front, fs).value[n] == front[i] + [n] && Qualifies(fs, front[i], n) &&
          forall j :: i < j < |front| ==> !Qualifies(fs, front[j], n))
    ensures n in ListIn(roots, fs).value <==> exists i :: 0 <= i < |roots| && Qualifies(fs, roots[i], n)
    ensures n in ListIn(roots, fs).value ==>
      exists i :: 0 <= i < |roots| && ListIn(roots, fs).value[n] == roots[i] + [n] && Qualifies(fs, roots[i], n) &&
        forall j :: i < j < |roots| ==> !Qualifies(fs, roots[j], n)
  {
    var front := roots[..|roots| - 1];
    ListLastStep(roots, fs, n);
    if n in ListIn(roots, fs).value {
      var i :| 0 <= i < |front| && ListIn(front, fs).value[n] == front[i] + [n] && Qualifies(fs, front[i], n) &&
        forall j :: i < j < |front| ==> !Qualifies(fs, front[j], n);
      NoneQualifiesAfter(roots, front, fs, n, i + 1);
      assert roots[i] == front[i];
    } else {
      NoneQualifiesAfter(roots, front, fs, n, 0);
    }
  }

  /** No root of `front` from index `k` on qualifies, nor the root after it: so none of `roots` from `k` on does. */
  lemma NoneQualifiesAfter(roots: seq<Path>, front: seq<Path>, fs: Snapshot, n: string, k: nat)
    requires roots != [] && front == roots[..|roots| - 1] && !Qualifies(fs, roots[|roots| - 1], n)
    requires forall j :: k <= j < |front| ==> !Qualifies(fs, front[j], n)
    ensures forall j :: k <= j < |roots| ==> !Qualifies(fs, roots[j], n)
  {
    forall j | k <= j < |roots| ensures !Qualifies(fs, roots[j], n) {
      if j < |front| {
        assert roots[j] == front[j];
      }
    }
  }

  /** One more root: it supplies `n` when it qualifies for it, and otherwise the entry for `n` is unchanged. */
  lemma ListLastStep(roots: seq<Path>, fs: Snapshot, n: string)
    requires WellFormed(fs) && roots != []
    requires ListIn(roots, fs).Success?
    ensures ListIn(roots[..|roots| - 1], fs).Success?
    ensures Qualifies(fs, roots[|roots| - 1], n) ==>
      n in ListIn(roots, fs).value && ListIn(roots, fs).value[n] == roots[|roots| - 1] + [n]
    ensures !Qualifies(fs, roots[|roots| - 1], n) ==>
      (n in ListIn(roots, fs).value <==> n in ListIn(roots[..|roots| - 1], fs).value) &&
      (n in ListIn(roots, fs).value ==> ListIn(roots, fs).value[n] == ListIn(roots[..|roots| - 1], fs).value[n])
  {
    var root := roots[|roots| - 1];
    if Qualifies(fs, root, n) {
      ChildrenOnlyInDirectories(fs, root, n);
    }
  }

  /** Every listed name resolves to exactly the listed path, and every resolvable name is listed. */
  lemma ListAgreesWithResolve(roots: seq<Path>, fs: Snapshot, n: string)
    requires WellFormed(fs) && SingleComponent(n)
    requires ListIn(roots, fs).Success?
    ensures n in ListIn(roots, fs).value <==> ResolveIn(roots, fs, n).Some?
    ensures n in ListIn(roots, fs).value ==> ResolveIn(roots, fs, n) == Some(ListIn(roots, fs).value[n])
  {
    ListPrecedence(roots, fs, n);
    if n in ListIn(roots, fs).value {
      var i :| 0 <= i < |roots| && ListIn(roots, fs).value[n] == roots[i] + [n] && Qualifies(fs, roots[i], n) &&
        forall j :: i < j < |roots| ==> !Qualifies(fs, roots[j], n);
      var k :| 0 <= k < |roots| && Qualifies(fs, roots[k], n) && ResolveIn(roots, fs, n).value == roots[k] + [n] &&
        forall j :: k < j < |roots| ==> !Qualifies(fs, roots[j], n);
      assert i == k;
    }
  }

  /** Listing fails exactly when some root exists but is not a directory. */
  lemma {:induction false} ListFailsOnlyOnFileRoot(roots: seq<Path>, fs: Snapshot)
    ensures ListIn(roots, fs).Failure? <==> exists i :: 0 <= i < |roots| && Exists(fs, roots[i]) && !IsDir(fs, roots[i])
    decreases |roots|
  {
    if roots != [] {
      var front := roots[..|roots| - 1];
      ListFailsOnlyOnFileRoot(front, fs);
      assert forall i :: 0 <= i < |front| ==> front[i] == roots[i];
      if ListIn(front, fs).Failure? {
        var i :| 0 <= i < |front| && Exists(fs, front[i]) && !IsDir(fs, front[i]);
        assert roots[i] == front[i];
      }
    }
  }

  /** With no existing root, nothing resolves and the listing is empty. */
  lemma {:induction false} NothingWithoutRoots(roots: seq<Path>, fs: Snapshot, n: string)
    requires WellFormed(fs) && SingleComponent(n)
    requires forall i :: 0 <= i < |roots| ==> !Exists(fs, roots[i])
    ensures ResolveIn(roots, fs, n) == None
    ensures ListIn(roots, fs) == Success(map[])
    decreases |roots|
  {
    if roots != [] {
      var front := roots[..|roots| - 1];
      assert forall i :: 0 <= i < |front| ==> front[i] == roots[i];
      NothingWithoutRoots(front, fs, n);
      forall i | 0 <= i < |roots| ensures !Qualifies(fs, roots[i], n) {
        if Qualifies(fs, roots[i], n) {
          ChildrenOnlyInDirectories(fs, roots[i], n);
        }
      }
    }
  }
}

/** The two-root scenario of the resolver's tests, worked through the lemmas above. */
module ResolverScenario {
  import opened Wrappers
  import opened FileSystem
  import opened Resolver

  const Bundled: Path := ["/", "tmp", "bundled"]
  const User: Path := ["/", "tmp", "user"]

  /**
   * `foundation` is installed under both roots, `custom` under the user
   * root only.
   */
  function ScenarioSnapshot(): Snapshot {
    map[
      Bundled + ["foundation", PyprojectName] := File(Other),
      User + ["foundation", PyprojectName] := File(Other),
      User + ["custom", PyprojectName] := File(Other),
      [] := Directory,
      ["/"] := Directory,
      ["/", "tmp"] := Directory,
      Bundled := Directory,
      User := Directory,
      Bundled + ["foundation"] := Directory,
      User + ["foundation"] := Directory,
      User + ["custom"] := Directory]
  }

  lemma ParentInScenario(p: Path)
    requires p in ScenarioSnapshot() && p != []
    ensures IsDir(ScenarioSnapshot(), p[..|p| - 1])
  {
    var fs := ScenarioSnapshot();
    var f := ["foundation", PyprojectName];
    var c := ["custom", PyprojectName];
    if p == ["/"] {
      assert p[..0] == [];
    } else if p == ["/", "tmp"] {
      assert p[..1] == ["/"];
    } else if p == Bundled || p == User {
      assert p[..2] == ["/", "tmp"];
    } else if p == Bundled + ["foundation"] {
      assert p[..3] == Bundled;
    } else if p == User + ["foundation"] || p == User + ["custom"] {
      assert p[..3] == User;
    } else if p == Bundled + f {
      assert p[..4] == Bundled + ["foundation"];
    } else if p == User + f {
      assert p[..4] == User + ["foundation"];
    } else {
      assert p == User + c;
      assert p[..4] == User + ["custom"];
    }
  }

  lemma ScenarioWellFormed()
    ensures WellFormed(ScenarioSnapshot())
  {
    forall p | p in ScenarioSnapshot() && p != [] ensures IsDir(ScenarioSnapshot(), p[..|p| - 1]) {
      ParentInScenario(p);
    }
  }

  /** The entries one level below a root are the three collection directories. */
  lemma DepthFour(p: Path)
    requires p in ScenarioSnapshot() && |p| == 4
    ensures p == Bundled + ["foundation"] || p == User + ["foundation"] || p == User + ["custom"]
  {
  }

  lemma ScenarioQualifies()
    ensures Qualifies(ScenarioSnapshot(), Bundled, "foundation")
    ensures Qualifies(ScenarioSnapshot(), User, "foundation")
    ensures Qualifies(ScenarioSnapshot(), User, "custom")
    ensures IsDir(ScenarioSnapshot(), Bundled) && IsDir(ScenarioSnapshot(), User)
  {
    assert Bundled + ["foundation"] + [PyprojectName] == Bundled + ["foundation", PyprojectName];
    assert User + ["foundation"] + [PyprojectName] == User + ["foundation", PyprojectName];
    assert User + ["custom"] + [PyprojectName] == User + ["custom", PyprojectName];
  }

  /** Only `foundation` and `custom` qualify under any root. */
  lemma OnlyTwoNames(root: Path, n: string)
    requires |root| == 3 && Qualifies(ScenarioSnapshot(), root, n)
    ensures n == "foundation" || n == "custom"
  {
    var p := root + [n];
    assert p[3] == n;
    DepthFour(p);
  }

  /** `foundation` is found under both roots; the later (user) root wins. */
  lemma UserOverridesBundled()
    ensures SingleComponent("foundation") && SingleComponent("nonexistent")
    ensures ResolveIn([Bundled, User], ScenarioSnapshot(), "foundation") == Some(User + ["foundation"])
    ensures ResolveIn([Bundled, User], ScenarioSnapshot(), "nonexistent") == None
  {
    ScenarioQualifies();
    assert [Bundled, User][..1] == [Bundled];
    if Qualifies(ScenarioSnapshot(), User, "nonexistent") {
      OnlyTwoNames(User, "nonexistent");
    }
    if Qualifies(ScenarioSnapshot(), Bundled, "nonexistent") {
      OnlyTwoNames(Bundled, "nonexistent");
    }
  }

  /** Listing directory roots succeeds. */
  lemma DirectoryRootsList(roots: seq<Path>, fs: Snapshot)
    requires forall i :: 0 <= i < |roots| ==> IsDir(fs, roots[i])
    ensures ListIn(roots, fs).Success?
  {
    ListFailsOnlyOnFileRoot(roots, fs);
  }

  /** A listed name is one that qualifies under some root. */
  lemma ListedQualifies(roots: seq<Path>, fs: Snapshot, n: string, names: set<string>)
    requires WellFormed(fs) && ListIn(roots, fs).Success?
    requires forall i, n :: 0 <= i < |roots| && Qualifies(fs, roots[i], n) ==> n in names
    ensures n in ListIn(roots, fs).value ==> n in names
  {
    ListPrecedence(roots, fs, n);
  }

  /** A name that qualifies under the last root is listed at that root. */
  lemma LastRootListed(roots: seq<Path>, fs: Snapshot, n: string)
    requires WellFormed(fs) && ListIn(roots, fs).Success? && roots != []
    requires Qualifies(fs, roots[|roots| - 1], n)
    ensures n in ListIn(roots, fs).value && ListIn(roots, fs).value[n] == roots[|roots| - 1] + [n]
  {
    ListPrecedence(roots, fs, n);
  }

  /**
   * When the listing succeeds, every name that qualifies anywhere lies in
   * `names`, and each of `names` qualifies under the last root, the listing
   * holds exactly `names`, each under the last root.
   */
  lemma ListingUnderLastRoot(roots: seq<Path>, fs: Snapshot, names: set<string>)
    requires WellFormed(fs) && ListIn(roots, fs).Success? && roots != []
    requires forall i, n :: 0 <= i < |roots| && Qualifies(fs, roots[i], n) ==> n in names
    requires forall n :: n in names ==> Qualifies(fs, roots[|roots| - 1], n)
    ensures ListIn(roots, fs).value.Keys == names
    ensures forall n :: n in names ==> ListIn(roots, fs).value[n] == roots[|roots| - 1] + [n]
  {
    forall n ensures n in ListIn(roots, fs).value ==> n in names {
      ListedQualifies(roots, fs, n, names);
    }
    forall n | n in names ensures n in ListIn(roots, fs).value && ListIn(roots, fs).value[n] == roots[|roots| - 1] + [n] {
      LastRootListed(roots, fs, n);
    }
  }

  /** Every name that qualifies in the scenario is `foundation` or `custom`. */
  lemma ScenarioNames(roots: seq<Path>, fs: Snapshot)
    requires roots == [Bundled, User] && fs == ScenarioSnapshot()
    ensures forall i, n :: 0 <= i < |roots| && Qualifies(fs, roots[i], n) ==> n == "foundation" || n == "custom"
  {
    forall i, n | 0 <= i < |roots| && Qualifies(fs, roots[i], n)
      ensures n == "foundation" || n == "custom"
    {
      OnlyTwoNames(roots[i], n);
    }
  }

  lemma ScenarioFacts(roots: seq<Path>, fs: Snapshot)
    requires roots == [Bundled, User] && fs == ScenarioSnapshot()
    ensures WellFormed(fs) && ListIn(roots, fs).Success? && roots != [] && roots[|roots| - 1] == User
    ensures forall i, n :: 0 <= i < |roots| && Qualifies(fs, roots[i], n) ==> n == "foundation" || n == "custom"
    ensures Qualifies(fs, User, "foundation") && Qualifies(fs, User, "custom")
  {
    ScenarioWellFormed();
    ScenarioQualifies();
    DirectoryRootsList(roots, fs);
    ScenarioNames(roots, fs);
  }

  /** Two names qualify anywhere, both under the last root: the listing holds those two, from the last root. */
  lemma ListingOfTwo(roots: seq<Path>, fs: Snapshot, a: string, b: string)
    requires WellFormed(fs) && ListIn(roots, fs).Success? && roots != []
    requires forall i, n :: 0 <= i < |roots| && Qualifies(fs, roots[i], n) ==> n == a || n == b
    requires Qualifies(fs, roots[|roots| - 1], a) && Qualifies(fs, roots[|roots| - 1], b)
    ensures var m := ListIn(roots, fs).value;
      m.Keys == {a, b} && m[a] == roots[|roots| - 1] + [a] && m[b] == roots[|roots| - 1] + [b]
  {
    ListingUnderLastRoot(roots, fs, {a, b});
  }

  /**
   * The listing succeeds and holds exactly `foundation`, taken from the user
   * root, and `custom`.
   */
  lemma ScenarioListing(roots: seq<Path>, fs: Snapshot)
    requires roots == [Bundled, User] && fs == ScenarioSnapshot()
    ensures ListIn(roots, fs).Success?
    ensures var m := ListIn(roots, fs).value;
      m.Keys == {"foundation", "custom"} && m["foundation"] == User + ["foundation"] && m["custom"] == User + ["custom"]
  {
    ScenarioFacts(roots, fs);
    ListingOfTwo(roots, fs, "foundation", "custom");
  }
}

/**
 * Discovering the resources of a collection directory by convention:
 * `.md` files directly in `profiles/` and `agents/`, `.md` files at any
 * depth under `context/`, and the subdirectories of `scenario-tools/` and
 * `modules/` that hold a pyproject.toml. Every list comes back sorted.
 */
module Discovery {
  import opened FileSystem
  import opened Ordering

  datatype CollectionResources = CollectionResources(
    profiles: seq<Path>,
    agents: seq<Path>,
    context: seq<Path>,
    scenarioTools: seq<Path>,
    modules: seq<Path>)
  {
    /** `has_resources`. */
    predicate HasResources() {
      profiles != [] || agents != [] || context != [] || scenarioTools != [] || modules != []
    }
  }

  /** `has_resources` holds exactly when at least one resource was discovered. */
  lemma HasResourcesIffSomeResource(r: CollectionResources)
    ensures r.HasResources() <==> |r.profiles| + |r.agents| + |r.context| + |r.scenarioTools| + |r.modules| > 0
  {
  }

  /** `dir.glob("*.md")` filtered by `is_file()`, for an existing directory `dir`. */
  function MarkdownFiles(fs: Snapshot, dir: Path): set<Path> {
    if !IsDir(fs, dir) then {}
    else set n | n in ChildNames(fs, dir) && EndsWith(n, ".md") && IsFile(fs, dir + [n]) :: dir + [n]
  }

  // The recursive glob for .md files under `dir`, filtered by `is_file()`.
  function MarkdownTree(fs: Snapshot, dir: Path): set<Path> {
    if !IsDir(fs, dir) then {}
    else set p | p in fs.Keys && |p| > |dir| && p[..|dir|] == dir && EndsWith(Name(p), ".md") && IsFile(fs, p)
  }

  /** The immediate subdirectories of `dir` that hold a pyproject.toml. */
  function PackageSet(fs: Snapshot, dir: Path): set<Path> {
    if !IsDir(fs, dir) then {}
    else set n | n in ChildNames(fs, dir) && IsDir(fs, dir + [n]) && HasPyproject(fs, dir + [n]) :: dir + [n]
  }

  /** Profiles and agents: the files directly inside `dir` whose names end in ".md". */
  lemma MarkdownFilesMembers(fs: Snapshot, dir: Path, p: Path)
    ensures p in MarkdownFiles(fs, dir) <==>
      IsDir(fs, dir) && |p| == |dir| + 1 && p[..|dir|] == dir && EndsWith(Name(p), ".md") && IsFile(fs, p)
  {
    if |p| == |dir| + 1 && p[..|dir|] == dir {
      assert p == dir + [Name(p)];
    }
  }

  /**
   * Context: the recursive glob is a walk of the tree. Its files are the
   * `.md` files directly in `dir` and those found by walking each
   * subdirectory in turn.
   */
  lemma MarkdownTreeWalk(fs: Snapshot, dir: Path, p: Path)
    requires WellFormed(fs)
    ensures p in MarkdownTree(fs, dir) <==>
      p in MarkdownFiles(fs, dir) || exists s :: IsDir(fs, dir + [s]) && p in MarkdownTree(fs, dir + [s])
  {
    MarkdownFilesMembers(fs, dir, p);
    if p in MarkdownTree(fs, dir) && |p| > |dir| + 1 {
      TreeEntryBelowChild(fs, dir, p);
    }
    if exists s :: IsDir(fs, dir + [s]) && p in MarkdownTree(fs, dir + [s]) {
      var s :| IsDir(fs, dir + [s]) && p in MarkdownTree(fs, dir + [s]);
      ChildTreeInTree(fs, dir, s, p);
    }
  }

  /** A file deeper than one level lies in the tree of the subdirectory it passes through. */
  lemma TreeEntryBelowChild(fs: Snapshot, dir: Path, p: Path)
    requires WellFormed(fs) && p in MarkdownTree(fs, dir) && |p| > |dir| + 1
    ensures IsDir(fs, dir + [p[|dir|]]) && p in MarkdownTree(fs, dir + [p[|dir|]])
  {
    var s := p[|dir|];
    AncestorsAreDirs(fs, p, |dir| + 1);
    assert p[..|dir| + 1] == dir + [s];
  }

  /** The tree of a subdirectory is part of the tree of its directory. */
  lemma ChildTreeInTree(fs: Snapshot, dir: Path, s: string, p: Path)
    requires WellFormed(fs) && IsDir(fs, dir + [s]) && p in MarkdownTree(fs, dir + [s])
    ensures p in MarkdownTree(fs, dir)
  {
    ChildrenOnlyInDirectories(fs, dir, s);
    assert p[..|dir|] == p[..|dir| + 1][..|dir|];
  }

  /** Scenario tools and modules: the subdirectories of `dir` that hold a pyproject.toml. */
  lemma PackageSetMembers(fs: Snapshot, dir: Path, p: Path)
    ensures p in PackageSet(fs, dir) <==>
      IsDir(fs, dir) && |p| == |dir| + 1 && p[..|dir|] == dir && IsDir(fs, p) && HasPyproject(fs, p)
  {
    if |p| == |dir| + 1 && p[..|dir|] == dir {
      assert p == dir + [Name(p)];
    }
  }

  /** `s` lists exactly the paths of `elements`, strictly ascending. */
  ghost predicate Lists(s: seq<Path>, elements: set<Path>) {
    StrictlySorted(s) && forall p :: p in s <==> p in elements
  }

  predicate NameSorted(s: seq<Path>) {
    forall i, j :: 0 <= i < j < |s| ==> StrLe(Name(s[i]), Name(s[j]))
  }

  predicate Distinct(s: seq<Path>) {
    forall i, j :: 0 <= i < j < |s| ==> s[i] != s[j]
  }

  lemma InsertKeepsNameSorted(r: seq<Path>, k: nat, x: Path)
    requires k <= |r| && NameSorted(r)
    requires k > 0 ==> StrLe(Name(r[k - 1]), Name(x))
    requires forall j :: k <= j < |r| ==> !StrLe(Name(r[j]), Name(x))
    ensures NameSorted(r[..k] + [x] + r[k..])
  {
    var s := r[..k] + [x] + r[k..];
    assert forall i :: 0 <= i < k ==> s[i] == r[i];
    assert s[k] == x;
    assert forall i :: k < i < |s| ==> s[i] == r[i - 1];
    forall i, j | 0 <= i < j < |s| ensures StrLe(Name(s[i]), Name(s[j])) {
      if i < k && j == k {
        if i < k - 1 {
          StrLeTransitive(Name(r[i]), Name(r[k - 1]), Name(x));
        }
      } else if i == k {
        StrLeTotal(Name(r[j - 1]), Name(x));
      }
    }
  }

  /** `list.sort(key=lambda p: p.name)`: a permutation of `xs` in ascending name order. */
  method SortByName(xs: seq<Path>) returns (r: seq<Path>)
    ensures multiset(r) == multiset(xs)
    ensures NameSorted(r)
  {
    r := [];
    var i := 0;
    while i < |xs|
      invariant 0 <= i <= |xs|
      invariant multiset(r) == multiset(xs[..i])
      invariant NameSorted(r)
    {
      var x := xs[i];
      var k := |r|;
      while k > 0 && !StrLe(Name(r[k - 1]), Name(x))
        invariant 0 <= k <= |r|
        invariant forall j :: k <= j < |r| ==> !StrLe(Name(r[j]), Name(x))
      {
        k := k - 1;
      }
      InsertKeepsNameSorted(r, k, x);
      assert r == r[..k] + r[k..];
      assert xs[..i + 1] == xs[..i] + [x];
      r := r[..k] + [x] + r[k..];
      i := i + 1;
    }
    assert xs[..|xs|] == xs;
  }

  lemma {:induction false} DistinctCountsOnce(a: seq<Path>, x: Path)
    requires Distinct(a)
    ensures multiset(a)[x] <= 1
  {
    if a != [] {
      assert a == [a[0]] + a[1..];
      assert Distinct(a[1..]);
      DistinctCountsOnce(a[1..], x);
      if x == a[0] {
        assert x !in a[1..];
      }
    }
  }

  lemma RepeatCountsTwice(b: seq<Path>, i: nat, j: nat)
    requires i < j < |b| && b[i] == b[j]
    ensures multiset(b)[b[i]] >= 2
  {
    assert b == b[..j] + b[j..];
    assert b[i] in b[..j];
    assert b[j] in b[j..];
  }

  /** A permutation of a sequence without repeats has none. */
  lemma PermutationKeepsDistinct(a: seq<Path>, b: seq<Path>)
    requires Distinct(a) && multiset(a) == multiset(b)
    ensures Distinct(b)
  {
    forall i, j | 0 <= i < j < |b| ensures b[i] != b[j] {
      if b[i] == b[j] {
        RepeatCountsTwice(b, i, j);
        DistinctCountsOnce(a, b[i]);
      }
    }
  }

  /** Siblings sorted by name, without repeats, are sorted as paths. */
  lemma SiblingsStrictlySorted(dir: Path, s: seq<Path>)
    requires forall i :: 0 <= i < |s| ==> s[i] == dir + [Name(s[i])]
    requires NameSorted(s) && Distinct(s)
    ensures StrictlySorted(s)
  {
    forall i, j | 0 <= i < j < |s| ensures PathLt(s[i], s[j]) {
      SiblingsOrderedByName(dir, Name(s[i]), Name(s[j]));
    }
  }

  /** Siblings sorted as paths are sorted by name. */
  lemma SiblingsNameSorted(dir: Path, s: seq<Path>)
    requires forall i :: 0 <= i < |s| ==> s[i] == dir + [Name(s[i])]
    requires StrictlySorted(s)
    ensures NameSorted(s)
  {
    forall i, j | 0 <= i < j < |s| ensures StrLe(Name(s[i]), Name(s[j])) {
      SiblingsOrderedByName(dir, Name(s[i]), Name(s[j]));
    }
  }

  /** The `scenario-tools/` and `modules/` loop: collect qualifying subdirectories, then sort by name. */
  method PackageDirs(fs: Snapshot, dir: Path) returns (r: seq<Path>)
    ensures Lists(r, PackageSet(fs, dir))
    ensures NameSorted(r)
    ensures !IsDir(fs, dir) ==> r == []
  {
    var found: seq<Path> := [];
    if IsDir(fs, dir) {
      var remaining := ChildNames(fs, dir);
      while remaining != {}
        invariant remaining <= ChildNames(fs, dir)
        invariant forall p :: p in found <==> p in PackageSet(fs, dir) && Name(p) !in remaining
        invariant forall i :: 0 <= i < |found| ==> found[i] == dir + [Name(found[i])]
        invariant Distinct(found)
        decreases remaining
      {
        var n :| n in remaining;
        var subdir := dir + [n];
        if IsDir(fs, subdir) && Exists(fs, subdir + [PyprojectName]) {
          found := found + [subdir];
        }
        remaining := remaining - {n};
      }
    }
    r := SortByName(found);
    assert forall p :: p in r <==> p in found by {
      forall p ensures p in r <==> p in found {
        assert p in r <==> p in multiset(r);
        assert p in found <==> p in multiset(found);
      }
    }
    PermutationKeepsDistinct(found, r);
    forall i | 0 <= i < |r| ensures r[i] == dir + [Name(r[i])] {
      assert r[i] in found;
    }
    SiblingsStrictlySorted(dir, r);
  }

  /** `discover_collection_resources`. */
  method DiscoverCollectionResources(fs: Snapshot, collectionPath: Path) returns (r: CollectionResources)
    ensures Lists(r.profiles, MarkdownFiles(fs, collectionPath + ["profiles"]))
    ensures Lists(r.agents, MarkdownFiles(fs, collectionPath + ["agents"]))
    ensures Lists(r.context, MarkdownTree(fs, collectionPath + ["context"]))
    ensures Lists(r.scenarioTools, PackageSet(fs, collectionPath + ["scenario-tools"]))
    ensures Lists(r.modules, PackageSet(fs, collectionPath + ["modules"]))
    ensures NameSorted(r.profiles) && NameSorted(r.agents) && NameSorted(r.scenarioTools) && NameSorted(r.modules)
    ensures !IsDir(fs, collectionPath + ["profiles"]) ==> r.profiles == []
    ensures !IsDir(fs, collectionPath + ["agents"]) ==> r.agents == []
    ensures !IsDir(fs, collectionPath + ["context"]) ==> r.context == []
    ensures !IsDir(fs, collectionPath + ["scenario-tools"]) ==> r.scenarioTools == []
    ensures !IsDir(fs, collectionPath + ["modules"]) ==> r.modules == []
    ensures r.HasResources() <==>
      MarkdownFiles(fs, collectionPath + ["profiles"]) != {} ||
      MarkdownFiles(fs, collectionPath + ["agents"]) != {} ||
      MarkdownTree(fs, collectionPath + ["context"]) != {} ||
      PackageSet(fs, collectionPath + ["scenario-tools"]) != {} ||
      PackageSet(fs, collectionPath + ["modules"]) != {}
  {
    var profilesDir := collectionPath + ["profiles"];
    var profiles := SortedPaths(MarkdownFiles(fs, profilesDir));
    var agentsDir := collectionPath + ["agents"];
    var agents := SortedPaths(MarkdownFiles(fs, agentsDir));
    var contextDir := collectionPath + ["context"];
    var context := SortedPaths(MarkdownTree(fs, contextDir));
    var scenarioTools := PackageDirs(fs, collectionPath + ["scenario-tools"]);
    var modules := PackageDirs(fs, collectionPath + ["modules"]);
    MarkdownFilesNameSorted(fs, profilesDir, profiles);
    MarkdownFilesNameSorted(fs, agentsDir, agents);
    EmptyListing(profiles, MarkdownFiles(fs, profilesDir));
    EmptyListing(agents, MarkdownFiles(fs, agentsDir));
    EmptyListing(context, MarkdownTree(fs, contextDir));
    EmptyListing(scenarioTools, PackageSet(fs, collectionPath + ["scenario-tools"]));
    EmptyListing(modules, PackageSet(fs, collectionPath + ["modules"]));
    r := CollectionResources(profiles, agents, context, scenarioTools, modules);
  }

  lemma EmptyListing(s: seq<Path>, elements: set<Path>)
    requires Lists(s, elements)
    ensures s == [] <==> elements == {}
  {
    if s != [] {
      assert s[0] in elements;
    } else {
      assert forall p :: p !in elements;
    }
  }

  lemma MarkdownFilesNameSorted(fs: Snapshot, dir: Path, s: seq<Path>)
    requires Lists(s, MarkdownFiles(fs, dir))
    ensures NameSorted(s)
  {
    forall i | 0 <= i < |s| ensures s[i] == dir + [Name(s[i])] {
      assert s[i] in MarkdownFiles(fs, dir);
      MarkdownFilesMembers(fs, dir, s[i]);
    }
    SiblingsNameSorted(dir, s);
  }

  /** `list_profiles`: the stems of the discovered profiles, position by position. */
  method ListProfiles(fs: Snapshot, collectionPath: Path) returns (names: seq<string>)
    ensures var profiles := SortedPaths(MarkdownFiles(fs, collectionPath + ["profiles"]));
      |names| == |profiles| &&
      forall i :: 0 <= i < |names| ==>
        (names[i] == Stem(Name(profiles[i])) && (|Name(profiles[i])| > 3 ==> names[i] + ".md" == Name(profiles[i])))
  {
    var resources := DiscoverCollectionResources(fs, collectionPath);
    var dir := collectionPath + ["profiles"];
    StrictlySortedUnique(resources.profiles, SortedPaths(MarkdownFiles(fs, dir)));
    names := Stems(resources.profiles);
    forall i | 0 <= i < |resources.profiles| ensures EndsWith(Name(resources.profiles[i]), ".md") {
      assert resources.profiles[i] in MarkdownFiles(fs, dir);
      MarkdownFilesMembers(fs, dir, resources.profiles[i]);
    }
  }

  /** `list_agents`: the stems of the discovered agents, position by position. */
  method ListAgents(fs: Snapshot, collectionPath: Path) returns (names: seq<string>)
    ensures var agents := SortedPaths(MarkdownFiles(fs, collectionPath + ["agents"]));
      |names| == |agents| &&
      forall i :: 0 <= i < |names| ==>
        (names[i] == Stem(Name(agents[i])) && (|Name(agents[i])| > 3 ==> names[i] + ".md" == Name(agents[i])))
  {
    var resources := DiscoverCollectionResources(fs, collectionPath);
    var dir := collectionPath + ["agents"];
    StrictlySortedUnique(resources.agents, SortedPaths(MarkdownFiles(fs, dir)));
    names := Stems(resources.agents);
    forall i | 0 <= i < |resources.agents| ensures EndsWith(Name(resources.agents[i]), ".md") {
      assert resources.agents[i] in MarkdownFiles(fs, dir);
      MarkdownFilesMembers(fs, dir, resources.agents[i]);
    }
  }

  /** `[p.stem for p in paths]`. */
  function Stems(paths: seq<Path>): (r: seq<string>)
    ensures |r| == |paths| && forall i :: 0 <= i < |paths| ==> r[i] == Stem(Name(paths[i]))
  {
    seq(|paths|, i requires 0 <= i < |paths| => Stem(Name(paths[i])))
  }
}

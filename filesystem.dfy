/**
 * An immutable snapshot of the filesystem: every existing path is mapped to
 * a directory or a file. Paths are sequences of components, and joining a
 * path with a name appends one component. Symbolic links do not exist in
 * this model, so resolving a path to its absolute form is the identity.
 */
module FileSystem {
  import Toml
  import Wrappers

  type Path = seq<string>

  /** What a file holds, as far as the model reads it. */
  datatype Content =
    | TomlText(doc: map<string, Toml.Value>)  // decodes as TOML
    | Other                                   // anything that does not decode as TOML

  datatype Node = Directory | File(content: Content)

  type Snapshot = map<Path, Node>

  const PyprojectName: string := "pyproject.toml"

  predicate Exists(fs: Snapshot, p: Path) {
    p in fs
  }

  predicate IsDir(fs: Snapshot, p: Path) {
    p in fs && fs[p].Directory?
  }

  predicate IsFile(fs: Snapshot, p: Path) {
    p in fs && fs[p].File?
  }

  /** `(p / "pyproject.toml").exists()`: true whatever kind of entry it is. */
  predicate HasPyproject(fs: Snapshot, p: Path) {
    Exists(fs, p + [PyprojectName])
  }

  /** The final component (`Path.name`); the empty path has the empty name. */
  function Name(p: Path): string {
    if p == [] then "" else p[|p| - 1]
  }

  /**
   * A name that `root / name` joins as exactly one new component: not empty,
   * not `.` or `..`, and without a separator (so also not absolute).
   */
  predicate SingleComponent(name: string) {
    name != "" && name != "." && name != ".." && '/' !in name
  }

  /** A snapshot is well formed when the parent of every entry is a directory. */
  ghost predicate WellFormed(fs: Snapshot) {
    forall p :: p in fs && p != [] ==> IsDir(fs, p[..|p| - 1])
  }

  /** The names of the immediate entries of `dir` (what `iterdir()` yields, unordered). */
  function ChildNames(fs: Snapshot, dir: Path): (names: set<string>)
    ensures forall n :: n in names <==> dir + [n] in fs
  {
    var names := set p | p in fs.Keys && |p| == |dir| + 1 && p[..|dir|] == dir :: p[|dir|];
    assert forall n :: dir + [n] in fs ==> (dir + [n])[..|dir|] == dir && n in names;
    assert forall n :: n in names ==> exists p :: p in fs.Keys && |p| == |dir| + 1 && p[..|dir|] == dir && p[|dir|] == n && p == dir + [n];
    names
  }

  /** Under a well-formed snapshot, only an existing directory has entries. */
  lemma ChildrenOnlyInDirectories(fs: Snapshot, dir: Path, n: string)
    requires WellFormed(fs)
    requires dir + [n] in fs
    ensures IsDir(fs, dir)
  {
    var p := dir + [n];
    assert p[..|p| - 1] == dir;
  }

  /** Under a well-formed snapshot, every proper prefix of an entry is a directory. */
  lemma {:induction false} AncestorsAreDirs(fs: Snapshot, p: Path, k: nat)
    requires WellFormed(fs) && p in fs && k < |p|
    ensures IsDir(fs, p[..k])
    decreases |p|
  {
    var parent := p[..|p| - 1];
    assert IsDir(fs, parent);
    if k < |parent| {
      AncestorsAreDirs(fs, parent, k);
      assert parent[..k] == p[..k];
    } else {
      assert p[..k] == parent;
    }
  }

  /** `str(path)`: components joined by "/", without doubling an anchor's separator. */
  function PathText(p: Path): (s: string)
    ensures |p| == 1 ==> s == p[0]
  {
    if p == [] then "."
    else JoinFrom(p[0], p[1..])
  }

  function JoinFrom(acc: string, rest: Path): string
    decreases |rest|
  {
    if rest == [] then acc
    else
      var sep := if acc != "" && acc[|acc| - 1] == '/' then "" else "/";
      JoinFrom(acc + sep + rest[0], rest[1..])
  }

  function EndsWith(s: string, suffix: string): bool {
    |suffix| <= |s| && s[|s| - |suffix|..] == suffix
  }

  function StartsWith(s: string, prefix: string): bool {
    |prefix| <= |s| && s[..|prefix|] == prefix
  }

  /** The index of the last '.' in `s`, if any. */
  function LastDot(s: string): (r: Wrappers.Option<nat>)
    ensures r.None? <==> '.' !in s
    ensures r.Some? ==> r.value < |s| && s[r.value] == '.' && '.' !in s[r.value + 1..]
  {
    if s == [] then Wrappers.None
    else if s[|s| - 1] == '.' then Wrappers.Some(|s| - 1)
    else
      var r := LastDot(s[..|s| - 1]);
      assert s == s[..|s| - 1] + [s[|s| - 1]];
      if r.Some? then
        assert s[r.value + 1..] == s[..|s| - 1][r.value + 1..] + [s[|s| - 1]];
        r
      else Wrappers.None
  }

  /**
   * `Path.stem`: the name without its final suffix. A dot opens a suffix only
   * when it is neither the first nor the last character of the name.
   */
  function Stem(name: string): (stem: string)
    ensures EndsWith(name, ".md") && |name| > 3 ==> stem + ".md" == name
    ensures !EndsWith(name, ".md") || |name| > 3 || stem == name
  {
    assert EndsWith(name, ".md") ==> name[|name| - 3] == '.' && name[|name| - 2..] == "md";
    match LastDot(name)
    case None => name
    case Some(i) =>
      if 0 < i < |name| - 1 then name[..i] else name
  }
}

/**
 * Collection metadata read from a pyproject.toml file: the `[project]`
 * table gives identity, `[tool.amplifier.collection]` the optional
 * collection fields and `[project.urls]` the optional links.
 */
module Schema {
  import opened Wrappers
  import opened Toml
  import opened FileSystem

  datatype CollectionMetadata = CollectionMetadata(
    name: string,
    version: string,
    description: string,
    author: string,
    capabilities: seq<string>,
    requirements: map<string, string>,  // the source's `requires` field
    homepage: Option<string>,
    repository: Option<string>)

  datatype MetadataError =
    | FileNotFound(path: Path)            // the file does not exist
    | Unreadable(path: Path)              // the path exists but is a directory
    | DecodeError(path: Path)             // the text is not valid TOML
    | ProjectSectionMissing(path: Path)   // `[project]` absent or empty
    | NotATable(key: string)              // `.get` on a value that is not a table
    | MissingKey(key: string)             // `project["name"]` or `project["version"]` absent
    | ValidationFailed                    // a field's value has the wrong type

  /** The `[project]` value, defaulting to an empty table. */
  function ProjectOf(doc: map<string, Value>): Value {
    GetOr(doc, "project", EmptyTable)
  }

  /** The `[tool.amplifier.collection]` value, if every level of it is present. */
  function CollectionSectionOf(doc: map<string, Value>): Option<Value> {
    if "tool" in doc && doc["tool"].Table? && "amplifier" in doc["tool"].entries
       && doc["tool"].entries["amplifier"].Table? && "collection" in doc["tool"].entries["amplifier"].entries
    then Some(doc["tool"].entries["amplifier"].entries["collection"])
    else None
  }

  /** A TOML array of strings as a `list[str]`. */
  function StringList(items: seq<Value>): (r: Option<seq<string>>)
    ensures r.Some? <==> forall i :: 0 <= i < |items| ==> items[i].String?
    ensures r.Some? ==> |r.value| == |items| && forall i :: 0 <= i < |items| ==> items[i] == String(r.value[i])
  {
    if items == [] then Some([])
    else if !items[0].String? then None
    else
      match StringList(items[1..])
      case None => None
      case Some(rest) => Some([items[0].s] + rest)
  }

  /** A TOML table of strings as a `dict[str, str]`. */
  function StringMap(entries: map<string, Value>): (r: Option<map<string, string>>)
    ensures r.Some? <==> forall k :: k in entries ==> entries[k].String?
    ensures r.Some? ==> r.value.Keys == entries.Keys && forall k :: k in entries ==> entries[k] == String(r.value[k])
  {
    if forall k :: k in entries ==> entries[k].String? then Some(map k | k in entries :: entries[k].s)
    else None
  }

  /** An optional `str | None` field. */
  function OptionalString(v: Option<Value>): Option<Option<string>> {
    match v
    case None => Some(None)
    case Some(String(s)) => Some(Some(s))
    case Some(_) => None
  }

  function Lookup(d: map<string, Value>, key: string): Option<Value> {
    if key in d then Some(d[key]) else None
  }

  /**
   * `from_pyproject` after decoding: lookups in the order the source makes
   * them, each failing lookup raising, then validation of the field types.
   */
  function FromDocument(doc: map<string, Value>, path: Path): (r: Result<CollectionMetadata, MetadataError>)
    ensures r == Failure(ProjectSectionMissing(path)) <==> !Truthy(ProjectOf(doc))
    ensures r.Success? ==>
      ProjectOf(doc).Table? && "name" in ProjectOf(doc).entries && "version" in ProjectOf(doc).entries &&
      ProjectOf(doc).entries["name"] == String(r.value.name) &&
      ProjectOf(doc).entries["version"] == String(r.value.version)
    ensures ProjectOf(doc).Table? && "name" !in ProjectOf(doc).entries ==> r.Failure?
    ensures ProjectOf(doc).Table? && "version" !in ProjectOf(doc).entries ==> r.Failure?
  {
    var project := GetOr(doc, "project", EmptyTable);
    if !Truthy(project) then Failure(ProjectSectionMissing(path))
    else
      // data.get("tool", {}).get("amplifier", {}).get("collection", {})
      var tool := GetOr(doc, "tool", EmptyTable);
      if !tool.Table? then Failure(NotATable("tool"))
      else
      var amplifier := GetOr(tool.entries, "amplifier", EmptyTable);
      if !amplifier.Table? then Failure(NotATable("tool.amplifier"))
      else
      var collection := GetOr(amplifier.entries, "collection", EmptyTable);
      // project.get("urls", {})
      if !project.Table? then Failure(NotATable("project"))
      else
      var urls := GetOr(project.entries, "urls", EmptyTable);
      // keyword arguments, left to right
      if "name" !in project.entries then Failure(MissingKey("name"))
      else if "version" !in project.entries then Failure(MissingKey("version"))
      else
      var description := GetOr(project.entries, "description", String(""));
      if !collection.Table? then Failure(NotATable("tool.amplifier.collection"))
      else
      var author := GetOr(collection.entries, "author", String(""));
      var capabilities := GetOr(collection.entries, "capabilities", Array([]));
      var requirements := GetOr(collection.entries, "requires", EmptyTable);
      if !urls.Table? then Failure(NotATable("project.urls"))
      else
      var homepage := OptionalString(Lookup(urls.entries, "homepage"));
      var repository := OptionalString(Lookup(urls.entries, "repository"));
      // field validation of the record
      var name := project.entries["name"];
      var version := project.entries["version"];
      if !(name.String? && version.String? && description.String? && author.String?) then Failure(ValidationFailed)
      else if !capabilities.Array? || StringList(capabilities.items).None? then Failure(ValidationFailed)
      else if !requirements.Table? || StringMap(requirements.entries).None? then Failure(ValidationFailed)
      else if homepage.None? || repository.None? then Failure(ValidationFailed)
      else Success(CollectionMetadata(
        name.s, version.s, description.s, author.s,
        StringList(capabilities.items).value, StringMap(requirements.entries).value,
        homepage.value, repository.value))
  }

  /** `CollectionMetadata.from_pyproject(path)` over a filesystem snapshot. */
  function FromPyproject(fs: Snapshot, path: Path): (r: Result<CollectionMetadata, MetadataError>)
    ensures path !in fs <==> r == Failure(FileNotFound(path))
    ensures r.Success? ==> IsFile(fs, path) && fs[path].content.TomlText?
    ensures IsFile(fs, path) && fs[path].content.TomlText? ==> r == FromDocument(fs[path].content.doc, path)
  {
    if path !in fs then Failure(FileNotFound(path))
    else match fs[path]
      case Directory => Failure(Unreadable(path))
      case File(Other) => Failure(DecodeError(path))
      case File(TomlText(doc)) =>
        FromDocument(doc, path)
  }

  /** `key` is absent from `d` or holds a string. */
  predicate StringOrAbsent(d: map<string, Value>, key: string) {
    key !in d || d[key].String?
  }

  /** `key` is absent from `d` or holds a table. */
  predicate TableOrAbsent(d: map<string, Value>, key: string) {
    key !in d || d[key].Table?
  }

  /** The fields of `[tool.amplifier.collection]` have the types the record declares. */
  predicate WellTypedCollection(section: map<string, Value>) {
    StringOrAbsent(section, "author") &&
    ("capabilities" in section ==>
       section["capabilities"].Array? &&
       forall i :: 0 <= i < |section["capabilities"].items| ==> section["capabilities"].items[i].String?) &&
    ("requires" in section ==>
       section["requires"].Table? &&
       forall k :: k in section["requires"].entries ==> section["requires"].entries[k].String?)
  }

  /**
   * A document the record accepts: `[project]` is a table with string `name`
   * and `version`, every optional field is absent or of its declared type,
   * and every table on the way to an optional field is absent or a table.
   */
  predicate WellTypedDocument(doc: map<string, Value>) {
    ProjectOf(doc).Table? &&
    var project := ProjectOf(doc).entries;
    "name" in project && project["name"].String? &&
    "version" in project && project["version"].String? &&
    StringOrAbsent(project, "description") &&
    TableOrAbsent(project, "urls") &&
    ("urls" in project ==>
       StringOrAbsent(project["urls"].entries, "homepage") &&
       StringOrAbsent(project["urls"].entries, "repository")) &&
    TableOrAbsent(doc, "tool") &&
    ("tool" in doc ==>
       TableOrAbsent(doc["tool"].entries, "amplifier") &&
       ("amplifier" in doc["tool"].entries ==>
          TableOrAbsent(doc["tool"].entries["amplifier"].entries, "collection"))) &&
    (CollectionSectionOf(doc).Some? ==> WellTypedCollection(CollectionSectionOf(doc).value.entries))
  }

  /** Parsing succeeds exactly on the well-typed documents. */
  lemma WellTypedDocumentParses(doc: map<string, Value>, path: Path)
    ensures FromDocument(doc, path).Success? <==> WellTypedDocument(doc)
  {
  }

  /** An absent or empty `[project]` table is the "section missing" error. */
  lemma ProjectSectionRequired(doc: map<string, Value>, path: Path)
    requires "project" !in doc || doc["project"] == EmptyTable
    ensures FromDocument(doc, path) == Failure(ProjectSectionMissing(path))
  {
  }

  /** Without `[tool.amplifier.collection]`, author, capabilities and requires take their defaults. */
  lemma CollectionDefaults(doc: map<string, Value>, path: Path)
    requires CollectionSectionOf(doc).None?
    requires FromDocument(doc, path).Success?
    ensures var m := FromDocument(doc, path).value;
      m.author == "" && m.capabilities == [] && m.requirements == map[]
  {
  }

  /** With `[tool.amplifier.collection]`, its values are carried over unchanged. */
  lemma CollectionFieldsCopied(doc: map<string, Value>, path: Path)
    requires CollectionSectionOf(doc).Some? && CollectionSectionOf(doc).value.Table?
    requires FromDocument(doc, path).Success?
    ensures var section := CollectionSectionOf(doc).value.entries;
      var m := FromDocument(doc, path).value;
      ("author" in section ==> section["author"] == String(m.author)) &&
      ("capabilities" in section ==>
         (section["capabilities"].Array? &&
          |section["capabilities"].items| == |m.capabilities| &&
          forall i :: 0 <= i < |m.capabilities| ==> section["capabilities"].items[i] == String(m.capabilities[i]))) &&
      ("requires" in section ==>
         (section["requires"].Table? &&
          section["requires"].entries.Keys == m.requirements.Keys &&
          forall k :: k in m.requirements ==> section["requires"].entries[k] == String(m.requirements[k])))
  {
  }

  /** `homepage` and `repository` come from `[project.urls]` and are absent when it lacks them. */
  lemma UrlsCopied(doc: map<string, Value>, path: Path)
    requires FromDocument(doc, path).Success?
    ensures var m := FromDocument(doc, path).value;
      var urls := GetOr(ProjectOf(doc).entries, "urls", EmptyTable);
      urls.Table? &&
      (m.homepage.None? <==> "homepage" !in urls.entries) &&
      (m.homepage.Some? ==> urls.entries["homepage"] == String(m.homepage.value)) &&
      (m.repository.None? <==> "repository" !in urls.entries) &&
      (m.repository.Some? ==> urls.entries["repository"] == String(m.repository.value))
  {
  }

  /** `description` defaults to the empty string. */
  lemma DescriptionDefault(doc: map<string, Value>, path: Path)
    requires FromDocument(doc, path).Success?
    ensures "description" !in ProjectOf(doc).entries ==> FromDocument(doc, path).value.description == ""
    ensures "description" in ProjectOf(doc).entries ==>
      ProjectOf(doc).entries["description"] == String(FromDocument(doc, path).value.description)
  {
  }
}

/** The documents of the schema tests, parsed through a one-file snapshot. */
module SchemaScenario {
  import opened Wrappers
  import opened Toml
  import opened FileSystem
  import opened Schema

  const TomlPath: Path := ["tmp", PyprojectName]

  /** `[project]` with name, version and description only. */
  const BasicDoc: map<string, Value> := map["project" := Table(map[
    "name" := String("test-collection"),
    "version" := String("1.0.0"),
    "description" := String("Test collection")])]

  /** `[project]`, `[project.urls]` and `[tool.amplifier.collection]`. */
  const AdvancedDoc: map<string, Value> := map[
    "project" := Table(map[
      "name" := String("advanced-collection"),
      "version" := String("2.0.0"),
      "description" := String("Advanced collection"),
      "urls" := Table(map[
        "homepage" := String("https://example.com"),
        "repository" := String("https://github.com/org/collection")])]),
    "tool" := Table(map["amplifier" := Table(map["collection" := Table(map[
      "author" := String("Test Author"),
      "capabilities" := Array([String("Feature A"), String("Feature B")]),
      "requires" := Table(map["foundation" := String("^1.0.0")])])])])]

  /** A minimal pyproject.toml gives its identity and the collection defaults. */
  lemma BasicPyprojectParses()
    ensures FromPyproject(map[TomlPath := File(TomlText(BasicDoc))], TomlPath)
      == Success(CollectionMetadata("test-collection", "1.0.0", "Test collection", "", [], map[], None, None))
  {
    var project := BasicDoc["project"].entries;
    assert "tool" !in BasicDoc && "urls" !in project;
    assert "name" in project;
    assert ProjectOf(BasicDoc) == BasicDoc["project"] && Truthy(BasicDoc["project"]);
    assert project["name"] == String("test-collection") && project["version"] == String("1.0.0");
    assert project["description"] == String("Test collection");
    assert OptionalString(Lookup(map[], "homepage")) == Some(None);
    assert StringList([]) == Some([]);
    assert StringMap(map[]) == Some(map[]);
  }

  /** The collection section and the links are carried into the record. */
  lemma AdvancedPyprojectParses()
    ensures FromPyproject(map[TomlPath := File(TomlText(AdvancedDoc))], TomlPath)
      == Success(CollectionMetadata("advanced-collection", "2.0.0", "Advanced collection", "Test Author",
           ["Feature A", "Feature B"], map["foundation" := "^1.0.0"],
           Some("https://example.com"), Some("https://github.com/org/collection")))
  {
    var project := AdvancedDoc["project"].entries;
    var urls := project["urls"].entries;
    var section := AdvancedDoc["tool"].entries["amplifier"].entries["collection"].entries;
    assert ProjectOf(AdvancedDoc) == AdvancedDoc["project"] && Truthy(AdvancedDoc["project"]);
    assert project["name"] == String("advanced-collection") && project["version"] == String("2.0.0");
    assert project["description"] == String("Advanced collection");
    assert OptionalString(Lookup(urls, "homepage")) == Some(Some("https://example.com"));
    assert OptionalString(Lookup(urls, "repository")) == Some(Some("https://github.com/org/collection"));
    assert section["author"] == String("Test Author");
    CapabilitiesConverted(section["capabilities"].items);
    RequiresConverted(section["requires"].entries);
  }

  lemma CapabilitiesConverted(items: seq<Value>)
    requires items == [String("Feature A"), String("Feature B")]
    ensures StringList(items) == Some(["Feature A", "Feature B"])
  {
    assert StringList([]) == Some([]);
    StringListCons("Feature B", [], []);
    assert [String("Feature B")] + [] == [String("Feature B")];
    assert ["Feature B"] + [] == ["Feature B"];
    StringListCons("Feature A", [String("Feature B")], ["Feature B"]);
    assert [String("Feature A")] + [String("Feature B")] == items;
    assert ["Feature A"] + ["Feature B"] == ["Feature A", "Feature B"];
  }

  lemma StringListCons(s: string, rest: seq<Value>, tail: seq<string>)
    requires StringList(rest) == Some(tail)
    ensures StringList([String(s)] + rest) == Some([s] + tail)
  {
    assert ([String(s)] + rest)[1..] == rest;
  }

  lemma RequiresConverted(entries: map<string, Value>)
    requires entries == map["foundation" := String("^1.0.0")]
    ensures StringMap(entries) == Some(map["foundation" := "^1.0.0"])
  {
    var converted := map k | k in entries :: entries[k].s;
    assert converted.Keys == {"foundation"} && converted["foundation"] == "^1.0.0";
    assert converted == map["foundation" := "^1.0.0"];
  }
}

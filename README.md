# amplifier-collections in Dafny

A model of the core of `amplifier_collections`, the library that finds
installed "collections" (bundles of profiles, agents, context documents,
scenario tools and modules) on disk and keeps a lock record of what was
installed. The model covers five pieces:

- **Resolver** (`resolver.dfy`): `CollectionResolver` over search roots that
  are ordered from lowest to highest precedence. `resolve` scans the roots
  from last to first and returns the first `root/name` that is a directory
  holding a `pyproject.toml`. `list_collections` scans the roots from first to
  last and builds a name-to-path map, so later roots overwrite earlier ones.
  A collection is identified by its directory name alone.
- **Lock store** (`lock.dfy`): `CollectionLock` as a class whose `data` map
  holds one `CollectionLockEntry` per name. A ghost field `persisted` holds
  the lock file's content as the store last read or wrote it. Saving writes
  the whole map under the format tag `"1.0"`.
- **Name extraction** (`utils.dfy`): `extract_collection_name_from_path`. The
  collection directory is the path prefix that ends one component after the
  first `collections` component. The name comes from a flat `pyproject.toml`,
  then from a nested one, and finally from the directory's own name.
- **Metadata** (`schema.dfy`): `CollectionMetadata.from_pyproject` over a
  decoded TOML tree, with its defaults and error conditions.
- **Resource discovery** (`discovery.dfy`): `discover_collection_resources`,
  `has_resources`, `list_profiles` and `list_agents`.

Helper modules:

- `filesystem.dfy` models the filesystem as an immutable snapshot. It maps
  each path (a sequence of components) to a directory or a file. There are
  no symbolic links, so `Path.resolve()` is the identity.
- `toml.dfy` holds the decoded TOML value tree.
- `ordering.dfy` gives Python's ordering of strings and paths, and a sorted
  listing of a finite set of paths.
- `wrappers.dfy` holds `Option` and `Result`.

Directory listings (`iterdir`) come in an unspecified order. The model
iterates over them by picking an arbitrary remaining element (`:|`). Results
that depend on that order are stated as relations.

`resolver.py` keys on directory names only. It reads no metadata, looks at
no nested package layout, scans no directories with other names and has no
source override. The model does the same.

A collection name is joined to a root as `root / name`. The model treats
that join as appending one path component, so resolution is stated for
names that are a single component (`FileSystem.SingleComponent`).

## Model

| member | source | states |
|---|---|---|
| `Resolver.ResolveIn` | src/amplifier_collections/resolver.py:69-77 | for a single-component name: absent exactly when no root has a directory `name` holding pyproject.toml; otherwise `root/name` for the highest-index such root, a directory whose last component is `name` |
| `Resolver.CollectionResolver.constructor` | src/amplifier_collections/resolver.py:35-50 | keeps the injected search roots in the given order |
| `Resolver.CollectionResolver.Resolve` | src/amplifier_collections/resolver.py:52-77 | the reverse scan with early return computes exactly `ResolveIn` |
| `Resolver.CollectionResolver.ResolveCollectionPath` | src/amplifier_collections/resolver.py:79-88 | always the same answer as `resolve` |
| `Resolver.ListIn` | src/amplifier_collections/resolver.py:108-125 | a failed listing names one of the roots; every listed path ends with the name it is listed under |
| `Resolver.RootEntries` | src/amplifier_collections/resolver.py:116-123 | one root contributes exactly its qualifying subdirectories, each keyed by its own name |
| `Resolver.ScanRoot` | src/amplifier_collections/resolver.py:116-123 | the inner `iterdir` loop adds exactly the root's qualifying entries to the map, overwriting entries for the same names |
| `Resolver.CollectionResolver.ListCollections` | src/amplifier_collections/resolver.py:108-125 | the forward scan computes exactly `ListIn`: missing roots skipped, later roots overwrite, a root that is a file fails |
| `Resolver.FailureIsFinal` | src/amplifier_collections/resolver.py:112-116 | once `iterdir` fails on a root that is a file, the whole listing fails with that root |
| `Resolver.ListFailsOnlyOnFileRoot` | src/amplifier_collections/resolver.py:112-116 | listing fails if and only if some root exists and is not a directory |
| `Resolver.ListAgreesWithResolve` | src/amplifier_collections/resolver.py:70-123 | a name is listed if and only if it resolves, and then `resolve` returns exactly the listed path |
| `Resolver.ListPrecedence` | src/amplifier_collections/resolver.py:108-123 | for any name, the listing has it exactly when some root qualifies for it, and its entry is under the highest qualifying root |
| `Resolver.ListLastStep` | src/amplifier_collections/resolver.py:112-123 | a later root that qualifies for a name overwrites its entry; one that does not leaves the entry as it was |
| `Resolver.NothingWithoutRoots` | src/amplifier_collections/resolver.py:70-114 | when no root exists, nothing resolves and the listing is empty |
| `ResolverScenario.UserOverridesBundled` | tests/test_resolver.py:77-111 | with roots `[bundled, user]` both holding `foundation`, the user copy wins, and the unknown name `nonexistent` (asked for at tests/test_resolver.py:43) is absent |
| `ResolverScenario.ScenarioListing` | tests/test_resolver.py:77-111 | the listing of that scenario holds exactly `foundation` (from the user root) and `custom` |
| `ResolverScenario.ListingUnderLastRoot` | src/amplifier_collections/resolver.py:108-123 | when every qualifying name qualifies under the last root, the listing is exactly those names, each under the last root |
| `Lock.ToDict` | src/amplifier_collections/lock.py:37-39 | the dictionary has exactly the five entry fields |
| `Lock.FromDict` | src/amplifier_collections/lock.py:41-44 | the keyword-argument constructor accepts only a dictionary with exactly the five fields |
| `Lock.EntryRoundTrip` | src/amplifier_collections/lock.py:37-44 | `from_dict(to_dict(e)) == e` |
| `Lock.Encode` | src/amplifier_collections/lock.py:107-114 | the saved document is tagged with version "1.0" and holds a `collections` table |
| `Lock.Decode` | src/amplifier_collections/lock.py:83-105 | a missing or unreadable file gives the empty map; every loaded entry is the conversion of the stored dictionary under the same name |
| `Lock.SaveLoadRoundTrip` | src/amplifier_collections/lock.py:83-121 | loading what `_save` wrote restores the map exactly |
| `Lock.VersionIgnored` | src/amplifier_collections/lock.py:93-99 | a version mismatch is only reported: the loaded map does not depend on the version tag |
| `Lock.CollectionLock.constructor` | src/amplifier_collections/lock.py:70-81 | keeps the lock path, loads the file and writes nothing |
| `Lock.CollectionLock.Load` | src/amplifier_collections/lock.py:83-105 | replaces the entries with what the file decodes to |
| `Lock.CollectionLock.Save` | src/amplifier_collections/lock.py:107-121 | the file now holds the whole map |
| `Lock.CollectionLock.AddEntry` | src/amplifier_collections/lock.py:123-148 | upsert: the entry for `name` carries the new values and `str(path)`, other names are unchanged, and the map is saved |
| `Lock.CollectionLock.RemoveEntry` | src/amplifier_collections/lock.py:152-162 | a present name is deleted and the map saved; an absent name changes nothing and saves nothing |
| `Lock.CollectionLock.GetEntry` | src/amplifier_collections/lock.py:164-174 | the stored entry for `name`, absent exactly when the name is not stored |
| `Lock.CollectionLock.IsInstalled` | src/amplifier_collections/lock.py:185-195 | holds if and only if `get_entry` finds an entry |
| `Lock.CollectionLock.ListEntries` | src/amplifier_collections/lock.py:176-183 | exactly one entry per stored name |
| `Schema.FromDocument` | src/amplifier_collections/schema.py:57-85 | an absent or falsy `[project]` is the section-missing error; a missing `name` or `version` fails; on success both come from `[project]` |
| `Schema.FromPyproject` | src/amplifier_collections/schema.py:40-85 | a missing file raises not-found and nothing else does; success needs a decodable file, and for a file that decodes the result is exactly that of parsing its document |
| `Schema.WellTypedDocumentParses` | src/amplifier_collections/schema.py:57-85 | parsing succeeds exactly when `[project]` holds string `name` and `version` and every optional field and the tables leading to it are absent or of their declared types |
| `SchemaScenario.BasicPyprojectParses` | tests/test_schema.py:11-29 | a minimal pyproject.toml parses to its name, version and description with author "", no capabilities and no requires |
| `SchemaScenario.AdvancedPyprojectParses` | tests/test_schema.py:32-60 | the collection section's author, capabilities and requires and the homepage and repository links are carried into the record |
| `Schema.ProjectSectionRequired` | src/amplifier_collections/schema.py:62-65 | no `[project]` or an empty one gives the section-missing error |
| `Schema.DescriptionDefault` | src/amplifier_collections/schema.py:77 | `description` is copied from `[project]`, defaulting to "" |
| `Schema.CollectionDefaults` | src/amplifier_collections/schema.py:68-81 | without `[tool.amplifier.collection]`, author is "", capabilities empty and requires empty |
| `Schema.CollectionFieldsCopied` | src/amplifier_collections/schema.py:79-81 | with that section, author, capabilities and requires are carried over unchanged |
| `Schema.UrlsCopied` | src/amplifier_collections/schema.py:71-84 | homepage and repository come from `[project.urls]` and are absent exactly when it lacks them |
| `Utils.IndexOf` | src/amplifier_collections/utils.py:62-65 | `parts.index`: the first position of the component |
| `Utils.CollectionDir` | src/amplifier_collections/utils.py:57-72 | absent if and only if there is no `collections` component or the first one is last; otherwise the prefix ending one past it |
| `Utils.DeeperPathSameCollection` | src/amplifier_collections/utils.py:62-72 | components below the collection directory do not change which directory it is |
| `Utils.ExtractCollectionName` | src/amplifier_collections/utils.py:15-108 | None only for a non-collection path; a readable flat pyproject.toml wins; otherwise the name of some readable nested candidate; otherwise the directory name |
| `Discovery.MarkdownFilesMembers` | src/amplifier_collections/discovery.py:63-74 | profiles and agents are exactly the `.md` files directly in the directory |
| `Discovery.MarkdownTreeWalk` | src/amplifier_collections/discovery.py:78-81 | the recursive glob is a walk of the tree: its files are the `.md` files directly in the directory plus those of the trees of its subdirectories |
| `Discovery.HasResourcesIffSomeResource` | src/amplifier_collections/discovery.py:32-34 | `has_resources` holds exactly when at least one resource of any category was discovered |
| `Discovery.PackageSetMembers` | src/amplifier_collections/discovery.py:84-101 | scenario tools and modules are exactly the immediate subdirectories holding pyproject.toml |
| `Discovery.SortByName` | src/amplifier_collections/discovery.py:91 | the sort by name is a permutation in ascending name order |
| `Discovery.PackageDirs` | src/amplifier_collections/discovery.py:84-101 | the append-then-sort loop lists the qualifying subdirectories, sorted, and nothing when the directory is missing |
| `Discovery.DiscoverCollectionResources` | src/amplifier_collections/discovery.py:37-109 | each list is sorted and holds exactly its category; a missing directory gives an empty list; `has_resources` holds if and only if some category is non-empty |
| `Discovery.ListProfiles` | src/amplifier_collections/discovery.py:112-128 | the stems of the sorted profiles, same length and order |
| `Discovery.ListAgents` | src/amplifier_collections/discovery.py:131-147 | the stems of the sorted agents, same length and order |
| `Discovery.Stems` | src/amplifier_collections/discovery.py:128 | position by position, the stem of each path's name |
| `Ordering.SortedPaths` | src/amplifier_collections/discovery.py:67 | `sorted` on a set of paths: strictly ascending and holding exactly the set |
| `Ordering.StrictlySortedUnique` | src/amplifier_collections/discovery.py:67-81 | a sorted listing is determined by its elements |
| `FileSystem.Stem` | src/amplifier_collections/discovery.py:128 | `Path.stem` of an `.md` name is the name without its `.md` |
| `FileSystem.PathText` | src/amplifier_collections/lock.py:143 | `str(path)` of a one-component path is that component |

## Left out

- The installer (`installer.py`): asynchronous orchestration around an injected fetch, directory removal and logging. Installer is not part of this model.
- Resolver.ResolveIn: names that are not a single path component (empty, `.`, `..`, or containing `/`) are outside the model. For them pathlib's `root / name` gives the root itself, a path through its parent, a deeper path, or an absolute path that ignores the root.
- Resolver.CollectionResolver.Resolve: requires a single-component name, for the reason given for `ResolveIn`.
- Resolver.CollectionResolver.ResolveCollectionPath: requires a single-component name, for the reason given for `ResolveIn`.
- Resolver.ListAgreesWithResolve: stated for single-component names only, since `ResolveIn` is. Every name a listing holds comes from `iterdir`, so it is such a name on a real filesystem.
- Resolver.NothingWithoutRoots: stated for single-component names only. For an absolute name, `root / name` ignores the roots altogether.
- Resolver.ListFailsOnlyOnFileRoot: the snapshot has no permissions and no other OS errors. In the source, `iterdir` also raises on a root directory that cannot be read, and so do `glob` and `iterdir` in resource discovery.
- Resolver.CollectionResolver.constructor: the search roots are captured by value. The source keeps a reference to the caller's list, so a later change to that list changes the roots it searches.
- Logging calls everywhere, and pydantic's frozen-model enforcement (Dafny datatypes are immutable).
- Text decoding: TOML and JSON parsing are not modelled. A file holds a decoded tree or undecodable content. TOML floats are not represented.
- The clock: `datetime.now(UTC).isoformat()` is the `installedAt` parameter of `AddEntry`.
- Symbolic links: `Path.resolve()` is the identity, and resolved paths are not made absolute against a working directory.
- Resolver.CollectionResolver.ListCollections: returns the name-to-path map, not a list of pairs in dictionary insertion order; the order of that list is not modelled.
- Lock.CollectionLock.ListEntries: the order of `list(self._data.values())` (dictionary insertion order) is not modelled; the entries come in an unspecified order.
- Lock.CollectionLock.Save: a failure to create the parent directory (which would raise) or to write the file (which is logged and swallowed) is not modelled; the save always succeeds.
- Lock.FromDict: entry fields are strings in the model, so a stored entry whose field has a non-string JSON value loads as a failure (and an empty store), while the dataclass would accept it unchecked.
- Schema.FromDocument: pydantic validation is modelled as strict type checks; lax-mode coercions are not modelled.
- Utils.ExtractCollectionName: the nested search returns the first readable candidate in `iterdir` order; the model only states that the result is the name of some readable candidate.

# Cura plugin packager: a Dafny model of the planning core

The packager is a GitHub Action (`index.js`). It turns a Cura plugin's
source folder into one `.curapackage` archive per major SDK version the
plugin supports. This project models the planning inside `run()`, which is
deterministic:

- it picks the package-metadata template and the plugin id;
- it merges the plugin manifest (`plugin.json`) into the template;
- it reduces `supported_sdk_versions` to the distinct major versions, in
  the iteration order of a JavaScript `Set`;
- for each major it works out the compatibility label, the file name, the
  archive's `package.json` metadata and the ordered list of entries handed
  to the archive writer;
- it collects the file names that become the `packages` output.

Action inputs, file-system answers and parsed JSON are parameters. The
archive is an ordered plan of calls into the writer, not bytes.

Modules, one file each:

- `Wrappers` (`wrappers.dfy`): `Option` and `Result`.
- `Numbers` (`numbers.dfy`): decimal text of integers, `parseInt`, and `split(".")[0]`.
- `JsValues` (`js_values.dfy`): JSON values, plus `undefined` and NaN. Object
  lookup, `String(v)` as template literals and `+` apply it, and which
  values it converts without throwing.
- `Partition` (`partition.dfy`): the majors of the version list, and the Set's
  order-preserving removal of duplicates (`Dedup`), with a characterisation
  proved to define it uniquely.
- `Naming` (`naming.dfy`): the label `switch`, `${major}.0.0`, and the file-name template.
- `Metadata` (`metadata.dfy`): path and plugin-id resolution, the merge, and the
  per-major SDK fields.
- `ArchivePlan` (`archive_plan.dfy`): entries, the `.git` filter, and what a
  directory entry expands to.
- `Packager` (`packager.dfy`): `Package`, the specification of `run()` as a
  function. `Run` is `run()` written step by step: it reassigns the same
  locals the source reassigns. `PlanArchives` is the `forEach` loop and
  `PlanArchive` is its callback. The loop's invariants tie the pushed names
  and the planned archives to the majors processed so far. `Run` is proved
  to return exactly what `Package` specifies.
- `Properties` (`properties.dfy`): what a run promises, stated over `Package`.

`None` stands for NaN throughout. An `Option<int>` compares NaN equal to
itself, as the Set's SameValueZero comparison does; the `switch`'s `===`
never matches it.

The model follows what the code does, including where it does less than
one might expect:

- An empty `supported_sdk_versions` is not an error. It yields no archive
  and `packages = []`. A missing list fails only with the TypeError from
  calling `.map` on `undefined`. The code does no validation of its own.
- File names can collide. Two distinct majors outside 5 to 8 are both
  labelled `Unknown`, so they get the same name
  (`Properties.PackageNamesDistinctIff`).
- The `.git` filter sees each file's path relative to the source folder
  and tests only its start. A nested `lib/.git/config` is kept;
  `.git/config` and `.github/...` are dropped
  (`ArchivePlan.NestedGitFolderKept`).

## Model

| member | source | states |
|---|---|---|
| `Metadata.ResolvePackageInfoPath` | index.js:13-20 | The `package_info_path` input is kept when it is non-empty and exists. Otherwise it becomes `staticFilePath + "/package.json"`. |
| `Metadata.DescriptionFromPluginIff` | index.js:18-20 | The resolved path is the bundled template's exactly when the input is empty, does not exist, or is literally the bundled path. |
| `Metadata.EffectivePluginId` | index.js:43-45 | The id is the non-empty `plugin_id` input as a string. If the input is empty it is the template's `package_id` (possibly `undefined`). |
| `Metadata.MergePluginInfo` | index.js:52-57 | Sets `package_id`, `package_version := plugin.version` and `display_name := plugin.name`. Sets `description` from the plugin only for the bundled template, and otherwise keeps the template's. The keys are the template's plus the written ones; every other key is unchanged. |
| `Properties.MergedDescription` | index.js:55-57 | With the bundled template the merged `description` is the plugin's. With any other template it is present exactly when the template has one, and is then the template's. |
| `Properties.CustomDescriptionPreserved` | index.js:18-20 | An existing custom template other than the bundled one keeps its own `description` in every archive's `package.json`. |
| `Properties.DefaultTemplateTakesPluginDescription` | index.js:55-56 | When the bundled template is read, every archive's `package.json` has the plugin's `description`. |
| `Numbers.LeadingComponent` | index.js:61 | `split(".")[0]`: a prefix with no `.`, followed by a `.` or by the end of the string. |
| `Numbers.LeadingDigits` | index.js:61 | The digits `parseInt` reads: a prefix of decimal digits, followed by a non-digit or by the end. |
| `Numbers.NatToString` | index.js:67 | The decimal text of a natural: non-empty, digits only, no leading zero, and it reads back as the same number. |
| `Numbers.ParseInt` | index.js:61 | `parseInt(s)`: an optional leading `-` or `+`, then every leading decimal digit read as a number and negated after `-`. NaN when no digit follows. Properties are in `ParseIntDefinedIff` and the round-trip lemmas. |
| `Numbers.ParseIntDefinedIff` | index.js:61 | `parseInt` yields a number exactly when the text starts with a digit, or with `-` or `+` followed by a digit. The number is negative only after a `-`. |
| `Numbers.ParseIntOfIntToString` | index.js:61 | `parseInt(String(n)) == n` for every integer. |
| `Numbers.ParseIntOfNumberToString` | index.js:61 | `parseInt(String(x)) == x` for every integer or NaN. |
| `Partition.MajorOf` | index.js:61 | The `.map` callback: `parseInt` of the text before the first `.`. Properties are in `MajorOfEdges`, `SingleDigitMajor` and `SemanticVersionRoundTrip`. |
| `Partition.MajorOfEdges` | index.js:61 | A version string starting with a digit has a non-negative major. An empty one, or one starting with `.`, has major NaN. |
| `Partition.StringsOf` | index.js:60-61 | The strings the callback splits are the list's elements, in order. When an element is not a string, it fails at the index of the first such element. |
| `JsValues.ToJsString` | index.js:84 | `String(v)` of a value it converts: a string is returned unchanged. The text of an integer parses back to that integer, and the text of NaN parses to NaN. |
| `JsValues.Stringable` | index.js:49 | `String(v)` converts without throwing. It fails on an object with its own `toString` key, and on an array containing such a value at any depth. Every other value converts. |
| `JsValues.OwnToStringNotStringable` | index.js:49 | `String(v)` throws on an object with its own `toString` key, and on an array holding one. An own `valueOf` key alone does not make it throw. |
| `Packager.Unconvertible` | index.js:49 | The value the info line cannot convert: none exactly when both the plugin id and the plugin version convert. Otherwise it is one of the two, the id taking precedence, and it does not convert. |
| `Partition.ExtractMajors` | index.js:59-61 | Succeeds exactly for an array of strings. Any other value (`undefined` included) gives the `.map` TypeError. A non-string element gives the `.split` TypeError at its index. |
| `Partition.Dedup` | index.js:60 | The Set's members: every member is in the list and every list element is a member, with no repeats. |
| `Partition.DedupFirstSeenOrder` | index.js:60 | Members come in the order of their first occurrence in the list. |
| `Partition.DedupUnique` | index.js:60 | Any sequence that holds exactly the list's elements, ordered by first occurrence, equals `Dedup`. |
| `Partition.DedupListsFirstOccurrences` | index.js:60 | `Dedup` meets that characterisation. |
| `Properties.MajorsAreFirstOccurrences` | index.js:59-62 | A run's majors are `parseInt` of each listed version's leading component, without duplicates, in first-seen order. They are the only sequence with these properties. |
| `Properties.ExampleMajors` | index.js:59-61 | `["5.2.0","5.9.0","7.0.1"]` maps to `[5,5,7]`. |
| `Properties.ExampleDistinctMajors` | index.js:60 | The Set built from `[5,5,7]` iterates 5, then 7. |
| `Properties.ThreeVersionMajors` | index.js:59-61 | A list of three strings maps to the major of each, in order. |
| `Properties.ExampleVersionMajors` | index.js:61 | The majors of `"5.2.0"`, `"5.9.0"` and `"7.0.1"` are 5, 5 and 7. |
| `Properties.SingleDigitMajor` | index.js:61 | A version string starting with one digit `d` and then `.` has major `d`. |
| `Naming.CuraVersions` | index.js:69-83 | The label is one of `3.5-3.6`, `4.0-4.3`, `4.4-4.13`, `5.0` and `Unknown`. |
| `Naming.SemanticVersion` | index.js:67 | `${major}.0.0` ends in `.0.0`, and no `.` comes before that suffix. |
| `Naming.CuraVersionsKnownIff` | index.js:69-83 | The label is a real release range exactly for the majors 5 to 8. Every other major, NaN included, is `Unknown`. |
| `Naming.CuraVersionsCollideIff` | index.js:69-83 | Two different majors share a label exactly when neither is between 5 and 8. |
| `Naming.SemanticVersionRoundTrip` | index.js:67 | The leading component of `${major}.0.0` parses back to the major, NaN included. |
| `Naming.FileNameLabel` | index.js:84 | The file name is `id + "_v" + version + "_Cura"`, then the label, then `.curapackage`. The label can be read back from it. |
| `Naming.ArchiveFileName` | index.js:84 | The file name starts with `String(pluginId) + "_v"` and ends with `.curapackage`. |
| `Naming.FileNamesCollideIff` | index.js:84 | For one id and version, two majors give the same file name exactly when they give the same label. |
| `Metadata.WithSdkVersion` | index.js:88-89 | The keys are the old ones plus `sdk_version` and `sdk_version_semver`. `sdk_version` is the major (NaN included) and `sdk_version_semver` is `${major}.0.0`. |
| `Metadata.WithSdkVersionFields` | index.js:88-89 | Sets `sdk_version` to the major and `sdk_version_semver` to `${major}.0.0`. The keys are the old ones plus these two, and all other keys are unchanged. |
| `Metadata.LaterSdkVersionOverwrites` | index.js:88-89 | Writing a later major's SDK fields over an earlier one's gives the same metadata as writing the later one alone. |
| `Metadata.SdkVersionRoundTrip` | index.js:88-89 | The metadata's `sdk_version` is the major, and its `sdk_version_semver` parses back to that major. |
| `ArchivePlan.Keeps` | index.js:133 | With the `.git` filter, a relative path starting with `.git` is dropped. A path that is empty or starts with anything but `.` is always kept. |
| `ArchivePlan.ExpandDirectory` | index.js:130-134 | A directory entry stores at most one name per walked path. Without a filter it stores exactly one per walked path. |
| `ArchivePlan.ExpandDirectorySound` | index.js:130-134 | Every name a directory entry stores is `destination + "/" + path` for some walked path the filter keeps. |
| `ArchivePlan.ExpandDirectoryComplete` | index.js:130-134 | Every walked path the filter keeps is stored as `destination + "/" + path`. |
| `ArchivePlan.ExpandDirectoryUnder` | index.js:130-134 | Every name a directory entry stores lies under `destination + "/"`. |
| `ArchivePlan.GitFilesExcluded` | index.js:133 | Every name stored from the plugin folder comes from a relative path that does not start with `.git`. |
| `ArchivePlan.NestedGitFolderKept` | index.js:133 | The filter drops `.git/config` and `.github/...` but keeps `lib/.git/config`. |
| `ArchivePlan.PackageJsonOfPlan` | index.js:136-139 | The planned `package.json` entry holds the metadata the plan was made with. |
| `ArchivePlan.EntryPlan` | index.js:130-149 | Four entries in call order. The plugin folder is stored under `files/plugins/<id>` with the `.git` filter. `package.json` holds the given metadata. `<static>/[Content_Types].xml` is stored as `[Content_Types].xml`. `<static>/_rels` is stored unfiltered as `_rels`. |
| `ArchivePlan.EntryPlanNames` | index.js:130-149 | The entry names, in order: the plugin files under `files/plugins/<id>/`, then `package.json`, then `[Content_Types].xml`, then the `_rels` files under `_rels/`. |
| `ArchivePlan.FixedEntriesUnique` | index.js:136-144 | Whatever the walks find, each archive holds exactly one `package.json` and one `[Content_Types].xml`. |
| `Packager.Package` | index.js:11-156 | Succeeds exactly when both documents read and parse, the plugin id and version convert to text, and the version list maps. An unreadable template fails first, then an unreadable manifest, then the TypeError of converting the id or version to text at index.js:49, then the version list's TypeError. No other failure exists in the model; the library failures under "Left out" are not modelled. |
| `Packager.Run` | index.js:11-156 | The step-by-step `run()` returns exactly what `Package` specifies, on every path. |
| `Packager.PlanArchives` | index.js:64-154 | The loop's pushed names are the file names of the majors in Set order. Each archive is planned with the shared metadata as the loop has just rewritten it. |
| `Packager.PlanArchive` | index.js:66-153 | The callback for one major pushes that major's file name and writes its SDK fields into the shared metadata. It plans the four entries with the metadata as updated. |
| `Properties.EmptyVersionListGivesNoPackages` | index.js:59-66 | Once both documents load and the id and version convert to text, an empty version list succeeds with `packages = []` and no archive. If one of them does not convert, the run fails with that conversion's TypeError. |
| `Properties.MissingVersionListFails` | index.js:59-60 | A manifest without `supported_sdk_versions` fails with the `.map`-on-`undefined` TypeError. The one exception is an id or version that does not convert to text: then the earlier TypeError of index.js:49 is the failure. |
| `Properties.ExampleRunSucceeds` | index.js:11-156 | A run exists that succeeds with one archive: the bundled template, a given plugin id and a manifest listing `5.0`. |
| `Properties.OneVersionMajor` | index.js:59-61 | A list of one string maps to that string's major. |
| `Properties.OnePackagePerDistinctMajor` | index.js:84-86 | `packages` and the archives have one element per distinct major, and the names agree position by position. Every listed version's major is among them, and nothing else is. |
| `Properties.NamesMatchArchives` | index.js:84-86 | The names and the archives have one element per major, and the name at each position is that archive's file name. |
| `Properties.PackageNamesDistinctIff` | index.js:84-86 | For distinct majors, the names are pairwise distinct exactly when at most one major is outside 5 to 8. |
| `Properties.PackagesDistinctIff` | index.js:156 | A run's `packages` repeats no name exactly when at most one of its majors is unknown. |
| `Properties.ArchiveAt` | index.js:84-149 | Archive `j` is named after major `j`. Its entries are, in order: the filtered plugin folder, `package.json`, `[Content_Types].xml` and `_rels`. Its metadata has the merged keys with the SDK fields of major `j`, and the semantic version parses back to major `j`. |
| `Properties.DescriptionCarried` | index.js:137 | An archive's `package.json` carries the merged `description`. |
| `Properties.ArchiveSdkMetadata` | index.js:88-89 | The `package.json` of a run's archive `j` is the merged metadata with major `j`'s SDK fields, and its semantic version parses back to major `j`. |

## Left out

- Actions toolkit I/O is left out. `core.getInput` values are the
  `Inputs` fields, after the toolkit's own trimming. `core.info` logging
  is not modelled. `core.setOutput` is the returned `Output`;
  `core.setFailed` is the returned `Failure`.
- `fs` is left out. `existsSync` is membership in `FileSystem.existing`.
  `readFileSync` followed by `JSON.parse` is a lookup in
  `FileSystem.documents`, and a missing path stands for a read or parse
  error. Error messages are not modelled.
- JSON text is left out. Documents arrive parsed as objects. A top-level
  document that is not an object (for example `null`) is not modelled.
  `JSON.stringify` is left out: an archive's `package.json` is the object
  it would serialise. `JSON.stringify` drops `undefined` keys from the
  text; the model keeps them.
- Numbers are integers. Fractional JSON numbers and the exponent notation
  `String` uses from 1e21 up are not modelled. Neither is precision loss
  past 2^53 in `parseInt`.
- `parseInt` covers only an optional sign followed by decimal digits.
  Leading whitespace and the `0x` prefix are not modelled. `-0` is the
  integer 0, as the Set and `String` treat it.
- `String(v)` covers strings, integers, NaN, booleans, `null`,
  `undefined`, arrays and objects, which are all a JSON document can
  hold. An object with its own `toString` key is not converted: the
  packager fails at index.js:49 with the TypeError. That includes such an
  object inside an array. Because index.js:84 and 132 convert the same id
  and version, they cannot throw once index.js:49 has passed.
- Object lookup reads own keys only. Keys inherited from
  `Object.prototype` are not modelled; the keys the source reads are not
  among them.
- The choice between `./files` and `./dist/files` for the static folder
  is deployment layout. It is the `staticFilePath` parameter.
- The archive writer is left out: ZIP encoding, compression level 9,
  piping to the output stream and `finalize`. The directory walk itself
  is also left out. `ExpandDirectory` takes the walk's relative paths as
  a parameter.
- The order of entries inside the ZIP is left out. The writer's
  directory walk is asynchronous, so the stored order may differ from
  the call order the plan records.
- The writer's and stream's event handlers (`close`, `end`, `warning`
  with ENOENT, `error`) are left out. The output file is opened per major
  and the archive is only planned, so write failures are not modelled.
  Most of these events fire after `run()` returns, and a throw from their
  handlers escapes its `try`.
- `Package`: does not model an `error` the writer raises while
  `archive.directory` is still being called. The writer may check the
  directory argument at once, for example an empty `source_folder`, and
  emit `error` on the spot. The handler at index.js:123-125 then throws
  inside the `forEach` callback, and index.js:157-158 calls `setFailed`.
  The model returns `Success` for such a run. Likewise, `fs.createWriteStream`
  at index.js:92 may reject a file name synchronously, for example one
  holding a NUL character taken from the manifest's `version`. That throw
  also ends in `setFailed`, while the model returns `Success`. Both
  behaviours belong to the writer library and to Node's `fs`, which are
  not part of this model.
- `JSON.stringify(NaN)` writes `null`. For a major that is NaN, the text
  of `package.json` therefore holds `"sdk_version":null`.
  `Metadata.SdkVersionRoundTrip` and `Properties.ArchiveSdkMetadata` speak
  of the object, where the value is NaN. The key order of the serialised
  text is not modelled either.
- The writer's normalisation of entry names is left out. It collapses
  repeated `/` and turns `\` into `/`. With an empty plugin id the model
  records `files/plugins//x`, where the ZIP stores `files/plugins/x`.

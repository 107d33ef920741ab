/** What the planned packaging promises, stated over `Packager.Package`. */
module Properties {
  import opened Wrappers
  import opened Numbers
  import opened JsValues
  import opened Partition
  import opened Naming
  import opened Metadata
  import opened ArchivePlan
  import opened Packager

  /** The distinct majors, in Set order, of a run whose version list maps. */
  function Majors(inputs: Inputs, fs: FileSystem, staticFilePath: string): seq<Option<int>>
    requires Loads(inputs, fs, staticFilePath)
    requires ExtractMajors(SupportedVersions(inputs, fs, staticFilePath)).Success?
  {
    Dedup(ExtractMajors(SupportedVersions(inputs, fs, staticFilePath)).value)
  }

  /** Among the given majors, at most one lies outside the label table. */
  predicate AtMostOneUnknown(majors: seq<Option<int>>) {
    forall i, j :: 0 <= i < j < |majors| ==> KnownMajor(majors[i]) || KnownMajor(majors[j])
  }

  /** The output of a successful run, spelled out. */
  lemma PackageOutput(inputs: Inputs, fs: FileSystem, staticFilePath: string)
    requires Package(inputs, fs, staticFilePath).Success?
    ensures var id := PluginId(inputs, fs, staticFilePath);
            var version := PluginVersion(inputs, fs, staticFilePath);
            var majors := Majors(inputs, fs, staticFilePath);
            Package(inputs, fs, staticFilePath).value
            == Output(PackageNames(id, version, majors),
                      Archives(inputs.sourceFolder, id, version, Merged(inputs, fs, staticFilePath), staticFilePath, majors))
  {
  }

  /** The archives of a successful run, spelled out. */
  lemma ArchivesOf(inputs: Inputs, fs: FileSystem, staticFilePath: string) returns (archives: seq<Archive>)
    requires Package(inputs, fs, staticFilePath).Success?
    ensures archives == Package(inputs, fs, staticFilePath).value.archives
    ensures archives == Archives(inputs.sourceFolder, PluginId(inputs, fs, staticFilePath), PluginVersion(inputs, fs, staticFilePath),
                                 Merged(inputs, fs, staticFilePath), staticFilePath, Majors(inputs, fs, staticFilePath))
  {
    PackageOutput(inputs, fs, staticFilePath);
    archives := Package(inputs, fs, staticFilePath).value.archives;
  }

  /**
   * No validation of the version list: once both documents load and the
   * id and version convert to text, the empty list succeeds and packages
   * nothing. Only the conversion of index.js:49 can fail first.
   */
  lemma EmptyVersionListGivesNoPackages(inputs: Inputs, fs: FileSystem, staticFilePath: string)
    requires Loads(inputs, fs, staticFilePath)
    requires SupportedVersions(inputs, fs, staticFilePath) == Arr([])
    ensures Unconvertible(inputs, fs, staticFilePath).None? ==> Package(inputs, fs, staticFilePath) == Success(Output([], []))
    ensures Unconvertible(inputs, fs, staticFilePath).Some? ==>
              Package(inputs, fs, staticFilePath) == Failure(NotConvertible(Unconvertible(inputs, fs, staticFilePath).value))
  {
    if Unconvertible(inputs, fs, staticFilePath).Some? {
      return;
    }
    assert ExtractMajors(Arr([])).value == [];
    assert Package(inputs, fs, staticFilePath).Success?;
    PackageOutput(inputs, fs, staticFilePath);
    assert Majors(inputs, fs, staticFilePath) == [];
    assert PackageNames(PluginId(inputs, fs, staticFilePath), PluginVersion(inputs, fs, staticFilePath), []) == [];
    assert Archives(inputs.sourceFolder, PluginId(inputs, fs, staticFilePath), PluginVersion(inputs, fs, staticFilePath),
                    Merged(inputs, fs, staticFilePath), staticFilePath, []) == [];
  }

  /**
   * A manifest without `supported_sdk_versions` fails because `.map` is
   * read off `undefined`, unless the conversion of index.js:49 has failed
   * before.
   */
  lemma MissingVersionListFails(inputs: Inputs, fs: FileSystem, staticFilePath: string)
    requires Loads(inputs, fs, staticFilePath)
    requires "supported_sdk_versions" !in Plugin(inputs, fs, staticFilePath)
    ensures Package(inputs, fs, staticFilePath)
            == Failure(if Unconvertible(inputs, fs, staticFilePath).Some?
                       then NotConvertible(Unconvertible(inputs, fs, staticFilePath).value)
                       else VersionsUnusable(NotAnArray(Undefined)))
  {
  }

  /**
   * `packages` holds one name per distinct major, in Set order, and the
   * archive planned for the same position carries that name.
   */
  lemma OnePackagePerDistinctMajor(inputs: Inputs, fs: FileSystem, staticFilePath: string)
    requires Package(inputs, fs, staticFilePath).Success?
    ensures var out := Package(inputs, fs, staticFilePath).value;
            var majors := Majors(inputs, fs, staticFilePath);
            var listed := ExtractMajors(SupportedVersions(inputs, fs, staticFilePath)).value;
            |out.packages| == |majors| == |out.archives| &&
            (forall j :: 0 <= j < |majors| ==>
               out.packages[j] == out.archives[j].fileName ==
               ArchiveFileName(PluginId(inputs, fs, staticFilePath), PluginVersion(inputs, fs, staticFilePath), majors[j])) &&
            (forall i :: 0 <= i < |listed| ==> listed[i] in majors) &&
            (forall j :: 0 <= j < |majors| ==> majors[j] in listed)
  {
    PackageOutput(inputs, fs, staticFilePath);
    NamesMatchArchives(inputs.sourceFolder, PluginId(inputs, fs, staticFilePath), PluginVersion(inputs, fs, staticFilePath),
                       Merged(inputs, fs, staticFilePath), staticFilePath, Majors(inputs, fs, staticFilePath));
  }

  /** The names and the archives line up, one per major. */
  lemma NamesMatchArchives(sourcePath: string, pluginId: Value, pluginVersion: Value, merged: Object,
                           staticFilePath: string, majors: seq<Option<int>>)
    ensures var names := PackageNames(pluginId, pluginVersion, majors);
            var archives := Archives(sourcePath, pluginId, pluginVersion, merged, staticFilePath, majors);
            |names| == |majors| == |archives| &&
            forall j :: 0 <= j < |majors| ==>
              names[j] == archives[j].fileName == ArchiveFileName(pluginId, pluginVersion, majors[j])
  {
    var archives := Archives(sourcePath, pluginId, pluginVersion, merged, staticFilePath, majors);
    forall j | 0 <= j < |majors|
      ensures archives[j].fileName == ArchiveFileName(pluginId, pluginVersion, majors[j])
    {
      assert archives[j] == ArchiveFor(sourcePath, pluginId, pluginVersion, merged, staticFilePath, majors[j]);
    }
  }

  /**
   * The majors of a run are the `parseInt` of the text before the first
   * `.` of each listed version, each once, in order of first occurrence
   * in the list; no other sequence has these properties.
   */
  lemma {:induction false} MajorsAreFirstOccurrences(inputs: Inputs, fs: FileSystem, staticFilePath: string)
    requires Package(inputs, fs, staticFilePath).Success?
    ensures var items := SupportedVersions(inputs, fs, staticFilePath).items;
            var listed := ExtractMajors(SupportedVersions(inputs, fs, staticFilePath)).value;
            |listed| == |items| &&
            (forall i :: 0 <= i < |items| ==> items[i].Str? && listed[i] == MajorOf(items[i].s)) &&
            NoDuplicates(Majors(inputs, fs, staticFilePath)) &&
            ListsFirstOccurrences(listed, Majors(inputs, fs, staticFilePath)) &&
            forall r :: ListsFirstOccurrences(listed, r) ==> r == Majors(inputs, fs, staticFilePath)
  {
    var listed := ExtractMajors(SupportedVersions(inputs, fs, staticFilePath)).value;
    DedupListsFirstOccurrences(listed);
    forall r | ListsFirstOccurrences(listed, r) ensures r == Majors(inputs, fs, staticFilePath) {
      DedupUnique(listed, r);
    }
  }

  /**
   * For distinct majors, the file names are pairwise distinct exactly
   * when at most one of the majors lies outside 5 to 8.
   */
  lemma {:induction false} PackageNamesDistinctIff(pluginId: Value, pluginVersion: Value, majors: seq<Option<int>>)
    requires NoDuplicates(majors)
    ensures NoDuplicates(PackageNames(pluginId, pluginVersion, majors)) <==> AtMostOneUnknown(majors)
  {
    var names := PackageNames(pluginId, pluginVersion, majors);
    forall i, j | 0 <= i < j < |majors|
      ensures names[i] == names[j] <==> !KnownMajor(majors[i]) && !KnownMajor(majors[j])
    {
      FileNamesCollideIff(pluginId, pluginVersion, majors[i], majors[j]);
      CuraVersionsCollideIff(majors[i], majors[j]);
    }
  }

  /** The `packages` output of a run repeats no name exactly when at most one of its majors is unknown. */
  lemma {:induction false} PackagesDistinctIff(inputs: Inputs, fs: FileSystem, staticFilePath: string)
    requires Package(inputs, fs, staticFilePath).Success?
    ensures NoDuplicates(Package(inputs, fs, staticFilePath).value.packages)
            <==> AtMostOneUnknown(Majors(inputs, fs, staticFilePath))
  {
    PackageNamesDistinctIff(PluginId(inputs, fs, staticFilePath), PluginVersion(inputs, fs, staticFilePath),
                            Majors(inputs, fs, staticFilePath));
  }

  /**
   * The archive planned at position `j` is named after its major and
   * holds, in this order, the filtered plugin folder, a `package.json`
   * with the merged metadata whose SDK fields name that major (the
   * semantic version parsing back to it) and whose other keys are the
   * merged ones, the content-types file and the `_rels` folder.
   */
  lemma ArchiveAt(sourcePath: string, pluginId: Value, pluginVersion: Value, merged: Object,
                  staticFilePath: string, majors: seq<Option<int>>, j: nat)
    requires j < |majors|
    ensures var archive := Archives(sourcePath, pluginId, pluginVersion, merged, staticFilePath, majors)[j];
            archive.fileName == ArchiveFileName(pluginId, pluginVersion, majors[j]) &&
            archive.entries == [ Directory(sourcePath, PluginFilesRoot(pluginId), SkipGit),
                                 Literal("package.json", WithSdkVersion(merged, majors[j])),
                                 File(staticFilePath + "/[Content_Types].xml", "[Content_Types].xml"),
                                 Directory(staticFilePath + "/_rels", "_rels", KeepAll) ] &&
            var meta := WithSdkVersion(merged, majors[j]);
            PackageJson(archive.entries) == Some(meta) &&
            meta.Keys == merged.Keys + {"sdk_version", "sdk_version_semver"} &&
            meta["sdk_version"] == NumberValue(majors[j]) &&
            meta["sdk_version_semver"].Str? && MajorOf(meta["sdk_version_semver"].s) == majors[j] &&
            forall k :: k in merged && k != "sdk_version" && k != "sdk_version_semver" ==> meta[k] == merged[k]
  {
    var archive := Archives(sourcePath, pluginId, pluginVersion, merged, staticFilePath, majors)[j];
    assert archive == ArchiveFor(sourcePath, pluginId, pluginVersion, merged, staticFilePath, majors[j]);
    PackageJsonOfPlan(sourcePath, pluginId, WithSdkVersion(merged, majors[j]), staticFilePath);
    WithSdkVersionFields(merged, majors[j]);
    SdkVersionRoundTrip(merged, majors[j]);
  }

  /** The `package.json` of the archive at position `j` of a run. */
  function MetadataOf(inputs: Inputs, fs: FileSystem, staticFilePath: string, j: nat): Option<Object>
    requires Package(inputs, fs, staticFilePath).Success?
  {
    var archives := Package(inputs, fs, staticFilePath).value.archives;
    if j < |archives| then PackageJson(archives[j].entries) else None
  }

  /** An archive's `package.json` carries the merged `description`. */
  lemma DescriptionCarried(sourcePath: string, pluginId: Value, pluginVersion: Value, merged: Object,
                           staticFilePath: string, majors: seq<Option<int>>, j: nat)
    requires j < |majors| && "description" in merged
    ensures var archive := Archives(sourcePath, pluginId, pluginVersion, merged, staticFilePath, majors)[j];
            var meta := PackageJson(archive.entries);
            meta.Some? && "description" in meta.value && meta.value["description"] == merged["description"]
  {
    ArchiveAt(sourcePath, pluginId, pluginVersion, merged, staticFilePath, majors, j);
  }

  /** Where the merged `description` comes from. */
  lemma MergedDescription(inputs: Inputs, fs: FileSystem, staticFilePath: string)
    requires Loads(inputs, fs, staticFilePath)
    ensures var merged := Merged(inputs, fs, staticFilePath);
            var template := Template(inputs, fs, staticFilePath);
            (TemplatePath(inputs, fs, staticFilePath) == DefaultTemplatePath(staticFilePath) ==>
               "description" in merged && merged["description"] == Get(Plugin(inputs, fs, staticFilePath), "description")) &&
            (TemplatePath(inputs, fs, staticFilePath) != DefaultTemplatePath(staticFilePath) ==>
               ("description" in merged <==> "description" in template) &&
               ("description" in template ==> merged["description"] == template["description"]))
  {
  }

  /**
   * A custom template that exists and is not the bundled one keeps its
   * own `description` in every archive.
   */
  lemma {:induction false} CustomDescriptionPreserved(inputs: Inputs, fs: FileSystem, staticFilePath: string, j: nat)
    requires Package(inputs, fs, staticFilePath).Success?
    requires inputs.packageInfoPath != "" && inputs.packageInfoPath in fs.existing
    requires inputs.packageInfoPath != DefaultTemplatePath(staticFilePath)
    requires "description" in fs.documents[inputs.packageInfoPath]
    requires j < |Package(inputs, fs, staticFilePath).value.archives|
    ensures var meta := MetadataOf(inputs, fs, staticFilePath, j);
            meta.Some? && "description" in meta.value &&
            meta.value["description"] == fs.documents[inputs.packageInfoPath]["description"]
  {
    var archives := ArchivesOf(inputs, fs, staticFilePath);
    MergedDescription(inputs, fs, staticFilePath);
    DescriptionCarried(inputs.sourceFolder, PluginId(inputs, fs, staticFilePath), PluginVersion(inputs, fs, staticFilePath),
                       Merged(inputs, fs, staticFilePath), staticFilePath, Majors(inputs, fs, staticFilePath), j);
  }

  /** When the bundled template is read, every archive carries the plugin's own description. */
  lemma {:induction false} DefaultTemplateTakesPluginDescription(inputs: Inputs, fs: FileSystem, staticFilePath: string, j: nat)
    requires Package(inputs, fs, staticFilePath).Success?
    requires TemplatePath(inputs, fs, staticFilePath) == DefaultTemplatePath(staticFilePath)
    requires j < |Package(inputs, fs, staticFilePath).value.archives|
    ensures var meta := MetadataOf(inputs, fs, staticFilePath, j);
            meta.Some? && "description" in meta.value &&
            meta.value["description"] == Get(Plugin(inputs, fs, staticFilePath), "description")
  {
    var archives := ArchivesOf(inputs, fs, staticFilePath);
    MergedDescription(inputs, fs, staticFilePath);
    DescriptionCarried(inputs.sourceFolder, PluginId(inputs, fs, staticFilePath), PluginVersion(inputs, fs, staticFilePath),
                       Merged(inputs, fs, staticFilePath), staticFilePath, Majors(inputs, fs, staticFilePath), j);
  }

  /**
   * The `package.json` of the archive at position `j` of a run is the
   * merged metadata with that archive's major in its SDK fields; the
   * semantic version parses back to the same major.
   */
  lemma {:induction false} ArchiveSdkMetadata(inputs: Inputs, fs: FileSystem, staticFilePath: string, j: nat)
    requires Package(inputs, fs, staticFilePath).Success?
    requires j < |Package(inputs, fs, staticFilePath).value.archives|
    ensures j < |Majors(inputs, fs, staticFilePath)|
    ensures var meta := MetadataOf(inputs, fs, staticFilePath, j);
            var major := Majors(inputs, fs, staticFilePath)[j];
            meta == Some(WithSdkVersion(Merged(inputs, fs, staticFilePath), major)) &&
            meta.value["sdk_version"] == NumberValue(major) &&
            meta.value["sdk_version_semver"].Str? && MajorOf(meta.value["sdk_version_semver"].s) == major
  {
    var archives := ArchivesOf(inputs, fs, staticFilePath);
    ArchiveAt(inputs.sourceFolder, PluginId(inputs, fs, staticFilePath), PluginVersion(inputs, fs, staticFilePath),
              Merged(inputs, fs, staticFilePath), staticFilePath, Majors(inputs, fs, staticFilePath), j);
  }

  /** A version string whose first character is a digit `d` followed by `.` has major `d`. */
  lemma SingleDigitMajor(versionString: string)
    requires |versionString| >= 2 && IsDigit(versionString[0]) && versionString[1] == '.'
    ensures MajorOf(versionString) == Some(DigitValue(versionString[0]) as int)
  {
    var d := versionString[0];
    assert LeadingComponent(versionString[1..]) == [];
    assert LeadingComponent(versionString) == [d];
    assert LeadingDigits([d]) == [d] by {
      assert [d][1..] == [];
    }
    assert DigitsValue([d]) == DigitValue(d) by {
      assert [d][..0] == [];
    }
  }

  /** The majors of the example's version strings. */
  lemma ExampleVersionMajors()
    ensures MajorOf("5.2.0") == Some(5) && MajorOf("5.9.0") == Some(5) && MajorOf("7.0.1") == Some(7)
  {
    SingleDigitMajor("5.2.0");
    SingleDigitMajor("5.9.0");
    SingleDigitMajor("7.0.1");
  }

  /** Mapping a list of three version strings. */
  lemma ThreeVersionMajors(a: string, b: string, c: string)
    ensures ExtractMajors(Arr([Str(a), Str(b), Str(c)])) == Success([MajorOf(a), MajorOf(b), MajorOf(c)])
  {
    var items := [Str(a), Str(b), Str(c)];
    var ss := StringsOf(items);
    assert AllStrings(items);
    assert ss.value == [a, b, c] by {
      assert |ss.value| == 3;
      assert ss.value[0] == a && ss.value[1] == b && ss.value[2] == c;
    }
    var ms := ExtractMajors(Arr(items)).value;
    assert ms == [MajorOf(a), MajorOf(b), MajorOf(c)] by { assert |ms| == 3; }
  }

  /** A worked example: `["5.2.0", "5.9.0", "7.0.1"]` maps to the majors 5, 5 and 7. */
  lemma ExampleMajors()
    ensures ExtractMajors(Arr([Str("5.2.0"), Str("5.9.0"), Str("7.0.1")])) == Success([Some(5), Some(5), Some(7)])
  {
    ThreeVersionMajors("5.2.0", "5.9.0", "7.0.1");
    ExampleVersionMajors();
  }

  /** The Set built from the example's majors iterates 5 then 7. */
  lemma ExampleDistinctMajors()
    ensures Dedup([Some(5), Some(5), Some(7)]) == [Some(5), Some(7)]
  {
    var ms := [Some(5), Some(5), Some(7)];
    assert ms[..2][..1] == [Some(5)];
    assert ms[..2] == [Some(5), Some(5)];
  }

  /**
   * A run that succeeds with one archive exists: the bundled template, a
   * given plugin id and a manifest listing `5.0`, so the lemmas that
   * assume a successful run are not vacuous.
   */
  lemma ExampleRunSucceeds()
    ensures var out := Package(Inputs("src", "MyPlugin", ""),
                               FileSystem({}, map["files/package.json" := map[],
                                                  "src/plugin.json" := map["supported_sdk_versions" := Arr([Str("5.0")])]]),
                               "files");
            out.Success? && |out.value.archives| == 1
  {
    var inputs := Inputs("src", "MyPlugin", "");
    var fs := FileSystem({}, map["files/package.json" := map[],
                                 "src/plugin.json" := map["supported_sdk_versions" := Arr([Str("5.0")])]]);
    assert TemplatePath(inputs, fs, "files") == "files/package.json";
    assert PluginManifestPath(inputs) == "src/plugin.json";
    assert Loads(inputs, fs, "files");
    assert PluginId(inputs, fs, "files") == Str("MyPlugin");
    assert PluginVersion(inputs, fs, "files") == Undefined;
    SingleDigitMajor("5.0");
    OneVersionMajor("5.0");
    assert Dedup([Some(5)]) == [Some(5)];
    assert ExtractMajors(SupportedVersions(inputs, fs, "files")) == Success([Some(5)]);
    assert Package(inputs, fs, "files").Success?;
    PackageOutput(inputs, fs, "files");
  }

  /** A list of one string maps to that string's major. */
  lemma OneVersionMajor(a: string)
    ensures ExtractMajors(Arr([Str(a)])) == Success([MajorOf(a)])
  {
    var ss := StringsOf([Str(a)]);
    assert ss.value == [a] by { assert |ss.value| == 1; }
    var ms := ExtractMajors(Arr([Str(a)])).value;
    assert ms == [MajorOf(a)] by { assert |ms| == 1; }
  }
}

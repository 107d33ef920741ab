/**
 * The planning core of `run()` (index.js:11-156): resolve the inputs,
 * load and merge the metadata, partition the supported SDK versions and
 * plan one archive per distinct major.
 */
module Packager {
  import opened Wrappers
  import opened JsValues
  import opened Partition
  import opened Naming
  import opened Metadata
  import opened ArchivePlan

  /** The three action inputs, as `core.getInput` returns them. */
  datatype Inputs = Inputs(sourceFolder: string, pluginId: string, packageInfoPath: string)

  /**
   * What the file system answers: the paths `fs.existsSync` accepts, and
   * the parsed JSON object of every file that reads and parses; any
   * other path is one whose read or parse throws.
   */
  datatype FileSystem = FileSystem(existing: set<string>, documents: map<string, Object>)

  /** Why `run()` reports failure through `core.setFailed`. */
  datatype Failure =
    | ReadFailed(path: string)                // readFileSync or JSON.parse threw (index.js:24-29, 35-40)
    | NotConvertible(found: Value)            // the TypeError of `${pluginId} ${pluginVersion}` (index.js:49)
    | VersionsUnusable(cause: ExtractError)   // the TypeError of index.js:60-61

  /** The `packages` output and the archives planned on the way. */
  datatype Output = Output(packages: seq<string>, archives: seq<Archive>)

  /** The template path `run()` reads. */
  function TemplatePath(inputs: Inputs, fs: FileSystem, staticFilePath: string): string {
    ResolvePackageInfoPath(inputs.packageInfoPath, inputs.packageInfoPath in fs.existing, staticFilePath)
  }

  function PluginManifestPath(inputs: Inputs): string {
    inputs.sourceFolder + "/plugin.json"
  }

  /** Both metadata documents read and parse. */
  predicate Loads(inputs: Inputs, fs: FileSystem, staticFilePath: string) {
    TemplatePath(inputs, fs, staticFilePath) in fs.documents && PluginManifestPath(inputs) in fs.documents
  }

  function Template(inputs: Inputs, fs: FileSystem, staticFilePath: string): Object
    requires Loads(inputs, fs, staticFilePath)
  {
    fs.documents[TemplatePath(inputs, fs, staticFilePath)]
  }

  function Plugin(inputs: Inputs, fs: FileSystem, staticFilePath: string): Object
    requires Loads(inputs, fs, staticFilePath)
  {
    fs.documents[PluginManifestPath(inputs)]
  }

  function PluginId(inputs: Inputs, fs: FileSystem, staticFilePath: string): Value
    requires Loads(inputs, fs, staticFilePath)
  {
    EffectivePluginId(inputs.pluginId, Template(inputs, fs, staticFilePath))
  }

  function PluginVersion(inputs: Inputs, fs: FileSystem, staticFilePath: string): Value
    requires Loads(inputs, fs, staticFilePath)
  {
    Get(Plugin(inputs, fs, staticFilePath), "version")
  }

  /** The package metadata after the merge of index.js:52-57. */
  function Merged(inputs: Inputs, fs: FileSystem, staticFilePath: string): Object
    requires Loads(inputs, fs, staticFilePath)
  {
    MergePluginInfo(Template(inputs, fs, staticFilePath), Plugin(inputs, fs, staticFilePath),
                    PluginId(inputs, fs, staticFilePath),
                    TemplatePath(inputs, fs, staticFilePath) == DefaultTemplatePath(staticFilePath))
  }

  /**
   * The value the template literal of index.js:49 cannot turn into text:
   * the plugin id is converted first, then the plugin version.
   */
  function Unconvertible(inputs: Inputs, fs: FileSystem, staticFilePath: string): (r: Option<Value>)
    requires Loads(inputs, fs, staticFilePath)
    ensures r.None? <==> Stringable(PluginId(inputs, fs, staticFilePath)) && Stringable(PluginVersion(inputs, fs, staticFilePath))
    ensures r.Some? ==> !Stringable(r.value)
    ensures !Stringable(PluginId(inputs, fs, staticFilePath)) ==> r == Some(PluginId(inputs, fs, staticFilePath))
    ensures r.Some? ==> r.value == PluginId(inputs, fs, staticFilePath) || r.value == PluginVersion(inputs, fs, staticFilePath)
  {
    var id := PluginId(inputs, fs, staticFilePath);
    var version := PluginVersion(inputs, fs, staticFilePath);
    if !Stringable(id) then Some(id) else if !Stringable(version) then Some(version) else None
  }

  function SupportedVersions(inputs: Inputs, fs: FileSystem, staticFilePath: string): Value
    requires Loads(inputs, fs, staticFilePath)
  {
    Get(Plugin(inputs, fs, staticFilePath), "supported_sdk_versions")
  }

  /** The output file names, one per major, in the given order. */
  function PackageNames(pluginId: Value, pluginVersion: Value, majors: seq<Option<int>>): (names: seq<string>) {
    seq(|majors|, j requires 0 <= j < |majors| => ArchiveFileName(pluginId, pluginVersion, majors[j]))
  }

  /** The archive planned for one major. */
  function ArchiveFor(sourcePath: string, pluginId: Value, pluginVersion: Value, merged: Object,
                      staticFilePath: string, major: Option<int>): Archive
  {
    Archive(ArchiveFileName(pluginId, pluginVersion, major),
            EntryPlan(sourcePath, pluginId, WithSdkVersion(merged, major), staticFilePath))
  }

  /** The archive planned for each major, in the given order. */
  function Archives(sourcePath: string, pluginId: Value, pluginVersion: Value, merged: Object,
                    staticFilePath: string, majors: seq<Option<int>>): seq<Archive>
  {
    seq(|majors|, j requires 0 <= j < |majors| =>
          ArchiveFor(sourcePath, pluginId, pluginVersion, merged, staticFilePath, majors[j]))
  }

  lemma PackageNamesSnoc(pluginId: Value, pluginVersion: Value, majors: seq<Option<int>>, major: Option<int>)
    ensures PackageNames(pluginId, pluginVersion, majors + [major])
            == PackageNames(pluginId, pluginVersion, majors) + [ArchiveFileName(pluginId, pluginVersion, major)]
  {
  }

  lemma ArchivesSnoc(sourcePath: string, pluginId: Value, pluginVersion: Value, merged: Object,
                     staticFilePath: string, majors: seq<Option<int>>, major: Option<int>)
    ensures Archives(sourcePath, pluginId, pluginVersion, merged, staticFilePath, majors + [major])
            == Archives(sourcePath, pluginId, pluginVersion, merged, staticFilePath, majors)
               + [ArchiveFor(sourcePath, pluginId, pluginVersion, merged, staticFilePath, major)]
  {
    var longer := Archives(sourcePath, pluginId, pluginVersion, merged, staticFilePath, majors + [major]);
    var shorter := Archives(sourcePath, pluginId, pluginVersion, merged, staticFilePath, majors);
    forall j | 0 <= j < |majors| ensures longer[j] == shorter[j] {
      assert (majors + [major])[j] == majors[j];
    }
    assert longer[|majors|] == ArchiveFor(sourcePath, pluginId, pluginVersion, merged, staticFilePath, major);
  }

  lemma PackageNamesStep(pluginId: Value, pluginVersion: Value, majors: seq<Option<int>>, i: nat)
    requires i < |majors|
    ensures PackageNames(pluginId, pluginVersion, majors[..i + 1])
            == PackageNames(pluginId, pluginVersion, majors[..i]) + [ArchiveFileName(pluginId, pluginVersion, majors[i])]
  {
    assert majors[..i + 1] == majors[..i] + [majors[i]];
    PackageNamesSnoc(pluginId, pluginVersion, majors[..i], majors[i]);
  }

  lemma ArchivesStep(sourcePath: string, pluginId: Value, pluginVersion: Value, merged: Object,
                     staticFilePath: string, majors: seq<Option<int>>, i: nat)
    requires i < |majors|
    ensures Archives(sourcePath, pluginId, pluginVersion, merged, staticFilePath, majors[..i + 1])
            == Archives(sourcePath, pluginId, pluginVersion, merged, staticFilePath, majors[..i])
               + [ArchiveFor(sourcePath, pluginId, pluginVersion, merged, staticFilePath, majors[i])]
  {
    assert majors[..i + 1] == majors[..i] + [majors[i]];
    ArchivesSnoc(sourcePath, pluginId, pluginVersion, merged, staticFilePath, majors[..i], majors[i]);
  }

  /** What `run()` produces, as a function of its inputs and of the file system. */
  function Package(inputs: Inputs, fs: FileSystem, staticFilePath: string): (r: Result<Output, Failure>)
    ensures r.Success? <==>
              Loads(inputs, fs, staticFilePath) && Unconvertible(inputs, fs, staticFilePath).None? &&
              ExtractMajors(SupportedVersions(inputs, fs, staticFilePath)).Success?
    ensures TemplatePath(inputs, fs, staticFilePath) !in fs.documents ==>
              r == Failure(ReadFailed(TemplatePath(inputs, fs, staticFilePath)))
    ensures TemplatePath(inputs, fs, staticFilePath) in fs.documents && PluginManifestPath(inputs) !in fs.documents ==>
              r == Failure(ReadFailed(PluginManifestPath(inputs)))
    ensures Loads(inputs, fs, staticFilePath) && Unconvertible(inputs, fs, staticFilePath).Some? ==>
              r == Failure(NotConvertible(Unconvertible(inputs, fs, staticFilePath).value))
    ensures Loads(inputs, fs, staticFilePath) && Unconvertible(inputs, fs, staticFilePath).None? && r.Failure? ==>
              ExtractMajors(SupportedVersions(inputs, fs, staticFilePath)).Failure? &&
              r.error == VersionsUnusable(ExtractMajors(SupportedVersions(inputs, fs, staticFilePath)).error)
  {
    if !Loads(inputs, fs, staticFilePath) then
      if TemplatePath(inputs, fs, staticFilePath) !in fs.documents
      then Failure(ReadFailed(TemplatePath(inputs, fs, staticFilePath)))
      else Failure(ReadFailed(PluginManifestPath(inputs)))
    else if Unconvertible(inputs, fs, staticFilePath).Some? then
      Failure(NotConvertible(Unconvertible(inputs, fs, staticFilePath).value))
    else
      match ExtractMajors(SupportedVersions(inputs, fs, staticFilePath))
      case Failure(e) => Failure(VersionsUnusable(e))
      case Success(listed) =>
        var majors := Dedup(listed);
        var id := PluginId(inputs, fs, staticFilePath);
        var version := PluginVersion(inputs, fs, staticFilePath);
        Success(Output(PackageNames(id, version, majors),
                       Archives(inputs.sourceFolder, id, version, Merged(inputs, fs, staticFilePath),
                                staticFilePath, majors)))
  }

  /**
   * `run()` step by step: the locals `pluginId`, `packageInfoPath` and
   * `packageInfo` are reassigned as the source reassigns them, and the
   * `forEach` over the Set of majors pushes one name and plans one
   * archive per member, rewriting the shared metadata object each time.
   */
  method Run(inputs: Inputs, fs: FileSystem, staticFilePath: string) returns (outcome: Result<Output, Failure>)
    ensures outcome == Package(inputs, fs, staticFilePath)
  {
    var sourcePath := inputs.sourceFolder;
    var pluginId := Str(inputs.pluginId);
    var packageInfoPath := inputs.packageInfoPath;

    if packageInfoPath == "" || packageInfoPath !in fs.existing {
      packageInfoPath := staticFilePath + "/package.json";
    }

    if packageInfoPath !in fs.documents {
      return Failure(ReadFailed(packageInfoPath));
    }
    var packageInfo := fs.documents[packageInfoPath];

    if sourcePath + "/plugin.json" !in fs.documents {
      return Failure(ReadFailed(sourcePath + "/plugin.json"));
    }
    var pluginInfo := fs.documents[sourcePath + "/plugin.json"];

    if inputs.pluginId == "" {
      pluginId := Get(packageInfo, "package_id");
    }
    var pluginVersion := Get(pluginInfo, "version");
    assert pluginId == PluginId(inputs, fs, staticFilePath) && pluginVersion == PluginVersion(inputs, fs, staticFilePath);

    if !Stringable(pluginId) {
      return Failure(NotConvertible(pluginId));
    }
    if !Stringable(pluginVersion) {
      return Failure(NotConvertible(pluginVersion));
    }

    packageInfo := packageInfo["package_id" := pluginId];
    packageInfo := packageInfo["package_version" := pluginVersion];
    packageInfo := packageInfo["display_name" := Get(pluginInfo, "name")];
    if packageInfoPath == staticFilePath + "/package.json" {
      packageInfo := packageInfo["description" := Get(pluginInfo, "description")];
    }
    var merged := packageInfo;
    assert merged == Merged(inputs, fs, staticFilePath);

    var listed := ExtractMajors(Get(pluginInfo, "supported_sdk_versions"));
    if listed.Failure? {
      return Failure(VersionsUnusable(listed.error));
    }
    var majorSDKVersions := Dedup(listed.value);

    var packageFiles, archives := PlanArchives(sourcePath, pluginId, pluginVersion, merged, staticFilePath, majorSDKVersions);
    return Success(Output(packageFiles, archives));
  }

  /**
   * The `forEach` of index.js:66-154: for each major in Set order, push
   * its file name and plan its archive, rewriting the shared metadata
   * object's SDK fields before the archive's `package.json` is taken
   * from it.
   */
  method PlanArchives(sourcePath: string, pluginId: Value, pluginVersion: Value, merged: Object,
                      staticFilePath: string, majorSDKVersions: seq<Option<int>>)
    returns (packageFiles: seq<string>, archives: seq<Archive>)
    ensures packageFiles == PackageNames(pluginId, pluginVersion, majorSDKVersions)
    ensures archives == Archives(sourcePath, pluginId, pluginVersion, merged, staticFilePath, majorSDKVersions)
  {
    var packageInfo := merged;
    packageFiles := [];
    archives := [];
    var i := 0;
    while i < |majorSDKVersions|
      invariant 0 <= i <= |majorSDKVersions|
      invariant packageFiles == PackageNames(pluginId, pluginVersion, majorSDKVersions[..i])
      invariant archives == Archives(sourcePath, pluginId, pluginVersion, merged, staticFilePath, majorSDKVersions[..i])
      invariant i > 0 ==> packageInfo == WithSdkVersion(merged, majorSDKVersions[i - 1])
      invariant i == 0 ==> packageInfo == merged
    {
      var majorVersion := majorSDKVersions[i];
      var archiveFileName, archive;
      archiveFileName, packageInfo, archive :=
        PlanArchive(sourcePath, pluginId, pluginVersion, packageInfo, staticFilePath, majorVersion);
      packageFiles := packageFiles + [archiveFileName];
      archives := archives + [archive];
      assert packageInfo == WithSdkVersion(merged, majorVersion) by {
        if i > 0 {
          LaterSdkVersionOverwrites(merged, majorSDKVersions[i - 1], majorVersion);
        }
      }
      assert archive == ArchiveFor(sourcePath, pluginId, pluginVersion, merged, staticFilePath, majorVersion);
      PackageNamesStep(pluginId, pluginVersion, majorSDKVersions, i);
      ArchivesStep(sourcePath, pluginId, pluginVersion, merged, staticFilePath, majorSDKVersions, i);
      i := i + 1;
    }
    assert majorSDKVersions[..i] == majorSDKVersions;
  }

  /**
   * The `forEach` callback (index.js:66-153) for one major: the file
   * name it pushes, the shared metadata once it has set the SDK fields,
   * and the archive it plans with that metadata.
   */
  method PlanArchive(sourcePath: string, pluginId: Value, pluginVersion: Value, packageInfo: Object,
                     staticFilePath: string, majorVersion: Option<int>)
    returns (archiveFileName: string, updated: Object, archive: Archive)
    ensures archiveFileName == ArchiveFileName(pluginId, pluginVersion, majorVersion)
    ensures updated == WithSdkVersion(packageInfo, majorVersion)
    ensures archive == Archive(archiveFileName, EntryPlan(sourcePath, pluginId, updated, staticFilePath))
  {
    var semanticVersion := SemanticVersion(majorVersion);
    var curaVersions := CuraVersions(majorVersion);
    archiveFileName := ToJsString(pluginId) + "_v" + ToJsString(pluginVersion)
                       + "_Cura" + curaVersions + ".curapackage";
    updated := packageInfo;
    updated := updated["sdk_version" := NumberValue(majorVersion)];
    updated := updated["sdk_version_semver" := Str(semanticVersion)];
    archive := Archive(archiveFileName, EntryPlan(sourcePath, pluginId, updated, staticFilePath));
  }
}

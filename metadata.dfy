/**
 * Input resolution and the edits `run()` makes to the package metadata:
 * the template path (index.js:18-20), the plugin id (index.js:43-45), the
 * merge of the plugin manifest (index.js:52-57) and the per-major SDK
 * fields (index.js:88-89).
 */
module Metadata {
  import opened Wrappers
  import opened JsValues
  import opened Partition
  import opened Naming

  /** The bundled template, `staticFilePath + "/package.json"`. */
  function DefaultTemplatePath(staticFilePath: string): string {
    staticFilePath + "/package.json"
  }

  /**
   * `package_info_path` as given when it names an existing file, the
   * bundled template otherwise; `inputExists` is `fs.existsSync(input)`.
   */
  function ResolvePackageInfoPath(input: string, inputExists: bool, staticFilePath: string): (path: string)
    ensures path == input || path == DefaultTemplatePath(staticFilePath)
    ensures path == input <== input != "" && inputExists
    ensures path == DefaultTemplatePath(staticFilePath) <== input == "" || !inputExists
  {
    if input == "" || !inputExists then DefaultTemplatePath(staticFilePath) else input
  }

  /** The `plugin_id` input, or the template's `package_id` when the input is empty. */
  function EffectivePluginId(input: string, template: Object): (id: Value)
    ensures input != "" ==> id == Str(input)
    ensures input == "" ==> id == Get(template, "package_id")
  {
    if input == "" then Get(template, "package_id") else Str(input)
  }

  /** The keys the merge may write. */
  const MergedKeys: set<string> := {"package_id", "package_version", "display_name", "description"}

  /**
   * The template with the plugin's identity copied in. `fromDefault` says
   * whether the template path resolved to the bundled one; only then is
   * `description` taken from the plugin. Assigning `undefined` still
   * creates the key.
   */
  function MergePluginInfo(template: Object, plugin: Object, pluginId: Value, fromDefault: bool): (merged: Object)
    ensures merged.Keys == template.Keys + {"package_id", "package_version", "display_name"}
                           + (if fromDefault then {"description"} else {})
    ensures merged["package_id"] == pluginId
    ensures merged["package_version"] == Get(plugin, "version")
    ensures merged["display_name"] == Get(plugin, "name")
    ensures fromDefault ==> merged["description"] == Get(plugin, "description")
    ensures !fromDefault && "description" in template ==> merged["description"] == template["description"]
    ensures forall k :: k in template && k !in MergedKeys ==> merged[k] == template[k]
  {
    var identified := template["package_id" := pluginId]
                              ["package_version" := Get(plugin, "version")]
                              ["display_name" := Get(plugin, "name")];
    if fromDefault then identified["description" := Get(plugin, "description")] else identified
  }

  /** The metadata written into the archive of one major (index.js:88-89). */
  function WithSdkVersion(meta: Object, major: Option<int>): (r: Object)
    ensures r.Keys == meta.Keys + {"sdk_version", "sdk_version_semver"}
    ensures r["sdk_version"] == NumberValue(major)
    ensures r["sdk_version_semver"] == Str(SemanticVersion(major))
  {
    meta["sdk_version" := NumberValue(major)]["sdk_version_semver" := Str(SemanticVersion(major))]
  }

  /** The two SDK fields are added or replaced; every other key keeps its value. */
  lemma WithSdkVersionFields(meta: Object, major: Option<int>)
    ensures var r := WithSdkVersion(meta, major);
            && r.Keys == meta.Keys + {"sdk_version", "sdk_version_semver"}
            && r["sdk_version"] == NumberValue(major)
            && r["sdk_version_semver"] == Str(SemanticVersion(major))
            && forall k :: k in meta && k != "sdk_version" && k != "sdk_version_semver" ==> r[k] == meta[k]
  {
  }

  /**
   * The loop rewrites one shared object: what an earlier iteration wrote
   * is fully replaced by the next one.
   */
  lemma LaterSdkVersionOverwrites(meta: Object, earlier: Option<int>, later: Option<int>)
    ensures WithSdkVersion(WithSdkVersion(meta, earlier), later) == WithSdkVersion(meta, later)
  {
  }

  /**
   * The SDK fields of an archive's metadata name its major, and the
   * semantic version's leading component parses back to it.
   */
  lemma SdkVersionRoundTrip(meta: Object, major: Option<int>)
    ensures var r := WithSdkVersion(meta, major);
            r["sdk_version"] == NumberValue(major) &&
            r["sdk_version_semver"].Str? &&
            MajorOf(r["sdk_version_semver"].s) == major
  {
    SemanticVersionRoundTrip(major);
  }

  /**
   * The plugin's description replaces the template's exactly when the
   * `package_info_path` input is empty, names no existing file, or is the
   * bundled template's own path.
   */
  lemma DescriptionFromPluginIff(input: string, inputExists: bool, staticFilePath: string)
    ensures ResolvePackageInfoPath(input, inputExists, staticFilePath) == DefaultTemplatePath(staticFilePath)
            <==> input == "" || !inputExists || input == DefaultTemplatePath(staticFilePath)
  {
  }
}

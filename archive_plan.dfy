/**
 * The entries `run()` asks the archive writer for, in the order of the
 * calls (index.js:130-149), and what a directory entry expands to.
 */
module ArchivePlan {
  import opened Wrappers
  import opened JsValues

  /** Which files of a walked directory a directory entry keeps. */
  datatype DirectoryFilter =
    | KeepAll                  // `archive.directory(path, dest)`
    | SkipGit                  // `file => file.name.startsWith(".git") ? false : file`

  /** One call into the archive writer. */
  datatype Entry =
    | Directory(source: string, destination: string, filter: DirectoryFilter)
    | Literal(name: string, content: Object)    // `archive.append(JSON.stringify(content), {name})`
    | File(source: string, name: string)        // `archive.file(source, {name})`

  /** One `.curapackage` to write: its file name and its entries in call order. */
  datatype Archive = Archive(fileName: string, entries: seq<Entry>)

  predicate StartsWith(s: string, prefix: string) {
    |prefix| <= |s| && s[..|prefix|] == prefix
  }

  /**
   * Whether the filter keeps a file. The archive writer passes the
   * file's path relative to the walked directory, so the test looks at
   * the start of that whole path only.
   */
  predicate Keeps(filter: DirectoryFilter, relativePath: string)
    ensures filter.SkipGit? && StartsWith(relativePath, ".git") ==> !Keeps(filter, relativePath)
    ensures relativePath == [] || relativePath[0] != '.' ==> Keeps(filter, relativePath)
  {
    filter.KeepAll? || !StartsWith(relativePath, ".git")
  }

  /** Internal path under which the plugin's own files are stored. */
  function PluginFilesRoot(pluginId: Value): string {
    "files/plugins/" + ToJsString(pluginId)
  }

  /** The four calls made for one archive, in order. */
  function EntryPlan(sourcePath: string, pluginId: Value, meta: Object, staticFilePath: string): (plan: seq<Entry>)
    ensures |plan| == 4
    ensures plan[0].Directory? && plan[0].source == sourcePath && plan[0].destination == PluginFilesRoot(pluginId)
            && plan[0].filter == SkipGit
    ensures plan[1] == Literal("package.json", meta)
    ensures plan[2].File? && plan[2].source == staticFilePath + "/[Content_Types].xml" && plan[2].name == "[Content_Types].xml"
    ensures plan[3].Directory? && plan[3].source == staticFilePath + "/_rels" && plan[3].destination == "_rels"
            && plan[3].filter == KeepAll
  {
    [ Directory(sourcePath, PluginFilesRoot(pluginId), SkipGit),
      Literal("package.json", meta),
      File(staticFilePath + "/[Content_Types].xml", "[Content_Types].xml"),
      Directory(staticFilePath + "/_rels", "_rels", KeepAll) ]
  }

  /**
   * The internal names a directory entry adds, given the relative paths
   * of the files found under its source, in walk order: each kept file
   * is named `destination + "/" + relativePath` as handed to the writer,
   * before the writer collapses repeated `/` and turns `\` into `/`.
   */
  function ExpandDirectory(destination: string, filter: DirectoryFilter, walked: seq<string>): (names: seq<string>)
    ensures |names| <= |walked|
    ensures filter.KeepAll? ==> |names| == |walked|
  {
    if walked == [] then []
    else
      var head := if Keeps(filter, walked[0]) then [destination + "/" + walked[0]] else [];
      head + ExpandDirectory(destination, filter, walked[1..])
  }

  /** Every stored name comes from a walked path the filter keeps. */
  lemma {:induction false} ExpandDirectorySound(destination: string, filter: DirectoryFilter, walked: seq<string>, i: nat)
    requires i < |ExpandDirectory(destination, filter, walked)|
    ensures exists j :: 0 <= j < |walked| && Keeps(filter, walked[j]) &&
                        ExpandDirectory(destination, filter, walked)[i] == destination + "/" + walked[j]
    decreases |walked|
  {
    var names := ExpandDirectory(destination, filter, walked);
    var head := if Keeps(filter, walked[0]) then [destination + "/" + walked[0]] else [];
    var rest := ExpandDirectory(destination, filter, walked[1..]);
    assert names == head + rest;
    if i < |head| {
      assert names[i] == destination + "/" + walked[0];
    } else {
      ExpandDirectorySound(destination, filter, walked[1..], i - |head|);
      var j :| 0 <= j < |walked[1..]| && Keeps(filter, walked[1..][j]) && rest[i - |head|] == destination + "/" + walked[1..][j];
      assert names[i] == rest[i - |head|];
      assert walked[1..][j] == walked[j + 1];
    }
  }

  /** Every walked path the filter keeps is stored. */
  lemma {:induction false} ExpandDirectoryComplete(destination: string, filter: DirectoryFilter, walked: seq<string>, j: nat)
    requires j < |walked| && Keeps(filter, walked[j])
    ensures destination + "/" + walked[j] in ExpandDirectory(destination, filter, walked)
    decreases |walked|
  {
    var head := if Keeps(filter, walked[0]) then [destination + "/" + walked[0]] else [];
    var rest := ExpandDirectory(destination, filter, walked[1..]);
    assert ExpandDirectory(destination, filter, walked) == head + rest;
    if j > 0 {
      assert walked[1..][j - 1] == walked[j];
      ExpandDirectoryComplete(destination, filter, walked[1..], j - 1);
    }
  }

  /** Every stored name lies under the destination folder. */
  lemma ExpandDirectoryUnder(destination: string, filter: DirectoryFilter, walked: seq<string>, i: nat)
    requires i < |ExpandDirectory(destination, filter, walked)|
    ensures StartsWith(ExpandDirectory(destination, filter, walked)[i], destination + "/")
  {
    ExpandDirectorySound(destination, filter, walked, i);
    var j :| 0 <= j < |walked| && Keeps(filter, walked[j]) &&
             ExpandDirectory(destination, filter, walked)[i] == destination + "/" + walked[j];
    assert (destination + "/" + walked[j])[..|destination| + 1] == destination + "/";
  }

  /** The content of the first `package.json` literal among the entries, if any. */
  function PackageJson(entries: seq<Entry>): Option<Object> {
    if entries == [] then None
    else if entries[0].Literal? && entries[0].name == "package.json" then Some(entries[0].content)
    else PackageJson(entries[1..])
  }

  /** The planned `package.json` is the metadata the plan was made with. */
  lemma PackageJsonOfPlan(sourcePath: string, pluginId: Value, meta: Object, staticFilePath: string)
    ensures PackageJson(EntryPlan(sourcePath, pluginId, meta, staticFilePath)) == Some(meta)
  {
    var plan := EntryPlan(sourcePath, pluginId, meta, staticFilePath);
    assert plan[1..][0] == Literal("package.json", meta);
  }

  /** The internal names one entry adds, given what each directory walk finds. */
  function EntryNamesOf(entry: Entry, walk: string -> seq<string>): seq<string> {
    match entry
    case Directory(source, destination, filter) => ExpandDirectory(destination, filter, walk(source))
    case Literal(name, _) => [name]
    case File(_, name) => [name]
  }

  /** The internal names of all entries, in order. */
  function EntryNames(entries: seq<Entry>, walk: string -> seq<string>): seq<string> {
    if entries == [] then [] else EntryNamesOf(entries[0], walk) + EntryNames(entries[1..], walk)
  }

  /** The names of four entries are the names of each, concatenated in order. */
  lemma EntryNamesOfFour(a: Entry, b: Entry, c: Entry, d: Entry, walk: string -> seq<string>)
    ensures EntryNames([a, b, c, d], walk)
            == EntryNamesOf(a, walk) + (EntryNamesOf(b, walk) + (EntryNamesOf(c, walk) + EntryNamesOf(d, walk)))
  {
    assert [a, b, c, d][1..] == [b, c, d] && [b, c, d][1..] == [c, d] && [c, d][1..] == [d] && [d][1..] == [];
    assert EntryNames([d], walk) == EntryNamesOf(d, walk) + EntryNames([], walk);
    assert EntryNames([c, d], walk) == EntryNamesOf(c, walk) + EntryNames([d], walk);
    assert EntryNames([b, c, d], walk) == EntryNamesOf(b, walk) + EntryNames([c, d], walk);
    assert EntryNames([a, b, c, d], walk) == EntryNamesOf(a, walk) + EntryNames([b, c, d], walk);
  }

  /**
   * No file whose relative path starts with `.git` is stored from the
   * plugin's source folder: every stored name under the plugin root
   * comes from a walked path that does not start with `.git`.
   */
  lemma GitFilesExcluded(pluginId: Value, walked: seq<string>, i: nat)
    requires i < |ExpandDirectory(PluginFilesRoot(pluginId), SkipGit, walked)|
    ensures exists j :: 0 <= j < |walked| && !StartsWith(walked[j], ".git") &&
                        ExpandDirectory(PluginFilesRoot(pluginId), SkipGit, walked)[i]
                          == PluginFilesRoot(pluginId) + "/" + walked[j]
  {
    ExpandDirectorySound(PluginFilesRoot(pluginId), SkipGit, walked, i);
  }

  /** What the four planned entries expand to, in order. */
  lemma EntryPlanNames(sourcePath: string, pluginId: Value, meta: Object, staticFilePath: string,
                       walk: string -> seq<string>)
    ensures EntryNames(EntryPlan(sourcePath, pluginId, meta, staticFilePath), walk)
            == ExpandDirectory(PluginFilesRoot(pluginId), SkipGit, walk(sourcePath))
               + ["package.json", "[Content_Types].xml"]
               + ExpandDirectory("_rels", KeepAll, walk(staticFilePath + "/_rels"))
  {
    EntryNamesOfFour(Directory(sourcePath, PluginFilesRoot(pluginId), SkipGit),
                     Literal("package.json", meta),
                     File(staticFilePath + "/[Content_Types].xml", "[Content_Types].xml"),
                     Directory(staticFilePath + "/_rels", "_rels", KeepAll), walk);
  }

  /** No name stored from a directory is a fixed top-level name starting with another character. */
  lemma NotFromDirectory(destination: string, filter: DirectoryFilter, walked: seq<string>, name: string)
    requires |destination| > 0 && |name| > 0 && name[0] != destination[0]
    ensures name !in ExpandDirectory(destination, filter, walked)
  {
    var names := ExpandDirectory(destination, filter, walked);
    forall i | 0 <= i < |names| ensures names[i] != name {
      ExpandDirectoryUnder(destination, filter, walked, i);
    }
  }

  /**
   * Each archive holds exactly one `package.json` and one
   * `[Content_Types].xml`: no name from the two directory entries can be
   * either, whatever the walks find.
   */
  lemma FixedEntriesUnique(sourcePath: string, pluginId: Value, meta: Object, staticFilePath: string,
                           walk: string -> seq<string>)
    ensures var names := EntryNames(EntryPlan(sourcePath, pluginId, meta, staticFilePath), walk);
            multiset(names)["package.json"] == 1 && multiset(names)["[Content_Types].xml"] == 1
  {
    var root := PluginFilesRoot(pluginId);
    var plugin := ExpandDirectory(root, SkipGit, walk(sourcePath));
    var rels := ExpandDirectory("_rels", KeepAll, walk(staticFilePath + "/_rels"));
    EntryPlanNames(sourcePath, pluginId, meta, staticFilePath, walk);
    assert root[0] == 'f';
    NotFromDirectory(root, SkipGit, walk(sourcePath), "package.json");
    NotFromDirectory(root, SkipGit, walk(sourcePath), "[Content_Types].xml");
    NotFromDirectory("_rels", KeepAll, walk(staticFilePath + "/_rels"), "package.json");
    NotFromDirectory("_rels", KeepAll, walk(staticFilePath + "/_rels"), "[Content_Types].xml");
    FixedNamesOnce(plugin, rels);
  }

  /** The two fixed names occur once each between directory names that are neither. */
  lemma FixedNamesOnce(plugin: seq<string>, rels: seq<string>)
    requires "package.json" !in plugin && "package.json" !in rels
    requires "[Content_Types].xml" !in plugin && "[Content_Types].xml" !in rels
    ensures multiset(plugin + ["package.json", "[Content_Types].xml"] + rels)["package.json"] == 1
    ensures multiset(plugin + ["package.json", "[Content_Types].xml"] + rels)["[Content_Types].xml"] == 1
  {
    var fixed := ["package.json", "[Content_Types].xml"];
    CountBetween(plugin, fixed, rels, "package.json");
    CountBetween(plugin, fixed, rels, "[Content_Types].xml");
    assert fixed[0] != fixed[1] by {
      assert fixed[0][0] != fixed[1][0];
    }
    assert fixed == [fixed[0]] + [fixed[1]];
  }

  /** An element absent from both sides occurs in the whole as often as in the middle. */
  lemma CountBetween<T>(front: seq<T>, middle: seq<T>, back: seq<T>, x: T)
    requires x !in front && x !in back
    ensures multiset(front + middle + back)[x] == multiset(middle)[x]
  {
    assert multiset(front)[x] == 0 && multiset(back)[x] == 0;
  }

  /** The test looks at the start of the relative path only: a nested `.git` folder is kept. */
  lemma NestedGitFolderKept()
    ensures Keeps(SkipGit, "lib/.git/config")
    ensures !Keeps(SkipGit, ".git/config") && !Keeps(SkipGit, ".github/workflows/build.yml")
  {
    assert "lib/.git/config"[..4][0] == 'l';
  }
}

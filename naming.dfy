/**
 * Per-major names: the compatibility label of the `switch`
 * (index.js:69-83), the semantic version `${major}.0.0` (index.js:67) and
 * the archive file name template (index.js:84).
 */
module Naming {
  import opened Wrappers
  import opened Numbers
  import opened JsValues
  import opened Partition

  /** A major the label table has an entry for. */
  predicate KnownMajor(major: Option<int>) {
    major.Some? && 5 <= major.value <= 8
  }

  /**
   * The host application releases a major SDK version serves; the
   * `switch` compares with `===`, so NaN falls to the default.
   */
  function CuraVersions(major: Option<int>): (versions: string)
    ensures versions in {"3.5-3.6", "4.0-4.3", "4.4-4.13", "5.0", "Unknown"}
  {
    match major
    case Some(5) => "3.5-3.6"
    case Some(6) => "4.0-4.3"
    case Some(7) => "4.4-4.13"
    case Some(8) => "5.0"
    case _ => "Unknown"
  }

  /** `${majorVersion}.0.0`. */
  function SemanticVersion(major: Option<int>): (version: string)
    ensures |version| >= 5 && version[|version| - 4..] == ".0.0" && '.' !in version[..|version| - 4]
  {
    NoDotInNumberToString(major);
    assert (NumberToString(major) + ".0.0")[..|NumberToString(major)|] == NumberToString(major);
    NumberToString(major) + ".0.0"
  }

  /** `${pluginId}_v${pluginVersion}_Cura${curaVersions}.curapackage`. */
  function ArchiveFileName(pluginId: Value, pluginVersion: Value, major: Option<int>): (name: string)
    ensures |name| >= |ToJsString(pluginId)| + 2 + 12
    ensures name[..|ToJsString(pluginId)| + 2] == ToJsString(pluginId) + "_v"
    ensures name[|name| - 12..] == ".curapackage"
  {
    ToJsString(pluginId) + "_v" + ToJsString(pluginVersion) + "_Cura" + CuraVersions(major) + ".curapackage"
  }

  /** The label is a real release range exactly for the majors 5 to 8. */
  lemma {:induction false} CuraVersionsKnownIff(major: Option<int>)
    ensures CuraVersions(major) != "Unknown" <==> KnownMajor(major)
  {
    match major
    case Some(n) =>
      if n == 5 { assert "3.5-3.6"[0] != "Unknown"[0]; }
      else if n == 6 { assert "4.0-4.3"[0] != "Unknown"[0]; }
      else if n == 7 { assert "4.4-4.13"[0] != "Unknown"[0]; }
      else if n == 8 { assert "5.0"[0] != "Unknown"[0]; }
    case None =>
  }

  /**
   * Two different majors share a label exactly when the table knows
   * neither of them.
   */
  lemma {:induction false} CuraVersionsCollideIff(a: Option<int>, b: Option<int>)
    requires a != b
    ensures CuraVersions(a) == CuraVersions(b) <==> !KnownMajor(a) && !KnownMajor(b)
  {
    CuraVersionsKnownIff(a);
    CuraVersionsKnownIff(b);
  }

  /** The semantic version's leading component parses back to the major, NaN included. */
  lemma SemanticVersionRoundTrip(major: Option<int>)
    ensures MajorOf(SemanticVersion(major)) == major
  {
    NoDotInNumberToString(major);
    assert SemanticVersion(major) == NumberToString(major) + "." + "0.0";
    LeadingComponentOfDotted(NumberToString(major), "0.0");
    ParseIntOfNumberToString(major);
  }

  /** The label can be read back from the file name. */
  lemma FileNameLabel(pluginId: Value, pluginVersion: Value, major: Option<int>)
    ensures var name := ArchiveFileName(pluginId, pluginVersion, major);
            var head := ToJsString(pluginId) + "_v" + ToJsString(pluginVersion) + "_Cura";
            |head| + 12 <= |name| &&
            name[..|head|] == head &&
            name[|head|..|name| - 12] == CuraVersions(major) &&
            name[|name| - 12..] == ".curapackage"
  {
  }

  /**
   * For one plugin id and version, two majors give the same file name
   * exactly when they give the same label.
   */
  lemma {:induction false} FileNamesCollideIff(pluginId: Value, pluginVersion: Value, a: Option<int>, b: Option<int>)
    ensures ArchiveFileName(pluginId, pluginVersion, a) == ArchiveFileName(pluginId, pluginVersion, b)
            <==> CuraVersions(a) == CuraVersions(b)
  {
    FileNameLabel(pluginId, pluginVersion, a);
    FileNameLabel(pluginId, pluginVersion, b);
  }
}

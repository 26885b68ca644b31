/**
 * `MainBuildData`: the settings the build window edits — the scene list,
 * the change-notifying build type, version format, version strings and hash
 * flag, and the output path. A `BuildValue<string>` holds `Option<string>`,
 * `None` standing for a null string.
 */
module MainBuildDatas {
  import opened Wrappers
  import opened BuildTypes
  import opened VersionFormat
  import opened BuildValues

  /** `SetSceneList`'s conversion: each reference becomes a scene with its path and flag. */
  function ToScenes(refs: seq<EditorBuildSettingsSceneReference>): (r: seq<EditorBuildSettingsScene>)
    ensures |r| == |refs|
    ensures forall i :: 0 <= i < |refs| ==> r[i].path == refs[i].Path && r[i].enabled == refs[i].Enabled
  {
    seq(|refs|, i requires 0 <= i < |refs| => EditorBuildSettingsScene(refs[i].Path, refs[i].Enabled))
  }

  /** `GetSceneList`'s conversion: each scene becomes a reference with its path and flag. */
  function ToReferences(scenes: seq<EditorBuildSettingsScene>): (r: seq<EditorBuildSettingsSceneReference>)
    ensures |r| == |scenes|
    ensures forall i :: 0 <= i < |scenes| ==> r[i].Path == scenes[i].path && r[i].Enabled == scenes[i].enabled
  {
    seq(|scenes|, i requires 0 <= i < |scenes| => EditorBuildSettingsSceneReference(scenes[i].path, scenes[i].enabled))
  }

  /** Reading back a stored list gives the stored (path, enabled) pairs. */
  lemma ReferencesRoundTrip(refs: seq<EditorBuildSettingsSceneReference>)
    ensures ToReferences(ToScenes(refs)) == refs
  {
    var r := ToReferences(ToScenes(refs));
    assert forall i :: 0 <= i < |refs| ==> r[i] == refs[i];
  }

  /** Storing a list read back from the scenes gives the same scenes. */
  lemma ScenesRoundTrip(scenes: seq<EditorBuildSettingsScene>)
    ensures ToScenes(ToReferences(scenes)) == scenes
  {
    var r := ToScenes(ToReferences(scenes));
    assert forall i :: 0 <= i < |scenes| ==> r[i] == scenes[i];
  }

  class MainBuildData {
    var Scenes: seq<EditorBuildSettingsScene>
    var SelectedBuildType: BuildValue?<EBuildType>
    var VersionFormat: BuildValue?<EVersionFormatType>
    var Version: BuildValue<Option<string>>
    var VersionTag: BuildValue<Option<string>>
    var VersionMeta: BuildValue<Option<string>>
    var AddHashToVersion: BuildValue?<bool>
    var BuildPath: string

    /** The three version cells are separate objects, as the constructor makes them. */
    predicate Valid()
      reads this
    {
      Version != VersionTag && Version != VersionMeta && VersionTag != VersionMeta
    }

    /** Every cell is new and holds its type's default; no scenes, empty path. */
    constructor()
      ensures Valid()
      ensures Scenes == [] && BuildPath == ""
      ensures SelectedBuildType != null && fresh(SelectedBuildType) && SelectedBuildType.State() == Cell(DefaultBuildType, [])
      ensures VersionFormat != null && fresh(VersionFormat) && VersionFormat.State() == Cell(DefaultFormat, [])
      ensures fresh(Version) && Version.State() == Cell(None, [])
      ensures fresh(VersionTag) && VersionTag.State() == Cell(None, [])
      ensures fresh(VersionMeta) && VersionMeta.State() == Cell(None, [])
      ensures AddHashToVersion != null && fresh(AddHashToVersion) && AddHashToVersion.State() == Cell(false, [])
    {
      Scenes := [];
      SelectedBuildType := new BuildValue(DefaultBuildType);
      VersionFormat := new BuildValue(DefaultFormat);
      Version := new BuildValue(None);
      VersionTag := new BuildValue(None);
      VersionMeta := new BuildValue(None);
      AddHashToVersion := new BuildValue(false);
      BuildPath := "";
    }

    /** `SetSceneList`: replaces the scenes by a copy of `scenes`. */
    method SetSceneList(scenes: seq<EditorBuildSettingsSceneReference>)
      modifies this`Scenes
      ensures Scenes == ToScenes(scenes)
    {
      Scenes := ToScenes(scenes);
    }

    /** `GetSceneList`: a copy of the scenes as references. */
    method GetSceneList() returns (r: seq<EditorBuildSettingsSceneReference>)
      ensures r == ToReferences(Scenes)
    {
      r := ToReferences(Scenes);
    }

    /** `Clear`: drops the build type, format and hash cells, sets the three
        version strings to null through their setters (notifying the ones
        that were not null yet), and empties the path. */
    method Clear()
      requires Valid()
      modifies this`SelectedBuildType, this`VersionFormat, this`AddHashToVersion, this`BuildPath
      modifies Version, VersionTag, VersionMeta
      ensures Valid()
      ensures SelectedBuildType == null && VersionFormat == null && AddHashToVersion == null
      ensures Version.State() == Assign(old(Version.State()), None)
      ensures VersionTag.State() == Assign(old(VersionTag.State()), None)
      ensures VersionMeta.State() == Assign(old(VersionMeta.State()), None)
      ensures BuildPath == ""
    {
      SelectedBuildType := null;
      VersionFormat := null;
      Version.SetValue(None);
      VersionTag.SetValue(None);
      VersionMeta.SetValue(None);
      AddHashToVersion := null;
      BuildPath := "";
    }
  }

  /** After `SetSceneList(xs)`, `GetSceneList()` returns `xs`'s pairs. */
  method SetThenGet(data: MainBuildData, xs: seq<EditorBuildSettingsSceneReference>) returns (r: seq<EditorBuildSettingsSceneReference>)
    modifies data`Scenes
    ensures r == xs
  {
    data.SetSceneList(xs);
    r := data.GetSceneList();
    ReferencesRoundTrip(xs);
  }
}

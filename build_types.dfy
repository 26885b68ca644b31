/** The build channels, the record stored in the version file, and the scene records. */
module BuildTypes {

  /** `EBuildType`: the release channels, each bumping its own component. */
  datatype EBuildType = RELEASE | MILESTONE | DAILY | DEVELOPMENT

  /** `default(EBuildType)`: the member whose value is 0. The enum's
      declaration is not part of this model, so the constant is left open. */
  const DefaultBuildType: EBuildType

  /** `CustomBuildData`: a build type and its version string. */
  datatype CustomBuildData = CustomBuildData(BuildType: EBuildType, Version: string)

  /** Unity's `EditorBuildSettingsScene`: a scene path and whether it is built. */
  datatype EditorBuildSettingsScene = EditorBuildSettingsScene(path: string, enabled: bool)

  /** `EditorBuildSettingsSceneReference`: the same pair as the plugin stores it. */
  datatype EditorBuildSettingsSceneReference = EditorBuildSettingsSceneReference(Path: string, Enabled: bool)
}

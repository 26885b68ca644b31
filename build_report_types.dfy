/**
 * The records of the build-report pipeline: Unity's `BuildReport` with its
 * `packedAssets` (each a list of `PackedAssetInfo` contents), and the
 * serializable forms the plugin stores.
 */
module BuildReportTypes {

  /** C# `ulong`. */
  type ulong = x: int | 0 <= x < 0x1_0000_0000_0000_0000

  /** `PackedAssetInfo`: the fields the core reads. */
  datatype PackedAssetInfo = PackedAssetInfo(sourceAssetPath: string, packedSize: ulong)

  /** `PackedAssets`: one packed file and its contents. */
  datatype PackedAssets = PackedAssets(contents: seq<PackedAssetInfo>)

  /** `BuildReport`: the field the core reads. */
  datatype BuildReport = BuildReport(packedAssets: seq<PackedAssets>)

  /** `SimplePackedAssetInfo`. */
  datatype SimplePackedAssetInfo = SimplePackedAssetInfo(SourceAssetPath: string, PackedSize: ulong)

  /** `SerializablePackedAsset`: parallel path and size lists of one category. */
  datatype SerializablePackedAsset = SerializablePackedAsset(Category: string, AssetPaths: seq<string>, AssetSizes: seq<ulong>)

  /** `SerializableBuildReport`. */
  datatype SerializableBuildReport = SerializableBuildReport(PackedAssets: seq<SerializablePackedAsset>, ReportName: string)

  /** Every content of every packed asset, in the order the nested loops visit them. */
  function Flatten(packedAssets: seq<PackedAssets>): (assets: seq<PackedAssetInfo>)
    decreases |packedAssets|
  {
    if |packedAssets| == 0 then []
    else Flatten(packedAssets[..|packedAssets| - 1]) + packedAssets[|packedAssets| - 1].contents
  }

  lemma FlattenPrefix(packedAssets: seq<PackedAssets>, i: nat)
    requires i < |packedAssets|
    ensures Flatten(packedAssets[..i + 1]) == Flatten(packedAssets[..i]) + packedAssets[i].contents
  {
    assert packedAssets[..i + 1][..i] == packedAssets[..i];
  }

  function AssetPath(a: PackedAssetInfo): string { a.sourceAssetPath }
  function SimpleAssetPath(a: SimplePackedAssetInfo): string { a.SourceAssetPath }

  /** The key of `OrderByDescending(a => a.packedSize)` as an ascending key. */
  function NegatedSize(a: PackedAssetInfo): int { 0 - a.packedSize as int }
  function NegatedSimpleSize(a: SimplePackedAssetInfo): int { 0 - a.PackedSize as int }
}

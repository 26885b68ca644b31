/**
 * `BuildReportConverter.ConvertToSerializable`: every asset of every packed
 * file, grouped by category into parallel path and size lists.
 */
module BuildReportConverter {
  import opened Wrappers
  import opened BuildReportTypes
  import opened CategoryHelper

  /** The category of an asset under `classify`; the converter uses
      `DetermineCategory`, and the lemmas below hold for any classifier. */
  function CategoryOf(a: PackedAssetInfo, classify: string -> string): string {
    classify(a.sourceAssetPath)
  }

  /** `PackedAssets.Find(x => x.Category == category)`, as an index. */
  function FindCategory(packed: seq<SerializablePackedAsset>, category: string): (k: Option<nat>)
    ensures k.Some? ==> k.value < |packed| && packed[k.value].Category == category
    ensures k.Some? ==> forall m :: 0 <= m < k.value ==> packed[m].Category != category
    ensures k.None? ==> forall m :: 0 <= m < |packed| ==> packed[m].Category != category
    decreases |packed|
  {
    if |packed| == 0 then None
    else if packed[0].Category == category then Some(0)
    else match FindCategory(packed[1..], category)
      case None => None
      case Some(k) => Some(k + 1)
  }

  /** One pass of the inner loop body: the asset's path and size are appended to
      the entry of its category, which is created at the end when missing. */
  function AddAsset(packed: seq<SerializablePackedAsset>, asset: PackedAssetInfo, classify: string -> string): seq<SerializablePackedAsset>
  {
    var category := CategoryOf(asset, classify);
    match FindCategory(packed, category)
    case None => packed + [SerializablePackedAsset(category, [asset.sourceAssetPath], [asset.packedSize])]
    case Some(k) =>
      packed[k := packed[k].(AssetPaths := packed[k].AssetPaths + [asset.sourceAssetPath],
                             AssetSizes := packed[k].AssetSizes + [asset.packedSize])]
  }

  /** The entries after visiting `assets` in order. */
  function Grouped(assets: seq<PackedAssetInfo>, classify: string -> string): seq<SerializablePackedAsset>
    decreases |assets|
  {
    if |assets| == 0 then []
    else AddAsset(Grouped(assets[..|assets| - 1], classify), assets[|assets| - 1], classify)
  }

  /** The inner loop body: find the entry of the asset's category, creating it
      at the end when missing, then append the path and the size to it. */
  method AddToCategory(packed: seq<SerializablePackedAsset>, asset: PackedAssetInfo, classify: string -> string)
    returns (updated: seq<SerializablePackedAsset>)
    ensures updated == AddAsset(packed, asset, classify)
  {
    var category := classify(asset.sourceAssetPath);
    assert category == CategoryOf(asset, classify);
    updated := packed;
    var found := FindCategory(updated, category);
    if found.None? {
      updated := updated + [SerializablePackedAsset(category, [], [])];
      found := Some(|updated| - 1);
    }
    var k := found.value;
    updated := updated[k := updated[k].(AssetPaths := updated[k].AssetPaths + [asset.sourceAssetPath],
                                        AssetSizes := updated[k].AssetSizes + [asset.packedSize])];
    if FindCategory(packed, category).None? {
      assert updated[..|packed|] == packed && |updated| == |packed| + 1;
      assert updated[|packed|].AssetPaths == [asset.sourceAssetPath];
      assert updated[|packed|].AssetSizes == [asset.packedSize];
      assert updated == packed + [SerializablePackedAsset(category, [asset.sourceAssetPath], [asset.packedSize])];
    }
  }

  lemma GroupedSnoc(assets: seq<PackedAssetInfo>, asset: PackedAssetInfo, classify: string -> string)
    ensures Grouped(assets + [asset], classify) == AddAsset(Grouped(assets, classify), asset, classify)
  {
    assert (assets + [asset])[..|assets|] == assets;
  }

  /** The nested loops, over the classifier they call. */
  method ConvertWith(report: BuildReport, classify: string -> string) returns (serializableReport: SerializableBuildReport)
    ensures serializableReport == SerializableBuildReport(Grouped(Flatten(report.packedAssets), classify), "")
  {
    var packed: seq<SerializablePackedAsset> := [];
    var i := 0;
    while i < |report.packedAssets|
      invariant 0 <= i <= |report.packedAssets|
      invariant packed == Grouped(Flatten(report.packedAssets[..i]), classify)
    {
      var contents := report.packedAssets[i].contents;
      ghost var visitedBefore := Flatten(report.packedAssets[..i]);
      var j := 0;
      assert visitedBefore + contents[..0] == visitedBefore;
      while j < |contents|
        invariant 0 <= j <= |contents|
        invariant packed == Grouped(visitedBefore + contents[..j], classify)
      {
        packed := AddToCategory(packed, contents[j], classify);
        assert contents[..j + 1] == contents[..j] + [contents[j]];
        assert visitedBefore + contents[..j + 1] == (visitedBefore + contents[..j]) + [contents[j]];
        GroupedSnoc(visitedBefore + contents[..j], contents[j], classify);
        j := j + 1;
      }
      assert contents[..j] == contents;
      FlattenPrefix(report.packedAssets, i);
      i := i + 1;
    }
    assert report.packedAssets[..i] == report.packedAssets;
    serializableReport := SerializableBuildReport(packed, "");
  }

  /** `ConvertToSerializable`: the nested loops with `DetermineCategory` as
      the classifier. */
  method ConvertToSerializable(report: BuildReport) returns (serializableReport: SerializableBuildReport)
    ensures serializableReport == SerializableBuildReport(Grouped(Flatten(report.packedAssets), DetermineCategory), "")
  {
    serializableReport := ConvertWith(report, DetermineCategory);
  }

  // ---- the reference grouping ----

  /** The categories of `assets`, each once, in first-occurrence order. */
  function FirstSeen(assets: seq<PackedAssetInfo>, classify: string -> string): seq<string>
    decreases |assets|
  {
    if |assets| == 0 then []
    else
      var seen := FirstSeen(assets[..|assets| - 1], classify);
      var c := CategoryOf(assets[|assets| - 1], classify);
      if c in seen then seen else seen + [c]
  }

  /** The assets of category `category`, in input order. */
  function InCategory(assets: seq<PackedAssetInfo>, category: string, classify: string -> string): seq<PackedAssetInfo>
    decreases |assets|
  {
    if |assets| == 0 then []
    else
      var rest := InCategory(assets[..|assets| - 1], category, classify);
      if CategoryOf(assets[|assets| - 1], classify) == category then rest + [assets[|assets| - 1]] else rest
  }

  function Paths(assets: seq<PackedAssetInfo>): (paths: seq<string>)
    ensures |paths| == |assets| && forall i :: 0 <= i < |assets| ==> paths[i] == assets[i].sourceAssetPath
  {
    seq(|assets|, i requires 0 <= i < |assets| => assets[i].sourceAssetPath)
  }

  function Sizes(assets: seq<PackedAssetInfo>): (sizes: seq<ulong>)
    ensures |sizes| == |assets| && forall i :: 0 <= i < |assets| ==> sizes[i] == assets[i].packedSize
  {
    seq(|assets|, i requires 0 <= i < |assets| => assets[i].packedSize)
  }

  /** The entry of one category: exactly its assets, in input order. */
  function Group(assets: seq<PackedAssetInfo>, category: string, classify: string -> string): SerializablePackedAsset {
    var members := InCategory(assets, category, classify);
    SerializablePackedAsset(category, Paths(members), Sizes(members))
  }

  /** `packed` holds one entry per category of `assets`, in first-occurrence
      order, each with exactly the assets of that category. */
  predicate GroupsOf(packed: seq<SerializablePackedAsset>, assets: seq<PackedAssetInfo>, classify: string -> string) {
    var seen := FirstSeen(assets, classify);
    |packed| == |seen| && forall i :: 0 <= i < |packed| ==> packed[i] == Group(assets, seen[i], classify)
  }

  lemma {:induction false} FirstSeenDistinct(assets: seq<PackedAssetInfo>, classify: string -> string)
    ensures forall i, j :: 0 <= i < j < |FirstSeen(assets, classify)| ==> FirstSeen(assets, classify)[i] != FirstSeen(assets, classify)[j]
    decreases |assets|
  {
    if |assets| > 0 {
      FirstSeenDistinct(assets[..|assets| - 1], classify);
    }
  }

  /** The category of every asset is seen. */
  lemma {:induction false} FirstSeenHas(assets: seq<PackedAssetInfo>, i: nat, classify: string -> string)
    requires i < |assets|
    ensures CategoryOf(assets[i], classify) in FirstSeen(assets, classify)
    decreases |assets|
  {
    var p := assets[..|assets| - 1];
    if i < |p| {
      FirstSeenHas(p, i, classify);
      assert p[i] == assets[i];
    }
  }

  /** A category with no asset has no members. */
  lemma {:induction false} UnseenIsEmpty(assets: seq<PackedAssetInfo>, category: string, classify: string -> string)
    requires category !in FirstSeen(assets, classify)
    ensures InCategory(assets, category, classify) == []
    decreases |assets|
  {
    if |assets| > 0 {
      var p := assets[..|assets| - 1];
      var c := CategoryOf(assets[|assets| - 1], classify);
      var seen := FirstSeen(p, classify);
      assert category !in seen && category != c;
      UnseenIsEmpty(p, category, classify);
    }
  }

  /** Adding an asset leaves the other categories' members as they were. */
  lemma InCategoryAppend(assets: seq<PackedAssetInfo>, asset: PackedAssetInfo, category: string, classify: string -> string)
    ensures InCategory(assets + [asset], category, classify) ==
      InCategory(assets, category, classify) + (if CategoryOf(asset, classify) == category then [asset] else [])
  {
    assert (assets + [asset])[..|assets|] == assets;
  }

  lemma PathsSizesAppend(members: seq<PackedAssetInfo>, asset: PackedAssetInfo)
    ensures Paths(members + [asset]) == Paths(members) + [asset.sourceAssetPath]
    ensures Sizes(members + [asset]) == Sizes(members) + [asset.packedSize]
  {
  }

  /** An asset of a category already seen is appended to that entry. */
  lemma AddToSeen(packed: seq<SerializablePackedAsset>, assets: seq<PackedAssetInfo>, asset: PackedAssetInfo, k: nat, classify: string -> string)
    requires GroupsOf(packed, assets, classify)
    requires k < |FirstSeen(assets, classify)| && FirstSeen(assets, classify)[k] == CategoryOf(asset, classify)
    ensures GroupsOf(AddAsset(packed, asset, classify), assets + [asset], classify)
  {
    var s := assets + [asset];
    assert s[..|s| - 1] == assets;
    var c := CategoryOf(asset, classify);
    var seen := FirstSeen(assets, classify);
    assert FirstSeen(s, classify) == seen;
    FirstSeenDistinct(assets, classify);
    var found := FindCategory(packed, c);
    assert packed[k].Category == c;
    assert found.Some? && found.value <= k;
    assert packed[found.value].Category == seen[found.value];
    assert found.value == k;
    var r := AddAsset(packed, asset, classify);
    InCategoryAppend(assets, asset, c, classify);
    PathsSizesAppend(InCategory(assets, c, classify), asset);
    forall i | 0 <= i < |r| ensures r[i] == Group(s, seen[i], classify) {
      if i != k {
        assert seen[i] != c;
        InCategoryAppend(assets, asset, seen[i], classify);
      }
    }
  }

  /** An asset of a new category gets a new entry at the end. */
  lemma AddToUnseen(packed: seq<SerializablePackedAsset>, assets: seq<PackedAssetInfo>, asset: PackedAssetInfo, classify: string -> string)
    requires GroupsOf(packed, assets, classify)
    requires CategoryOf(asset, classify) !in FirstSeen(assets, classify)
    ensures GroupsOf(AddAsset(packed, asset, classify), assets + [asset], classify)
  {
    var s := assets + [asset];
    assert s[..|s| - 1] == assets;
    var c := CategoryOf(asset, classify);
    var seen := FirstSeen(assets, classify);
    assert FirstSeen(s, classify) == seen + [c];
    forall m | 0 <= m < |packed| ensures packed[m].Category != c {
      assert packed[m].Category == seen[m];
    }
    assert FindCategory(packed, c).None?;
    var r := AddAsset(packed, asset, classify);
    UnseenIsEmpty(assets, c, classify);
    InCategoryAppend(assets, asset, c, classify);
    assert InCategory(s, c, classify) == [asset];
    assert r[|packed|] == Group(s, c, classify);
    forall i | 0 <= i < |packed| ensures r[i] == Group(s, seen[i], classify) {
      assert seen[i] != c;
      InCategoryAppend(assets, asset, seen[i], classify);
    }
  }

  lemma AddAssetKeepsGroups(packed: seq<SerializablePackedAsset>, assets: seq<PackedAssetInfo>, asset: PackedAssetInfo, classify: string -> string)
    requires GroupsOf(packed, assets, classify)
    ensures GroupsOf(AddAsset(packed, asset, classify), assets + [asset], classify)
  {
    var seen := FirstSeen(assets, classify);
    if CategoryOf(asset, classify) in seen {
      var k :| 0 <= k < |seen| && seen[k] == CategoryOf(asset, classify);
      AddToSeen(packed, assets, asset, k, classify);
    } else {
      AddToUnseen(packed, assets, asset, classify);
    }
  }

  /** The converter's output is the reference grouping. */
  lemma {:induction false} GroupedIsGroups(assets: seq<PackedAssetInfo>, classify: string -> string)
    ensures GroupsOf(Grouped(assets, classify), assets, classify)
    decreases |assets|
  {
    if |assets| > 0 {
      var p := assets[..|assets| - 1];
      GroupedIsGroups(p, classify);
      AddAssetKeepsGroups(Grouped(p, classify), p, assets[|assets| - 1], classify);
      assert p + [assets[|assets| - 1]] == assets;
    }
  }

  // ---- what the grouping promises ----

  /** Each category has at most one entry, and the categories come in
      first-occurrence order. */
  lemma CategoriesUniqueInOrder(assets: seq<PackedAssetInfo>, classify: string -> string)
    ensures |Grouped(assets, classify)| == |FirstSeen(assets, classify)|
    ensures forall i :: 0 <= i < |Grouped(assets, classify)| ==> Grouped(assets, classify)[i].Category == FirstSeen(assets, classify)[i]
    ensures forall i, j :: 0 <= i < j < |Grouped(assets, classify)| ==> Grouped(assets, classify)[i].Category != Grouped(assets, classify)[j].Category
  {
    GroupedIsGroups(assets, classify);
    FirstSeenDistinct(assets, classify);
  }

  lemma {:induction false} InCategoryMembers(assets: seq<PackedAssetInfo>, category: string, classify: string -> string)
    ensures forall a :: a in InCategory(assets, category, classify) ==> a in assets && CategoryOf(a, classify) == category
    ensures forall a :: a in assets && CategoryOf(a, classify) == category ==> a in InCategory(assets, category, classify)
    decreases |assets|
  {
    if |assets| > 0 {
      var p := assets[..|assets| - 1];
      InCategoryMembers(p, category, classify);
      assert assets == p + [assets[|assets| - 1]];
    }
  }

  /** In every entry the path and size lists are parallel, index i pairing a
      path with its size, and every path is of the entry's category. */
  lemma EntriesArePaired(assets: seq<PackedAssetInfo>, i: nat, classify: string -> string)
    requires i < |Grouped(assets, classify)|
    ensures var e := Grouped(assets, classify)[i];
      |e.AssetPaths| == |e.AssetSizes| &&
      forall m :: 0 <= m < |e.AssetPaths| ==>
        PackedAssetInfo(e.AssetPaths[m], e.AssetSizes[m]) in assets &&
        classify(e.AssetPaths[m]) == e.Category
  {
    GroupedIsGroups(assets, classify);
    var c := FirstSeen(assets, classify)[i];
    var members := InCategory(assets, c, classify);
    InCategoryMembers(assets, c, classify);
    forall m | 0 <= m < |members|
      ensures PackedAssetInfo(members[m].sourceAssetPath, members[m].packedSize) in assets
    {
      assert members[m] in members;
    }
  }

  /** Every asset is stored, under its own category. */
  lemma AssetIsStored(assets: seq<PackedAssetInfo>, a: PackedAssetInfo, classify: string -> string)
    requires a in assets
    ensures exists i :: 0 <= i < |Grouped(assets, classify)| && Grouped(assets, classify)[i].Category == CategoryOf(a, classify) &&
                        a.sourceAssetPath in Grouped(assets, classify)[i].AssetPaths
  {
    GroupedIsGroups(assets, classify);
    var n :| 0 <= n < |assets| && assets[n] == a;
    FirstSeenHas(assets, n, classify);
    var seen := FirstSeen(assets, classify);
    var i :| 0 <= i < |seen| && seen[i] == CategoryOf(a, classify);
    InCategoryMembers(assets, CategoryOf(a, classify), classify);
    var members := InCategory(assets, CategoryOf(a, classify), classify);
    var m :| 0 <= m < |members| && members[m] == a;
    assert Grouped(assets, classify)[i].AssetPaths[m] == a.sourceAssetPath;
  }

  function TotalPaths(packed: seq<SerializablePackedAsset>): nat
    decreases |packed|
  {
    if |packed| == 0 then 0 else TotalPaths(packed[..|packed| - 1]) + |packed[|packed| - 1].AssetPaths|
  }

  lemma {:induction false} TotalPathsUpdate(packed: seq<SerializablePackedAsset>, k: nat, e: SerializablePackedAsset)
    requires k < |packed|
    ensures TotalPaths(packed[k := e]) == TotalPaths(packed) - |packed[k].AssetPaths| + |e.AssetPaths|
    decreases |packed|
  {
    var n := |packed| - 1;
    var q := packed[k := e];
    if k < n {
      assert q[..n] == packed[..n][k := e];
      TotalPathsUpdate(packed[..n], k, e);
    } else {
      assert q[..n] == packed[..n];
    }
  }

  /** No deduplication: the entries hold as many paths as there are assets. */
  lemma {:induction false} NothingDropped(assets: seq<PackedAssetInfo>, classify: string -> string)
    ensures TotalPaths(Grouped(assets, classify)) == |assets|
    decreases |assets|
  {
    if |assets| > 0 {
      var p := assets[..|assets| - 1];
      NothingDropped(p, classify);
      var packed := Grouped(p, classify);
      var a := assets[|assets| - 1];
      match FindCategory(packed, CategoryOf(a, classify))
      case None =>
        var r := packed + [SerializablePackedAsset(CategoryOf(a, classify), [a.sourceAssetPath], [a.packedSize])];
        assert r[..|r| - 1] == packed;
      case Some(k) =>
        TotalPathsUpdate(packed, k, packed[k].(AssetPaths := packed[k].AssetPaths + [a.sourceAssetPath],
                                              AssetSizes := packed[k].AssetSizes + [a.packedSize]));
    }
  }

  /** The whole conversion: one entry per category, in first-occurrence order,
      holding exactly that category's assets, and an empty report name. */
  lemma ConversionSpec(report: BuildReport)
    ensures var r := SerializableBuildReport(Grouped(Flatten(report.packedAssets), DetermineCategory), "");
      r.ReportName == "" && GroupsOf(r.PackedAssets, Flatten(report.packedAssets), DetermineCategory) &&
      TotalPaths(r.PackedAssets) == |Flatten(report.packedAssets)|
  {
    GroupedIsGroups(Flatten(report.packedAssets), DetermineCategory);
    NothingDropped(Flatten(report.packedAssets), DetermineCategory);
  }
}

/**
 * `CustomBuildReport`: the per-category view of a build report. Assets are
 * grouped by category, deduplicated by source path (the first one kept) and
 * sorted by packed size, largest first, ties in insertion order. Category
 * sizes are byte sums here (the source keeps megabytes as `float`).
 */
module CustomBuildReports {
  import opened Wrappers
  import opened BuildReportTypes
  import opened CategoryHelper
  import opened StableSort
  import opened Dedup
  import opened BuildReportConverter

  function AssetSize(a: PackedAssetInfo): int { a.packedSize }
  function SimpleAssetSize(a: SimplePackedAssetInfo): int { a.PackedSize }

  // ---- AnalyzeAssets, as a fold over the assets ----

  /** One pass of the inner loop of `AnalyzeAssets`: the asset joins its
      category's list unless an asset with its path is already there. */
  function Collect(m: map<string, seq<PackedAssetInfo>>, asset: PackedAssetInfo, classify: string -> string): map<string, seq<PackedAssetInfo>>
  {
    var category := classify(asset.sourceAssetPath);
    var list := if category in m then m[category] else [];
    if asset.sourceAssetPath in Keys(list, AssetPath) then m[category := list] else m[category := list + [asset]]
  }

  function Collected(assets: seq<PackedAssetInfo>, classify: string -> string): map<string, seq<PackedAssetInfo>>
    decreases |assets|
  {
    if |assets| == 0 then map[]
    else Collect(Collected(assets[..|assets| - 1], classify), assets[|assets| - 1], classify)
  }

  /** The byte sum of every list. */
  function SizesOf(m: map<string, seq<PackedAssetInfo>>): (sizes: map<string, int>)
    ensures sizes.Keys == m.Keys
    ensures forall c :: c in m ==> sizes[c] == SumBy(m[c], AssetSize)
  {
    map c | c in m :: SumBy(m[c], AssetSize)
  }

  /** Every list sorted by `OrderByDescending(a => a.packedSize)`. */
  function SortedBySize(m: map<string, seq<PackedAssetInfo>>): (sorted: map<string, seq<PackedAssetInfo>>)
    ensures sorted.Keys == m.Keys
    ensures forall c :: c in m ==> sorted[c] == SortBy(m[c], NegatedSize)
  {
    map c | c in m :: SortBy(m[c], NegatedSize)
  }

  // ---- AnalyzeSerializedAssets, as a fold over the entries ----

  predicate SizesCover(entries: seq<SerializablePackedAsset>) {
    forall i :: 0 <= i < |entries| ==> |entries[i].AssetSizes| >= |entries[i].AssetPaths|
  }

  /** `new SimplePackedAssetInfo(AssetPaths[i], AssetSizes[i])` for every path index. */
  function Pairs(entry: SerializablePackedAsset): (pairs: seq<SimplePackedAssetInfo>)
    requires |entry.AssetSizes| >= |entry.AssetPaths|
    ensures |pairs| == |entry.AssetPaths|
    ensures forall i :: 0 <= i < |pairs| ==> pairs[i] == SimplePackedAssetInfo(entry.AssetPaths[i], entry.AssetSizes[i])
  {
    seq(|entry.AssetPaths|, i requires 0 <= i < |entry.AssetPaths| => SimplePackedAssetInfo(entry.AssetPaths[i], entry.AssetSizes[i]))
  }

  /** The list one entry leaves under its category. */
  function EntryAssets(entry: SerializablePackedAsset): seq<SimplePackedAssetInfo>
    requires |entry.AssetSizes| >= |entry.AssetPaths|
  {
    SortBy(DedupBy(Pairs(entry), SimpleAssetPath), NegatedSimpleSize)
  }

  function EntrySize(entry: SerializablePackedAsset): int
    requires |entry.AssetSizes| >= |entry.AssetPaths|
  {
    SumBy(DedupBy(Pairs(entry), SimpleAssetPath), SimpleAssetSize)
  }

  /** Each entry resets its category, so a later entry of the same category wins. */
  function Loaded(entries: seq<SerializablePackedAsset>): map<string, seq<SimplePackedAssetInfo>>
    requires SizesCover(entries)
    decreases |entries|
  {
    if |entries| == 0 then map[]
    else
      var last := entries[|entries| - 1];
      Loaded(entries[..|entries| - 1])[last.Category := EntryAssets(last)]
  }

  function LoadedSizes(entries: seq<SerializablePackedAsset>): map<string, int>
    requires SizesCover(entries)
    decreases |entries|
  {
    if |entries| == 0 then map[]
    else
      var last := entries[|entries| - 1];
      LoadedSizes(entries[..|entries| - 1])[last.Category := EntrySize(last)]
  }

  class CustomBuildReport {
    var LastBuildReport: Option<BuildReport>
    var AssetsByCategory: map<string, seq<PackedAssetInfo>>
    var LoadedAssetsByCategory: map<string, seq<SimplePackedAssetInfo>>
    var Foldouts: map<string, bool>
    var CategorySizes: map<string, int>
    var CurrentPage: map<string, int>
    var AssetsPerPage: int

    constructor()
      ensures LastBuildReport == None
      ensures AssetsByCategory == map[] && LoadedAssetsByCategory == map[] && Foldouts == map[]
      ensures CategorySizes == map[] && CurrentPage == map[]
      ensures AssetsPerPage == 100
    {
      LastBuildReport := None;
      AssetsPerPage := 100;
      AssetsByCategory := map[];
      Foldouts := map[];
      CategorySizes := map[];
      CurrentPage := map[];
      LoadedAssetsByCategory := map[];
    }

    /** `AnalyzeAssets` over the last build report, with `DetermineCategory`. */
    method AnalyzeAssets()
      requires LastBuildReport.Some?
      modifies this`AssetsByCategory, this`CategorySizes
      ensures AssetsByCategory == SortedBySize(Collected(Flatten(LastBuildReport.value.packedAssets), DetermineCategory))
      ensures CategorySizes == SizesOf(Collected(Flatten(LastBuildReport.value.packedAssets), DetermineCategory))
    {
      AnalyzeAssetsWith(DetermineCategory);
    }

    /** The body of `AnalyzeAssets`, over the classifier it calls. */
    method AnalyzeAssetsWith(classify: string -> string)
      requires LastBuildReport.Some?
      modifies this`AssetsByCategory, this`CategorySizes
      ensures AssetsByCategory == SortedBySize(Collected(Flatten(LastBuildReport.value.packedAssets), classify))
      ensures CategorySizes == SizesOf(Collected(Flatten(LastBuildReport.value.packedAssets), classify))
    {
      var grouped, sizes := CollectAssets(LastBuildReport.value.packedAssets, classify);
      var sorted := SortLists(grouped);
      AssetsByCategory := sorted;
      CategorySizes := sizes;
    }

    /** `AnalyzeSerializedAssets`: `AssetSizes[i]` is read for every path index,
        so every entry must have at least as many sizes as paths. */
    method AnalyzeSerializedAssets(serializedReport: SerializableBuildReport)
      requires SizesCover(serializedReport.PackedAssets)
      modifies this`LoadedAssetsByCategory, this`CategorySizes
      ensures LoadedAssetsByCategory == Loaded(serializedReport.PackedAssets)
      ensures CategorySizes == LoadedSizes(serializedReport.PackedAssets)
    {
      var loaded, sizes := LoadEntries(serializedReport.PackedAssets);
      LoadedAssetsByCategory := loaded;
      CategorySizes := sizes;
    }

    /** `Clear`: the last report dropped and all five dictionaries emptied. */
    method Clear()
      modifies this
      ensures LastBuildReport == None
      ensures AssetsByCategory == map[] && Foldouts == map[] && CategorySizes == map[]
      ensures CurrentPage == map[] && LoadedAssetsByCategory == map[]
      ensures AssetsPerPage == old(AssetsPerPage)
    {
      LastBuildReport := None;
      AssetsByCategory := map[];
      Foldouts := map[];
      CategorySizes := map[];
      CurrentPage := map[];
      LoadedAssetsByCategory := map[];
    }
  }

  /** The nested loops of `AnalyzeAssets`: every content of every packed
      file collected under its category, with the byte sums beside. */
  method CollectAssets(packedAssets: seq<PackedAssets>, classify: string -> string)
    returns (assetsByCategory: map<string, seq<PackedAssetInfo>>, categorySizes: map<string, int>)
    ensures assetsByCategory == Collected(Flatten(packedAssets), classify)
    ensures categorySizes == SizesOf(assetsByCategory)
  {
    assetsByCategory := map[];
    categorySizes := map[];
    var i := 0;
    while i < |packedAssets|
      invariant 0 <= i <= |packedAssets|
      invariant assetsByCategory == Collected(Flatten(packedAssets[..i]), classify)
      invariant categorySizes == SizesOf(assetsByCategory)
    {
      assetsByCategory, categorySizes := CollectContents(assetsByCategory, categorySizes, packedAssets[i].contents, classify, Flatten(packedAssets[..i]));
      FlattenPrefix(packedAssets, i);
      i := i + 1;
    }
    assert packedAssets[..i] == packedAssets;
  }

  /** The inner loop of `AnalyzeAssets`, over one packed file's contents;
      `visited` is what the outer loop has seen before them. */
  method CollectContents(assetsByCategory: map<string, seq<PackedAssetInfo>>, categorySizes: map<string, int>,
                         contents: seq<PackedAssetInfo>, classify: string -> string, ghost visited: seq<PackedAssetInfo>)
    returns (assetsByCategory': map<string, seq<PackedAssetInfo>>, categorySizes': map<string, int>)
    requires assetsByCategory == Collected(visited, classify)
    requires categorySizes == SizesOf(assetsByCategory)
    ensures assetsByCategory' == Collected(visited + contents, classify)
    ensures categorySizes' == SizesOf(assetsByCategory')
  {
    assetsByCategory', categorySizes' := assetsByCategory, categorySizes;
    assert visited + contents[..0] == visited;
    var j := 0;
    while j < |contents|
      invariant 0 <= j <= |contents|
      invariant assetsByCategory' == Collected(visited + contents[..j], classify)
      invariant categorySizes' == SizesOf(assetsByCategory')
    {
      assetsByCategory', categorySizes' := CollectAsset(assetsByCategory', categorySizes', contents[j], classify);
      CollectedStep(visited, contents, j, classify);
      j := j + 1;
    }
    assert contents[..j] == contents;
  }

  lemma CollectedStep(visited: seq<PackedAssetInfo>, contents: seq<PackedAssetInfo>, j: nat, classify: string -> string)
    requires j < |contents|
    ensures Collected(visited + contents[..j + 1], classify) == Collect(Collected(visited + contents[..j], classify), contents[j], classify)
  {
    assert visited + contents[..j + 1] == (visited + contents[..j]) + [contents[j]];
    CollectedSnoc(visited + contents[..j], contents[j], classify);
  }

  /** The inner loop body of `AnalyzeAssets`: create the category if it is
      new, then add the asset unless its path is already listed. */
  method CollectAsset(assetsByCategory: map<string, seq<PackedAssetInfo>>, categorySizes: map<string, int>,
                      asset: PackedAssetInfo, classify: string -> string)
    returns (assetsByCategory': map<string, seq<PackedAssetInfo>>, categorySizes': map<string, int>)
    requires categorySizes == SizesOf(assetsByCategory)
    ensures assetsByCategory' == Collect(assetsByCategory, asset, classify)
    ensures categorySizes' == SizesOf(assetsByCategory')
  {
    var category := classify(asset.sourceAssetPath);
    var m, sizes := assetsByCategory, categorySizes;
    if category !in m {
      m, sizes := m[category := []], sizes[category := 0];
    }
    var list := m[category];
    CollectCases(assetsByCategory, asset, classify);
    if asset.sourceAssetPath !in Keys(list, AssetPath) {
      assetsByCategory', categorySizes' := m[category := list + [asset]], sizes[category := sizes[category] + asset.packedSize];
    } else {
      assetsByCategory', categorySizes' := m, sizes;
    }
    CollectSizes(assetsByCategory, categorySizes, asset, classify);
  }

  /** `Collect` case by case: the category's list, created empty when
      missing, gains the asset exactly when its path is not in it. */
  lemma CollectCases(m: map<string, seq<PackedAssetInfo>>, asset: PackedAssetInfo, classify: string -> string)
    ensures var c := classify(asset.sourceAssetPath);
      var m1 := if c in m then m else m[c := []];
      Collect(m, asset, classify) == if asset.sourceAssetPath in Keys(m1[c], AssetPath) then m1 else m1[c := m1[c] + [asset]]
  {
    var c := classify(asset.sourceAssetPath);
    if c in m {
      assert m[c := m[c]] == m;
    }
  }

  /** The sizes kept beside `Collect`: the category's sum, created as 0 when
      missing, grows by the asset's size exactly when the asset joins. */
  lemma CollectSizes(m: map<string, seq<PackedAssetInfo>>, sizes: map<string, int>, asset: PackedAssetInfo, classify: string -> string)
    requires sizes == SizesOf(m)
    ensures var c := classify(asset.sourceAssetPath);
      var m1 := if c in m then m else m[c := []];
      var s1 := if c in sizes then sizes else sizes[c := 0];
      SizesOf(m1) == s1 &&
      SizesOf(Collect(m, asset, classify)) ==
        if asset.sourceAssetPath in Keys(m1[c], AssetPath) then s1 else s1[c := s1[c] + asset.packedSize]
  {
    var c := classify(asset.sourceAssetPath);
    var m1 := if c in m then m else m[c := []];
    if c !in m {
      SizesUpdate(m, c, []);
    }
    CollectCases(m, asset, classify);
    SumSnoc(m1[c], asset, AssetSize);
    SizesUpdate(m1, c, m1[c] + [asset]);
  }

  /** The final loop of `AnalyzeAssets`: every list replaced by its sorted copy. */
  method SortLists(assetsByCategory: map<string, seq<PackedAssetInfo>>) returns (sorted: map<string, seq<PackedAssetInfo>>)
    ensures sorted == SortedBySize(assetsByCategory)
  {
    sorted := assetsByCategory;
    var keys := assetsByCategory.Keys;
    while keys != {}
      invariant keys <= assetsByCategory.Keys && sorted.Keys == assetsByCategory.Keys
      invariant forall c :: c in keys ==> sorted[c] == assetsByCategory[c]
      invariant forall c :: c in assetsByCategory && c !in keys ==> sorted[c] == SortBy(assetsByCategory[c], NegatedSize)
      decreases keys
    {
      var category :| category in keys;
      sorted := sorted[category := SortBy(sorted[category], NegatedSize)];
      keys := keys - {category};
    }
  }

  /** The loop of `AnalyzeSerializedAssets` over the stored entries. */
  method LoadEntries(entries: seq<SerializablePackedAsset>)
    returns (loaded: map<string, seq<SimplePackedAssetInfo>>, categorySizes: map<string, int>)
    requires SizesCover(entries)
    ensures loaded == Loaded(entries) && categorySizes == LoadedSizes(entries)
  {
    loaded := map[];
    categorySizes := map[];
    var n := 0;
    while n < |entries|
      invariant 0 <= n <= |entries|
      invariant SizesCover(entries[..n])
      invariant loaded == Loaded(entries[..n]) && categorySizes == LoadedSizes(entries[..n])
    {
      var packedAsset := entries[n];
      var list, size := EntryList(packedAsset);
      LoadedSnoc(entries, n);
      loaded := loaded[packedAsset.Category := SortBy(list, NegatedSimpleSize)];
      categorySizes := categorySizes[packedAsset.Category := size];
      n := n + 1;
    }
    assert entries[..n] == entries;
  }

  lemma LoadedSnoc(entries: seq<SerializablePackedAsset>, n: nat)
    requires SizesCover(entries) && n < |entries|
    ensures SizesCover(entries[..n]) && SizesCover(entries[..n + 1])
    ensures Loaded(entries[..n + 1]) == Loaded(entries[..n])[entries[n].Category := EntryAssets(entries[n])]
    ensures LoadedSizes(entries[..n + 1]) == LoadedSizes(entries[..n])[entries[n].Category := EntrySize(entries[n])]
  {
    assert entries[..n + 1][..n] == entries[..n];
  }

  /** The inner loop of `AnalyzeSerializedAssets`: one entry's (path, size)
      pairs with repeated paths dropped, and their byte sum. */
  method EntryList(packedAsset: SerializablePackedAsset) returns (list: seq<SimplePackedAssetInfo>, size: int)
    requires |packedAsset.AssetSizes| >= |packedAsset.AssetPaths|
    ensures list == DedupBy(Pairs(packedAsset), SimpleAssetPath)
    ensures size == SumBy(list, SimpleAssetSize)
  {
    list := [];
    size := 0;
    var i := 0;
    while i < |packedAsset.AssetPaths|
      invariant 0 <= i <= |packedAsset.AssetPaths|
      invariant list == DedupBy(Pairs(packedAsset)[..i], SimpleAssetPath)
      invariant size == SumBy(list, SimpleAssetSize)
    {
      var assetPath := packedAsset.AssetPaths[i];
      var assetSize := packedAsset.AssetSizes[i];
      var asset := SimplePackedAssetInfo(assetPath, assetSize);
      assert Pairs(packedAsset)[..i + 1] == Pairs(packedAsset)[..i] + [asset];
      DedupSnoc(Pairs(packedAsset)[..i], asset, SimpleAssetPath);
      if assetPath !in Keys(list, SimpleAssetPath) {
        SumSnoc(list, asset, SimpleAssetSize);
        list := list + [asset];
        size := size + assetSize;
      }
      i := i + 1;
    }
    assert Pairs(packedAsset)[..i] == Pairs(packedAsset);
  }

  lemma CollectedSnoc(assets: seq<PackedAssetInfo>, asset: PackedAssetInfo, classify: string -> string)
    ensures Collected(assets + [asset], classify) == Collect(Collected(assets, classify), asset, classify)
  {
    assert (assets + [asset])[..|assets|] == assets;
  }

  lemma SizesUpdate(m: map<string, seq<PackedAssetInfo>>, c: string, list: seq<PackedAssetInfo>)
    ensures SizesOf(m[c := list]) == SizesOf(m)[c := SumBy(list, AssetSize)]
  {
  }

  // ---- what AnalyzeAssets promises ----

  /** The reference view: the categories are those of the assets, and each
      list is the category's assets with repeated paths dropped (first kept). */
  lemma {:induction false} CollectedIsDedupedCategory(assets: seq<PackedAssetInfo>, classify: string -> string, c: string)
    ensures c in Collected(assets, classify) <==> c in FirstSeen(assets, classify)
    ensures c in Collected(assets, classify) ==>
      Collected(assets, classify)[c] == DedupBy(InCategory(assets, c, classify), AssetPath)
    decreases |assets|
  {
    if |assets| > 0 {
      var p := assets[..|assets| - 1];
      var a := assets[|assets| - 1];
      CollectedIsDedupedCategory(p, classify, c);
      if CategoryOf(a, classify) == c {
        if c !in Collected(p, classify) {
          UnseenIsEmpty(p, c, classify);
        }
        DedupSnoc(InCategory(p, c, classify), a, AssetPath);
      }
    }
  }

  /** After `AnalyzeAssets`, each category's list holds only assets of that
      category, no two with the same path, and every path of the category. */
  lemma AnalyzedListMembers(assets: seq<PackedAssetInfo>, classify: string -> string, c: string)
    requires c in Collected(assets, classify)
    ensures var list := SortedBySize(Collected(assets, classify))[c];
      && (forall a :: a in list ==> a in assets && classify(a.sourceAssetPath) == c)
      && DistinctKeys(list, AssetPath)
      && (forall a :: a in assets && classify(a.sourceAssetPath) == c ==> a.sourceAssetPath in Keys(list, AssetPath))
  {
    CollectedIsDedupedCategory(assets, classify, c);
    var members := InCategory(assets, c, classify);
    InCategoryMembers(assets, c, classify);
    SortedDedupDistinct(members, AssetPath, NegatedSize);
    SortedDedupFrom(members, AssetPath, NegatedSize);
    forall a | a in assets && classify(a.sourceAssetPath) == c
      ensures a.sourceAssetPath in Keys(SortBy(DedupBy(members, AssetPath), NegatedSize), AssetPath)
    {
      var n :| 0 <= n < |members| && members[n] == a;
      SortedDedupCovers(members, AssetPath, NegatedSize, n);
    }
  }

  /** After `AnalyzeAssets`, sizes are non-increasing along each list, and
      assets of equal size keep the order in which they were first met. */
  lemma AnalyzedListOrder(assets: seq<PackedAssetInfo>, classify: string -> string, c: string)
    requires c in Collected(assets, classify)
    ensures var list := SortedBySize(Collected(assets, classify))[c];
      && (forall i, j :: 0 <= i < j < |list| ==> list[i].packedSize >= list[j].packedSize)
      && (forall k :: WithKey(list, NegatedSize, k) == WithKey(DedupBy(InCategory(assets, c, classify), AssetPath), NegatedSize, k))
  {
    CollectedIsDedupedCategory(assets, classify, c);
    SizesNonIncreasing(SortedBySize(Collected(assets, classify))[c]);
  }

  lemma SizesNonIncreasing(list: seq<PackedAssetInfo>)
    requires SortedBy(list, NegatedSize)
    ensures forall i, j :: 0 <= i < j < |list| ==> list[i].packedSize >= list[j].packedSize
  {
    forall i, j | 0 <= i < j < |list| ensures list[i].packedSize >= list[j].packedSize {
      assert NegatedSize(list[i]) <= NegatedSize(list[j]);
    }
  }

  lemma SimpleSizesNonIncreasing(list: seq<SimplePackedAssetInfo>)
    requires SortedBy(list, NegatedSimpleSize)
    ensures forall i, j :: 0 <= i < j < |list| ==> list[i].PackedSize >= list[j].PackedSize
  {
    forall i, j | 0 <= i < j < |list| ensures list[i].PackedSize >= list[j].PackedSize {
      assert NegatedSimpleSize(list[i]) <= NegatedSimpleSize(list[j]);
    }
  }

  /** Sorting a deduplicated list keeps its paths distinct. */
  lemma SortedDedupDistinct<T>(s: seq<T>, path: T -> string, key: T -> int)
    ensures DistinctKeys(SortBy(DedupBy(s, path), key), path)
  {
    DedupDistinct(s, path);
    PermutationKeepsDistinct(DedupBy(s, path), SortBy(DedupBy(s, path), key), path);
  }

  /** Everything in the sorted deduplicated list comes from the input. */
  lemma SortedDedupFrom<T>(s: seq<T>, path: T -> string, key: T -> int)
    ensures forall x :: x in SortBy(DedupBy(s, path), key) ==> x in s
  {
    DedupElements(s, path);
    forall x | x in SortBy(DedupBy(s, path), key) ensures x in s {
      assert x in multiset(SortBy(DedupBy(s, path), key));
    }
  }

  /** Every path of the input is in the sorted deduplicated list. */
  lemma SortedDedupCovers<T>(s: seq<T>, path: T -> string, key: T -> int, i: nat)
    requires i < |s|
    ensures path(s[i]) in Keys(SortBy(DedupBy(s, path), key), path)
  {
    var kept := DedupBy(s, path);
    var list := SortBy(kept, key);
    assert Keys(s, path)[i] == path(s[i]);
    DedupKeys(s, path, path(s[i]));
    var m :| 0 <= m < |kept| && Keys(kept, path)[m] == path(s[i]);
    assert kept[m] in multiset(list);
    var q :| 0 <= q < |list| && list[q] == kept[m];
    assert Keys(list, path)[q] == path(s[i]);
  }

  /** The kept elements are elements of the input. */
  lemma DedupElements<T>(s: seq<T>, key: T -> string)
    ensures forall x :: x in DedupBy(s, key) ==> x in s
  {
    forall x | x in DedupBy(s, key) ensures x in s {
      var i :| 0 <= i < |DedupBy(s, key)| && DedupBy(s, key)[i] == x;
      var m := DedupKeepsFirst(s, key, i);
    }
  }

  // ---- what AnalyzeSerializedAssets promises ----

  /** The categories loaded are exactly those of the entries. */
  function CategoriesOf(entries: seq<SerializablePackedAsset>): set<string> {
    set i | 0 <= i < |entries| :: entries[i].Category
  }

  lemma PrefixCovered(entries: seq<SerializablePackedAsset>)
    requires SizesCover(entries) && |entries| > 0
    ensures SizesCover(entries[..|entries| - 1])
  {
    var p := entries[..|entries| - 1];
    forall i | 0 <= i < |p| ensures |p[i].AssetSizes| >= |p[i].AssetPaths| {
      assert p[i] == entries[i];
    }
  }

  lemma CategoriesSnoc(entries: seq<SerializablePackedAsset>)
    requires |entries| > 0
    ensures CategoriesOf(entries) == CategoriesOf(entries[..|entries| - 1]) + {entries[|entries| - 1].Category}
  {
    var p := entries[..|entries| - 1];
    forall c | c in CategoriesOf(entries) ensures c in CategoriesOf(p) + {entries[|entries| - 1].Category} {
      var i :| 0 <= i < |entries| && entries[i].Category == c;
      if i < |p| {
        assert p[i] == entries[i];
      }
    }
    forall c | c in CategoriesOf(p) ensures c in CategoriesOf(entries) {
      var i :| 0 <= i < |p| && p[i].Category == c;
      assert entries[i] == p[i];
    }
  }

  /** The categories loaded are exactly those of the entries. */
  lemma {:induction false} LoadedKeys(entries: seq<SerializablePackedAsset>)
    requires SizesCover(entries)
    ensures Loaded(entries).Keys == CategoriesOf(entries)
    ensures LoadedSizes(entries).Keys == CategoriesOf(entries)
    decreases |entries|
  {
    if |entries| > 0 {
      PrefixCovered(entries);
      LoadedKeys(entries[..|entries| - 1]);
      CategoriesSnoc(entries);
    }
  }

  /** A category repeated in the input keeps only the last entry's assets. */
  lemma {:induction false} LastEntryWins(entries: seq<SerializablePackedAsset>, j: nat)
    requires SizesCover(entries) && j < |entries|
    requires forall m :: j < m < |entries| ==> entries[m].Category != entries[j].Category
    ensures entries[j].Category in Loaded(entries) && entries[j].Category in LoadedSizes(entries)
    ensures Loaded(entries)[entries[j].Category] == EntryAssets(entries[j])
    ensures LoadedSizes(entries)[entries[j].Category] == EntrySize(entries[j])
    decreases |entries|
  {
    var p := entries[..|entries| - 1];
    PrefixCovered(entries);
    if j < |p| {
      assert p[j] == entries[j];
      forall m | j < m < |p| ensures p[m].Category != p[j].Category {
        assert p[m] == entries[m];
      }
      LastEntryWins(p, j);
    }
  }

  /** Each loaded list has distinct paths, every path of its entry, only the
      entry's (path, size) pairs, and sizes non-increasing. */
  lemma EntryAssetsSpec(entry: SerializablePackedAsset)
    requires |entry.AssetSizes| >= |entry.AssetPaths|
    ensures var list := EntryAssets(entry);
      && DistinctKeys(list, SimpleAssetPath)
      && (forall i :: 0 <= i < |entry.AssetPaths| ==> entry.AssetPaths[i] in Keys(list, SimpleAssetPath))
      && (forall a :: a in list ==> a in Pairs(entry))
      && (forall i, j :: 0 <= i < j < |list| ==> list[i].PackedSize >= list[j].PackedSize)
  {
    var pairs := Pairs(entry);
    SortedDedupDistinct(pairs, SimpleAssetPath, NegatedSimpleSize);
    SortedDedupFrom(pairs, SimpleAssetPath, NegatedSimpleSize);
    forall i | 0 <= i < |entry.AssetPaths| ensures entry.AssetPaths[i] in Keys(EntryAssets(entry), SimpleAssetPath) {
      SortedDedupCovers(pairs, SimpleAssetPath, NegatedSimpleSize, i);
    }
    SimpleSizesNonIncreasing(EntryAssets(entry));
  }
}

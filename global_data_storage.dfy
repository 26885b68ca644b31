/**
 * `GlobalDataStorage`: the persisted registry of per-build-type data.
 * `typeVersion` holds one version record per build type; `pluginsData` holds
 * one storage per plugin type, found by resolving the storage's type name,
 * and each storage holds one entry per build type.
 *
 * The storages and entries are reference objects in the editor; here they
 * are values, and an update in place is an update of the list at the
 * position where the object sits.
 */
module GlobalDataStorages {
  import opened Wrappers
  import opened BuildTypes

  /** A runtime `Type`. */
  type PluginType(==)

  /** The persisted `object` held for a plugin. */
  type Data

  /** The record `customBuildData.typeVersion` holds. */
  datatype BuildTypeVersion = BuildTypeVersion(BuildType: EBuildType, Version: string)

  /** `BuildPluginData`: one build type's data; `None` is a null reference. */
  datatype BuildPluginData = BuildPluginData(BuildType: EBuildType, BuildTypeData: Option<Data>)

  /** `BuildPluginDataStorage`: a plugin's type name, its per-build-type
      entries and its shared data. */
  datatype BuildPluginDataStorage = BuildPluginDataStorage(
    PluginTypeName: string, PluginData: seq<BuildPluginData>, SharedBuildTypePluginData: Option<Data>)

  /** `List.Find`'s position: the first index holding `k`. */
  function IndexOf<K(==)>(ks: seq<K>, k: K): (r: Option<nat>)
    ensures r.None? <==> k !in ks
    ensures r.Some? ==> r.value < |ks| && ks[r.value] == k && forall j :: 0 <= j < r.value ==> ks[j] != k
    decreases |ks|
  {
    if |ks| == 0 then None
    else if ks[0] == k then Some(0)
    else match IndexOf(ks[1..], k)
      case None => None
      case Some(i) => Some(i + 1)
  }

  lemma {:induction false} IndexOfSnoc<K>(ks: seq<K>, x: K, k: K)
    ensures IndexOf(ks + [x], k) == if k in ks then IndexOf(ks, k) else if x == k then Some(|ks|) else None
  {
    var r := IndexOf(ks + [x], k);
    if k in ks {
      var i := IndexOf(ks, k).value;
      assert (ks + [x])[i] == k;
      assert forall j :: 0 <= j < i ==> (ks + [x])[j] == ks[j];
    } else if x == k {
      assert (ks + [x])[|ks|] == k;
      assert forall j :: 0 <= j < |ks| ==> (ks + [x])[j] == ks[j];
    }
  }

  /** `StringToType`: a null or empty name resolves to nothing; otherwise
      `lookup` stands for the search of the loaded assemblies. */
  function StringToType(lookup: string -> Option<PluginType>, typeString: string): Option<PluginType> {
    if typeString == "" then None else lookup(typeString)
  }

  /** Each storage's resolved type, in list order. */
  function Resolved(storages: seq<BuildPluginDataStorage>, lookup: string -> Option<PluginType>): (ts: seq<Option<PluginType>>)
    ensures |ts| == |storages|
    ensures forall i :: 0 <= i < |storages| ==> ts[i] == StringToType(lookup, storages[i].PluginTypeName)
  {
    seq(|storages|, i requires 0 <= i < |storages| => StringToType(lookup, storages[i].PluginTypeName))
  }

  function EntryTypes(entries: seq<BuildPluginData>): (ts: seq<EBuildType>)
    ensures |ts| == |entries| && forall i :: 0 <= i < |entries| ==> ts[i] == entries[i].BuildType
  {
    seq(|entries|, i requires 0 <= i < |entries| => entries[i].BuildType)
  }

  function VersionTypes(tv: seq<BuildTypeVersion>): (ts: seq<EBuildType>)
    ensures |ts| == |tv| && forall i :: 0 <= i < |tv| ==> ts[i] == tv[i].BuildType
  {
    seq(|tv|, i requires 0 <= i < |tv| => tv[i].BuildType)
  }

  /** The first storage whose type name resolves to `p`. */
  function StorageOf(storages: seq<BuildPluginDataStorage>, lookup: string -> Option<PluginType>, p: PluginType): (r: Option<BuildPluginDataStorage>)
    ensures r.None? <==> forall i :: 0 <= i < |storages| ==> StringToType(lookup, storages[i].PluginTypeName) != Some(p)
    ensures r.Some? ==>
      exists i :: 0 <= i < |storages| && storages[i] == r.value &&
        StringToType(lookup, storages[i].PluginTypeName) == Some(p) &&
        forall j :: 0 <= j < i ==> StringToType(lookup, storages[j].PluginTypeName) != Some(p)
  {
    var ts := Resolved(storages, lookup);
    match IndexOf(ts, Some(p))
    case None => None
    case Some(i) => Some(storages[i])
  }

  /** The first entry for build type `b`. */
  function EntryOf(entries: seq<BuildPluginData>, b: EBuildType): (r: Option<BuildPluginData>)
    ensures r.None? <==> forall i :: 0 <= i < |entries| ==> entries[i].BuildType != b
    ensures r.Some? ==> r.value.BuildType == b
    ensures r.Some? ==>
      exists i :: 0 <= i < |entries| && entries[i] == r.value &&
        forall j :: 0 <= j < i ==> entries[j].BuildType != b
  {
    match IndexOf(EntryTypes(entries), b)
    case None => None
    case Some(i) => Some(entries[i])
  }

  /** `TryGetMainData`'s `data`: the first record for build type `b`. */
  function MainData(tv: seq<BuildTypeVersion>, b: EBuildType): (r: Option<BuildTypeVersion>)
    ensures r.None? <==> forall i :: 0 <= i < |tv| ==> tv[i].BuildType != b
    ensures r.Some? ==> r.value.BuildType == b
    ensures r.Some? ==>
      exists i :: 0 <= i < |tv| && tv[i] == r.value &&
        forall j :: 0 <= j < i ==> tv[j].BuildType != b
  {
    match IndexOf(VersionTypes(tv), b)
    case None => None
    case Some(i) => Some(tv[i])
  }

  /** `TryGetPluginData`'s `data`: the data of `p`'s entry for `b`, and
      nothing when there is no storage for `p` or no entry for `b` in it. */
  function PluginDataOf(storages: seq<BuildPluginDataStorage>, lookup: string -> Option<PluginType>, p: PluginType, b: EBuildType): (r: Option<Data>)
    ensures StorageOf(storages, lookup, p).None? ==> r.None?
    ensures StorageOf(storages, lookup, p).Some? && EntryOf(StorageOf(storages, lookup, p).value.PluginData, b).None? ==> r.None?
  {
    match StorageOf(storages, lookup, p)
    case None => None
    case Some(st) =>
      match EntryOf(st.PluginData, b)
      case None => None
      case Some(e) => e.BuildTypeData
  }

  /** `RegisterOrUpdateMainData` as written: appends when no record has
      the build type, and otherwise leaves the list as it was. */
  function RegisteredMain(tv: seq<BuildTypeVersion>, b: EBuildType, data: BuildTypeVersion): seq<BuildTypeVersion> {
    if MainData(tv, b).None? then tv + [data] else tv
  }

  /** `RegisterOrUpdateStorage` as written: appends when no storage resolves
      to the type, and otherwise leaves the list as it was. */
  function RegisteredStorage(storages: seq<BuildPluginDataStorage>, lookup: string -> Option<PluginType>, p: PluginType, storage: BuildPluginDataStorage): seq<BuildPluginDataStorage> {
    if StorageOf(storages, lookup, p).None? then storages + [storage] else storages
  }

  /** A storage's entries after setting `b`'s data: the first entry for `b`
      is overwritten, or one entry is appended. */
  function WithEntry(entries: seq<BuildPluginData>, b: EBuildType, d: Option<Data>): seq<BuildPluginData> {
    match IndexOf(EntryTypes(entries), b)
    case None => entries + [BuildPluginData(b, d)]
    case Some(j) => entries[j := entries[j].(BuildTypeData := d)]
  }

  /** The storage `RegisterOrUpdatePluginData` creates for `p`. */
  function NewStorage(name: PluginType -> string, p: PluginType): BuildPluginDataStorage {
    BuildPluginDataStorage(name(p), [], None)
  }

  /** The storages after `RegisterOrUpdatePluginData(p, b, d)`: a storage for
      `p` is registered when none resolves to it, then its entry for `b` is set. */
  function RegisteredPlugin(storages: seq<BuildPluginDataStorage>, lookup: string -> Option<PluginType>, name: PluginType -> string,
                            p: PluginType, b: EBuildType, d: Option<Data>): seq<BuildPluginDataStorage>
  {
    var i := IndexOf(Resolved(storages, lookup), Some(p));
    var created := if i.None? then RegisteredStorage(storages, lookup, p, NewStorage(name, p)) else storages;
    var k := if i.None? then |storages| else i.value;
    created[k := created[k].(PluginData := WithEntry(created[k].PluginData, b, d))]
  }

  /** The name given to a new storage resolves back to its type. */
  predicate ResolvesBack(lookup: string -> Option<PluginType>, name: PluginType -> string, p: PluginType) {
    StringToType(lookup, name(p)) == Some(p)
  }

  /** No two storages resolve to the same type. */
  predicate UniqueStorages(storages: seq<BuildPluginDataStorage>, lookup: string -> Option<PluginType>) {
    var ts := Resolved(storages, lookup);
    forall i, j :: 0 <= i < j < |ts| && ts[i].Some? ==> ts[i] != ts[j]
  }

  /** No storage holds two entries for one build type. */
  predicate UniqueEntries(storages: seq<BuildPluginDataStorage>) {
    forall k :: 0 <= k < |storages| ==> var ts := EntryTypes(storages[k].PluginData);
      forall i, j :: 0 <= i < j < |ts| ==> ts[i] != ts[j]
  }

  /** Setting `b`'s entry: reading `b` gives `d`, other build types read as before. */
  lemma WithEntryLookup(entries: seq<BuildPluginData>, b: EBuildType, d: Option<Data>, b': EBuildType)
    ensures EntryOf(WithEntry(entries, b, d), b) == Some(BuildPluginData(b, d))
    ensures b' != b ==> EntryOf(WithEntry(entries, b, d), b') == EntryOf(entries, b')
  {
    var r := WithEntry(entries, b, d);
    match IndexOf(EntryTypes(entries), b)
    case None =>
      assert EntryTypes(r) == EntryTypes(entries) + [b];
      IndexOfSnoc(EntryTypes(entries), b, b);
      IndexOfSnoc(EntryTypes(entries), b, b');
    case Some(j) =>
      assert EntryTypes(r) == EntryTypes(entries);
  }

  /** Setting an entry keeps a storage's build types distinct. */
  lemma WithEntryUnique(entries: seq<BuildPluginData>, b: EBuildType, d: Option<Data>)
    requires var ts := EntryTypes(entries); forall i, j :: 0 <= i < j < |ts| ==> ts[i] != ts[j]
    ensures var ts := EntryTypes(WithEntry(entries, b, d)); forall i, j :: 0 <= i < j < |ts| ==> ts[i] != ts[j]
  {
    var old_ts := EntryTypes(entries);
    match IndexOf(old_ts, b)
    case None =>
      assert EntryTypes(WithEntry(entries, b, d)) == old_ts + [b];
    case Some(j) =>
      assert EntryTypes(WithEntry(entries, b, d)) == old_ts;
  }

  /** The shape of a registration: the storage for `p` gets `b`'s entry set,
      a new storage is appended only when none resolved to `p`, and every
      other storage is untouched. */
  lemma RegisteredPluginShape(storages: seq<BuildPluginDataStorage>, lookup: string -> Option<PluginType>, name: PluginType -> string,
                              p: PluginType, b: EBuildType, d: Option<Data>)
    ensures var r := RegisteredPlugin(storages, lookup, name, p, b, d);
      var none := StorageOf(storages, lookup, p).None?;
      |r| == |storages| + (if none then 1 else 0) &&
      (none ==> r[|storages|] == BuildPluginDataStorage(name(p), [BuildPluginData(b, d)], None)) &&
      (forall k :: 0 <= k < |storages| && StringToType(lookup, storages[k].PluginTypeName) != Some(p) ==> r[k] == storages[k]) &&
      (forall k :: 0 <= k < |storages| ==> r[k].PluginTypeName == storages[k].PluginTypeName)
  {
    var r := RegisteredPlugin(storages, lookup, name, p, b, d);
    var i := IndexOf(Resolved(storages, lookup), Some(p));
    if i.None? {
      assert WithEntry([], b, d) == [BuildPluginData(b, d)];
    } else {
      forall k | 0 <= k < |storages| && StringToType(lookup, storages[k].PluginTypeName) != Some(p)
        ensures r[k] == storages[k]
      {
        assert Resolved(storages, lookup)[k] != Some(p);
      }
    }
  }

  /** The resolved types after a registration: those before, and `p` at the
      end when a storage was created. */
  lemma RegisteredPluginResolved(storages: seq<BuildPluginDataStorage>, lookup: string -> Option<PluginType>, name: PluginType -> string,
                                 p: PluginType, b: EBuildType, d: Option<Data>)
    ensures var r := RegisteredPlugin(storages, lookup, name, p, b, d);
      Resolved(r, lookup) == Resolved(storages, lookup) +
        if StorageOf(storages, lookup, p).None? then [StringToType(lookup, name(p))] else []
  {
    RegisteredPluginShape(storages, lookup, name, p, b, d);
  }

  /** After `RegisterOrUpdatePluginData(p, b, d)`, `TryGetPluginData(p, b)`
      yields `d`, so it answers true exactly when `d` is not null. A storage
      created for `p` is found again only if its name resolves to `p`. */
  lemma RegisterThenGet(storages: seq<BuildPluginDataStorage>, lookup: string -> Option<PluginType>, name: PluginType -> string,
                        p: PluginType, b: EBuildType, d: Option<Data>)
    requires StorageOf(storages, lookup, p).Some? || ResolvesBack(lookup, name, p)
    ensures PluginDataOf(RegisteredPlugin(storages, lookup, name, p, b, d), lookup, p, b) == d
  {
    var r := RegisteredPlugin(storages, lookup, name, p, b, d);
    var ts := Resolved(storages, lookup);
    RegisteredPluginResolved(storages, lookup, name, p, b, d);
    var i := IndexOf(ts, Some(p));
    if i.None? {
      IndexOfSnoc(ts, Some(p), Some(p));
      assert IndexOf(Resolved(r, lookup), Some(p)) == Some(|storages|);
      WithEntryLookup([], b, d, b);
    } else {
      assert Resolved(r, lookup) == ts;
      WithEntryLookup(storages[i.value].PluginData, b, d, b);
    }
  }

  /** Registering for `(p, b)` leaves every other (type, build type) pair
      reading as before. */
  lemma RegisterKeepsOthers(storages: seq<BuildPluginDataStorage>, lookup: string -> Option<PluginType>, name: PluginType -> string,
                            p: PluginType, b: EBuildType, d: Option<Data>, q: PluginType, b': EBuildType)
    requires StorageOf(storages, lookup, p).Some? || ResolvesBack(lookup, name, p)
    requires q != p || b' != b
    ensures PluginDataOf(RegisteredPlugin(storages, lookup, name, p, b, d), lookup, q, b') == PluginDataOf(storages, lookup, q, b')
  {
    if StorageOf(storages, lookup, p).None? {
      KeepsOthersCreated(storages, lookup, name, p, b, d, q, b');
    } else {
      KeepsOthersExisting(storages, lookup, name, p, b, d, q, b');
    }
  }

  lemma KeepsOthersCreated(storages: seq<BuildPluginDataStorage>, lookup: string -> Option<PluginType>, name: PluginType -> string,
                           p: PluginType, b: EBuildType, d: Option<Data>, q: PluginType, b': EBuildType)
    requires StorageOf(storages, lookup, p).None? && ResolvesBack(lookup, name, p)
    requires q != p || b' != b
    ensures PluginDataOf(RegisteredPlugin(storages, lookup, name, p, b, d), lookup, q, b') == PluginDataOf(storages, lookup, q, b')
  {
    var r := RegisteredPlugin(storages, lookup, name, p, b, d);
    var ts := Resolved(storages, lookup);
    RegisteredPluginResolved(storages, lookup, name, p, b, d);
    RegisteredPluginShape(storages, lookup, name, p, b, d);
    IndexOfSnoc(ts, Some(p), Some(q));
    if q == p {
      WithEntryLookup([], b, d, b');
    } else {
      var iq := IndexOf(ts, Some(q));
      if iq.Some? {
        assert r[iq.value] == storages[iq.value];
      }
    }
  }

  lemma KeepsOthersExisting(storages: seq<BuildPluginDataStorage>, lookup: string -> Option<PluginType>, name: PluginType -> string,
                            p: PluginType, b: EBuildType, d: Option<Data>, q: PluginType, b': EBuildType)
    requires StorageOf(storages, lookup, p).Some?
    requires q != p || b' != b
    ensures PluginDataOf(RegisteredPlugin(storages, lookup, name, p, b, d), lookup, q, b') == PluginDataOf(storages, lookup, q, b')
  {
    if q == p {
      KeepsOtherBuildTypes(storages, lookup, name, p, b, d, b');
    } else {
      KeepsOtherTypes(storages, lookup, name, p, b, d, q, b');
    }
  }

  lemma KeepsOtherBuildTypes(storages: seq<BuildPluginDataStorage>, lookup: string -> Option<PluginType>, name: PluginType -> string,
                             p: PluginType, b: EBuildType, d: Option<Data>, b': EBuildType)
    requires StorageOf(storages, lookup, p).Some? && b' != b
    ensures PluginDataOf(RegisteredPlugin(storages, lookup, name, p, b, d), lookup, p, b') == PluginDataOf(storages, lookup, p, b')
  {
    var r := RegisteredPlugin(storages, lookup, name, p, b, d);
    var ts := Resolved(storages, lookup);
    RegisteredPluginResolved(storages, lookup, name, p, b, d);
    var i := IndexOf(ts, Some(p)).value;
    assert Resolved(r, lookup) == ts;
    WithEntryLookup(storages[i].PluginData, b, d, b');
  }

  lemma KeepsOtherTypes(storages: seq<BuildPluginDataStorage>, lookup: string -> Option<PluginType>, name: PluginType -> string,
                        p: PluginType, b: EBuildType, d: Option<Data>, q: PluginType, b': EBuildType)
    requires StorageOf(storages, lookup, p).Some? && q != p
    ensures PluginDataOf(RegisteredPlugin(storages, lookup, name, p, b, d), lookup, q, b') == PluginDataOf(storages, lookup, q, b')
  {
    var r := RegisteredPlugin(storages, lookup, name, p, b, d);
    var ts := Resolved(storages, lookup);
    RegisteredPluginResolved(storages, lookup, name, p, b, d);
    assert Resolved(r, lookup) == ts;
    RegisteredPluginShape(storages, lookup, name, p, b, d);
    var iq := IndexOf(ts, Some(q));
    if iq.Some? {
      assert r[iq.value] == storages[iq.value];
    }
  }

  /** A registration never creates a second storage for a type, and never a
      second entry for a build type within a storage. */
  lemma RegisterKeepsUnique(storages: seq<BuildPluginDataStorage>, lookup: string -> Option<PluginType>, name: PluginType -> string,
                            p: PluginType, b: EBuildType, d: Option<Data>)
    requires StorageOf(storages, lookup, p).Some? || ResolvesBack(lookup, name, p)
    requires UniqueStorages(storages, lookup) && UniqueEntries(storages)
    ensures var r := RegisteredPlugin(storages, lookup, name, p, b, d);
      UniqueStorages(r, lookup) && UniqueEntries(r)
  {
    var r := RegisteredPlugin(storages, lookup, name, p, b, d);
    RegisteredPluginResolved(storages, lookup, name, p, b, d);
    RegisteredPluginShape(storages, lookup, name, p, b, d);
    var i := IndexOf(Resolved(storages, lookup), Some(p));
    var k := if i.None? then |storages| else i.value;
    var created := if i.None? then storages + [NewStorage(name, p)] else storages;
    WithEntryUnique(created[k].PluginData, b, d);
    assert r == created[k := created[k].(PluginData := WithEntry(created[k].PluginData, b, d))];
  }

  /** `RegisterOrUpdateStorage` as written: an existing storage is never
      replaced, so the storage passed in is returned but not stored. */
  lemma StorageUpdateIgnored(storages: seq<BuildPluginDataStorage>, lookup: string -> Option<PluginType>, p: PluginType, storage: BuildPluginDataStorage)
    requires StorageOf(storages, lookup, p).Some?
    ensures RegisteredStorage(storages, lookup, p, storage) == storages
  {
  }

  /** `RegisterOrUpdateStorage` as its documentation and the sibling
      `RegisterOrUpdateData` of the distribution plugin intend it: the first
      storage for the type is replaced, or the storage is appended. */
  function IntendedStorage(storages: seq<BuildPluginDataStorage>, lookup: string -> Option<PluginType>, p: PluginType, storage: BuildPluginDataStorage): seq<BuildPluginDataStorage> {
    match IndexOf(Resolved(storages, lookup), Some(p))
    case None => storages + [storage]
    case Some(i) => storages[i := storage]
  }

  /** With the intended update, a storage whose name resolves to `p` is what
      `p` finds afterwards. */
  lemma IntendedStorageFound(storages: seq<BuildPluginDataStorage>, lookup: string -> Option<PluginType>, p: PluginType, storage: BuildPluginDataStorage)
    requires StringToType(lookup, storage.PluginTypeName) == Some(p)
    ensures StorageOf(IntendedStorage(storages, lookup, p, storage), lookup, p) == Some(storage)
  {
    var ts := Resolved(storages, lookup);
    var r := IntendedStorage(storages, lookup, p, storage);
    match IndexOf(ts, Some(p))
    case None =>
      assert Resolved(r, lookup) == ts + [Some(p)];
      IndexOfSnoc(ts, Some(p), Some(p));
    case Some(i) =>
      assert Resolved(r, lookup) == ts;
  }

  /** As written, `RegisterOrUpdateMainData` never updates: a second
      registration for RELEASE leaves the first one in place. */
  lemma MainUpdateIgnored(v1: string, v2: string)
    requires v1 != v2
    ensures var tv := [BuildTypeVersion(RELEASE, v1)];
      MainData(RegisteredMain(tv, RELEASE, BuildTypeVersion(RELEASE, v2)), RELEASE) == Some(BuildTypeVersion(RELEASE, v1))
  {
    var tv := [BuildTypeVersion(RELEASE, v1)];
    assert VersionTypes(tv) == [RELEASE];
  }

  /** `RegisterOrUpdateMainData` as intended: the first record for the build
      type is replaced, or the record is appended. */
  function IntendedMain(tv: seq<BuildTypeVersion>, b: EBuildType, data: BuildTypeVersion): seq<BuildTypeVersion> {
    match IndexOf(VersionTypes(tv), b)
    case None => tv + [data]
    case Some(i) => tv[i := data]
  }

  /** With the intended update, the build type reads back the record just
      registered and every other build type reads as before. */
  lemma IntendedMainLookup(tv: seq<BuildTypeVersion>, b: EBuildType, data: BuildTypeVersion, b': EBuildType)
    requires data.BuildType == b
    ensures MainData(IntendedMain(tv, b, data), b) == Some(data)
    ensures b' != b ==> MainData(IntendedMain(tv, b, data), b') == MainData(tv, b')
  {
    var ts := VersionTypes(tv);
    var r := IntendedMain(tv, b, data);
    match IndexOf(ts, b)
    case None =>
      assert VersionTypes(r) == ts + [b];
      IndexOfSnoc(ts, b, b);
      IndexOfSnoc(ts, b, b');
    case Some(i) =>
      assert VersionTypes(r) == ts;
  }

  /** As written, a registration is found afterwards only when the build
      type was new, and other build types read as before. */
  lemma RegisteredMainLookup(tv: seq<BuildTypeVersion>, b: EBuildType, data: BuildTypeVersion, b': EBuildType)
    requires data.BuildType == b
    ensures MainData(RegisteredMain(tv, b, data), b) == if MainData(tv, b).None? then Some(data) else MainData(tv, b)
    ensures b' != b ==> MainData(RegisteredMain(tv, b, data), b') == MainData(tv, b')
  {
    var ts := VersionTypes(tv);
    if MainData(tv, b).None? {
      assert VersionTypes(tv + [data]) == ts + [b];
      IndexOfSnoc(ts, b, b);
      IndexOfSnoc(ts, b, b');
    }
  }

  class GlobalDataStorage {
    /** `customBuildData.typeVersion`. */
    var typeVersion: seq<BuildTypeVersion>
    /** `pluginsData`. */
    var pluginsData: seq<BuildPluginDataStorage>
    /** The assembly search behind `StringToType`. */
    const lookup: string -> Option<PluginType>
    /** `Type.AssemblyQualifiedName`. */
    const name: PluginType -> string

    /** A new storage holds no plugin data; the version records are the
        serialized ones. */
    constructor(lookup: string -> Option<PluginType>, name: PluginType -> string, typeVersion: seq<BuildTypeVersion>)
      ensures this.lookup == lookup && this.name == name
      ensures this.typeVersion == typeVersion && pluginsData == []
    {
      this.lookup := lookup;
      this.name := name;
      this.typeVersion := typeVersion;
      pluginsData := [];
    }

    method RegisterOrUpdateMainData(buildType: EBuildType, data: BuildTypeVersion) returns (r: BuildTypeVersion)
      modifies this`typeVersion
      ensures typeVersion == RegisteredMain(old(typeVersion), buildType, data)
      ensures r == data
    {
      var v := MainData(typeVersion, buildType);
      if v.None? {
        typeVersion := typeVersion + [data];
      }
      r := data;
    }

    method TryGetMainData(buildType: EBuildType) returns (found: bool, data: Option<BuildTypeVersion>)
      ensures data == MainData(typeVersion, buildType) && found == data.Some?
    {
      data := MainData(typeVersion, buildType);
      found := data.Some?;
    }

    /** `TryGetPluginData<T>(pluginType, buildType, out data)`; the cast to
        `T` is not modelled. */
    method TryGetPluginData(pluginType: PluginType, buildType: EBuildType) returns (found: bool, data: Option<Data>)
      ensures data == PluginDataOf(pluginsData, lookup, pluginType, buildType) && found == data.Some?
    {
      var storage := StorageOf(pluginsData, lookup, pluginType);
      data := None;
      if storage.None? {
        found := false;
        return;
      }
      var buildPluginData := EntryOf(storage.value.PluginData, buildType);
      if buildPluginData.None? {
        found := false;
        return;
      }
      data := buildPluginData.value.BuildTypeData;
      found := data.Some?;
    }

    /** The overload that also hands back the storage found. */
    method TryGetPluginDataAndStorage(pluginType: PluginType, buildType: EBuildType)
      returns (found: bool, data: Option<Data>, pluginStorage: Option<BuildPluginDataStorage>)
      ensures data == PluginDataOf(pluginsData, lookup, pluginType, buildType) && found == data.Some?
      ensures pluginStorage == StorageOf(pluginsData, lookup, pluginType)
    {
      pluginStorage := StorageOf(pluginsData, lookup, pluginType);
      found, data := TryGetPluginData(pluginType, buildType);
    }

    method TryGetStorage(pluginType: PluginType) returns (found: bool, storage: Option<BuildPluginDataStorage>)
      ensures storage == StorageOf(pluginsData, lookup, pluginType) && found == storage.Some?
    {
      storage := StorageOf(pluginsData, lookup, pluginType);
      found := storage.Some?;
    }

    method RegisterOrUpdateStorage(pluginType: PluginType, storage: BuildPluginDataStorage) returns (r: BuildPluginDataStorage)
      modifies this`pluginsData
      ensures pluginsData == RegisteredStorage(old(pluginsData), lookup, pluginType, storage)
      ensures r == storage
    {
      var s := StorageOf(pluginsData, lookup, pluginType);
      if s.None? {
        pluginsData := pluginsData + [storage];
      }
      r := storage;
    }

    method RegisterOrUpdatePluginData(pluginType: PluginType, buildType: EBuildType, data: Option<Data>) returns (r: Option<Data>)
      modifies this`pluginsData
      ensures pluginsData == RegisteredPlugin(old(pluginsData), lookup, name, pluginType, buildType, data)
      ensures r == data
    {
      var i := IndexOf(Resolved(pluginsData, lookup), Some(pluginType));
      var k: nat;
      if i.None? {
        k := |pluginsData|;
        var _ := RegisterOrUpdateStorage(pluginType, NewStorage(name, pluginType));
      } else {
        k := i.value;
      }
      var storage := pluginsData[k];
      pluginsData := pluginsData[k := storage.(PluginData := WithEntry(storage.PluginData, buildType, data))];
      r := data;
    }

    /** `Clear` deliberately keeps the stored data. */
    method Clear()
      ensures typeVersion == old(typeVersion) && pluginsData == old(pluginsData)
    {
    }
  }
}

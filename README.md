# Custom Build Settings: a verified model of its core

Custom Build Settings is a Unity editor extension. It replaces the build
window with one that keeps a versioned, plugin-extensible build setup. This
project models the logic under the windows, and proves what that logic
promises:

- **Version strings.** The window classifies an `a.b.c` version by the widths
  of its segments (`GetFormatTypeFromString`) and re-renders it at a chosen
  width (`ConvertVersionFormat`). `BuildTypeVersionIncrementor` bumps the
  component selected by the build type (RELEASE, MILESTONE or DAILY, with
  DEVELOPMENT bumping nothing). It also loads or creates the version file.
- **The scene list** of the build window. A dropped or open scene is added
  enabled, and only when no entry has its path. The selected entry can be
  removed and an entry toggled. The build receives the enabled paths in list
  order.
- **`BuildValue<T>`**, a value cell that notifies its subscribers only on a
  real change. `MainBuildData` holds such cells and the scene list.
- **The registries.**
  - `GlobalDataStorage` keeps per-build-type version records and per-plugin
    storages of per-build-type data.
  - `DataBinder` and `DataBinderFactory` keep a type-keyed repository of
    build-data instances.
- **Plugin ordering.** `GetOrderedPlugins` and `GetOrderedMethods` are a
  stable sort by an optional order attribute, where a missing attribute
  counts as `int.MaxValue`.
- **The build-report pipeline.**
  - `CategoryHelper` maps an extension to a category.
  - `BuildReportConverter` groups assets into parallel path and size lists.
  - `CustomBuildReport` deduplicates by path and sorts by size, largest
    first.
  - `BuildReportManager` keeps a history of at most five saved reports.

Each module follows the source's form:
- Pure code is datatypes and functions.
- Classes whose fields change are Dafny classes with `modifies` frames.
- Loops are methods with invariants, proved against the fold functions that
  specify them.

Other choices:
- Files are inputs: `Option` values that are `None` when the file is absent.
- Writes are recorded in sequences (`versionFile`, `written`, `published`).
- Reflection becomes function parameters (`lookup`, `name`, `pluginOrder`,
  `methodOrder`).
- `Text` holds the parts of the .NET library the core relies on:
  `String.Split` and `String.Join`, `int.Parse` on digit strings,
  `ToString("Dn")`, the unchecked `int` increment and ASCII `ToLower`.

## Model

| member | source | states |
|---|---|---|
| Text.Split | Editor/CustomBuildSettingsWindow.cs:83 | splitting always yields at least one part |
| Text.JoinSplit | Editor/BuildTypeVersionIncrementor.cs:38-55 | joining the parts of a split with the same separator gives back the original string |
| Text.SplitJoin | Editor/BuildTypeVersionIncrementor.cs:55 | splitting a join of separator-free parts gives back exactly those parts |
| Text.FormatD | Editor/CustomBuildSettingsWindow.cs:113-130 | `n.ToString("Dp")` for n >= 0 is a digit string with value n and length max(p, digits of n); a negative n renders as '-' followed by the digits of |n| zero-padded to max(p, digits of |n|); the result never holds '.' or '_' |
| Text.Int32Increment | Editor/BuildTypeVersionIncrementor.cs:88-89 | `number++` on an `int` adds one below `int.MaxValue` and wraps `int.MaxValue` to `int.MinValue` |
| Text.ToLower | Data/CategoryHelper.cs:9 | lowering keeps the length and maps each character on its own: an ASCII capital becomes the lower-case letter at the same alphabet position, and every other character is kept |
| VersionFormat.Widths | Editor/CustomBuildSettingsWindow.cs:113-130 | each named format has three widths, each from 1 to 3 |
| VersionFormat.GetFormatTypeFromString | Editor/CustomBuildSettingsWindow.cs:81-101 | a string that does not split into three parts gives the default; any other result is a named format whose widths are exactly the segment lengths, and it is never D1_D2_D2 |
| VersionFormat.FormatFromLengths | Editor/CustomBuildSettingsWindow.cs:87-98 | every named format except D1_D2_D2 is returned for a string whose segment lengths are its widths, so classification depends on the three lengths alone |
| VersionFormat.OneTwoTwoGivesDefault | Editor/CustomBuildSettingsWindow.cs:93-100 | segment lengths (1,2,2) give the default format |
| VersionFormat.OneTwoTwoExample | Editor/CustomBuildSettingsWindow.cs:93-100 | "1.22.33" classifies as the default format |
| VersionFormat.IntendedFormatTypeFromString | Editor/CustomBuildSettingsWindow.cs:81-101 | the classifier with line 94 testing (1,2,2): three parts are needed, and any non-default result has widths equal to the segment lengths |
| VersionFormat.IntendedFormatFromLengths | Editor/CustomBuildSettingsWindow.cs:87-98 | with line 94 corrected, all eight named formats, D1_D2_D2 included, are recognised from their widths |
| VersionFormat.ConvertVersionFormat | Editor/CustomBuildSettingsWindow.cs:103-135 | a version that is not three parts, or a format outside the eight cases, is returned unchanged; the result is again parsable |
| VersionFormat.ConvertRendersWidths | Editor/CustomBuildSettingsWindow.cs:109-130 | for three parts and a named format, the result is the three parsed numbers rendered at the format's widths, joined by '.' |
| VersionFormat.ConvertSpec | Editor/CustomBuildSettingsWindow.cs:109-130 | each result part is a digit string with the input part's value, zero-padded to max(width, digit count) |
| VersionFormat.RenderedValues | Editor/CustomBuildSettingsWindow.cs:113-130 | three rendered numbers split back into three digit strings with those values and widths |
| VersionFormat.RenderedParts | Editor/CustomBuildSettingsWindow.cs:113-130 | three renderings joined by '.' split back into those renderings and stay parsable |
| VersionFormat.ConvertIdempotent | Editor/CustomBuildSettingsWindow.cs:109-130 | converting a converted version with the same format changes nothing |
| VersionFormat.LeadingZerosDropped | Editor/CustomBuildSettingsWindow.cs:109-114 | leading zeros are not preserved: "1.007.3" at D1_D1_D1 becomes "1.7.3" |
| VersionFormat.ExampleParts | Editor/CustomBuildSettingsWindow.cs:83 | "1.007.3" splits into "1", "007" and "3" |
| VersionFormat.ConvertThenClassify | Editor/CustomBuildSettingsWindow.cs:81-135 | a converted version whose numbers fit the widths classifies back as its format, for every format but D1_D2_D2 |
| VersionFormat.IntendedConvertThenClassify | Editor/CustomBuildSettingsWindow.cs:81-135 | with the corrected classifier, conversion then classification gives back the format for all eight formats |
| VersionIncrementor.CreateVersionString | Editor/BuildTypeVersionIncrementor.cs:66-77 | the pattern has three parts, each zeros at its format's precision (at least one) |
| VersionIncrementor.ZeroRendering | Editor/BuildTypeVersionIncrementor.cs:72-74 | zero rendered at precision p is max(1, p) zeros |
| VersionIncrementor.DefaultPatternIsZeroZeroZero | Editor/BuildTypeVersionIncrementor.cs:66-77 | the default formats D1, D1, D1 give "0.0.0" |
| VersionIncrementor.WidePatternExample | Editor/BuildTypeVersionIncrementor.cs:66-77 | formats D1, D2, D3 give "0.00.000" |
| VersionIncrementor.IncrementAndFormatNumber | Editor/BuildTypeVersionIncrementor.cs:86-92 | below `int.MaxValue` the result is a digit string with value parse(part)+1, zero-padded to exactly max(precision, digit count of parse(part)+1); at `int.MaxValue` it renders `int.MinValue` with a '-'; it never holds '.' |
| VersionIncrementor.IncrementWidens | Editor/BuildTypeVersionIncrementor.cs:86-92 | the result may be wider than its format: "9" at D1 gives "10" |
| VersionIncrementor.BaseVersionChoice | Editor/BuildTypeVersionIncrementor.cs:25-38 | the bumped version is the stored version if non-empty, else the version pattern if non-empty, else the generated zero pattern |
| VersionIncrementor.BumpComponent | Editor/BuildTypeVersionIncrementor.cs:40-53 | in the `parts` array, the build type's slot is replaced by its increment and every other slot is kept |
| VersionIncrementor.BumpSlot | Editor/BuildTypeVersionIncrementor.cs:43-49 | replacing one slot by its increment is a bump of that slot and keeps the parts free of '.' |
| VersionIncrementor.BumpTouchesOnlyItsComponent | Editor/BuildTypeVersionIncrementor.cs:40-53 | RELEASE changes only part 0, MILESTONE only part 1, DAILY only part 2 and DEVELOPMENT nothing; lower parts are not reset |
| VersionIncrementor.BumpVersion | Editor/BuildTypeVersionIncrementor.cs:34-55 | the new version's parts are the base version's parts with the selected component bumped |
| VersionIncrementor.IncrementVersion | Editor/BuildTypeVersionIncrementor.cs:15-64 | the new version is the bumped base version with the same number of parts; `buildData` is the loaded record with that version; the file receives the pattern first when there was no file, then the new version |
| VersionIncrementor.LoadOrSaveVersionFromFile | Editor/BuildTypeVersionIncrementor.cs:130-148 | a stored record is returned and nothing is written; with no file the default build type at "0.0.0" is returned and saved |
| BuildValues.Assign | Data/Value/BuildValue.cs:24-30 | the cell holds the new value afterwards; the notifications grow by at most one, keep the earlier ones, and grow exactly when the value changed |
| BuildValues.AssignTwice | Data/Value/BuildValue.cs:26-29 | setting the same value twice in a row is one setting, so one notification at most |
| BuildValues.AssignConsistent | Data/Value/BuildValue.cs:26-29 | a setter keeps the last notification equal to the value and no two consecutive notifications equal |
| BuildValues.AssignAllNotifiesChanges | Data/Value/BuildValue.cs:24-30 | a series of settings notifies exactly the values that differ from the one before them, and leaves the last value stored |
| BuildValues.BuildValue.constructor | Data/Value/BuildValue.cs:33-36 | a fresh cell holds the default value and has notified nothing |
| BuildValues.BuildValue.SetValue | Data/Value/BuildValue.cs:24-30 | the setter moves the cell's state by `Assign` |
| MainBuildDatas.ToScenes | Data/MainBuildData.cs:36 | the conversion keeps length and order and copies each path and flag |
| MainBuildDatas.ToReferences | Data/MainBuildData.cs:41 | the conversion keeps length and order and copies each path and flag |
| MainBuildDatas.ReferencesRoundTrip | Data/MainBuildData.cs:36-41 | storing references and reading them back gives the same references |
| MainBuildDatas.ScenesRoundTrip | Data/MainBuildData.cs:36-41 | reading scenes out and storing them back gives the same scenes |
| MainBuildDatas.MainBuildData.constructor | Data/MainBuildData.cs:20-32 | no scenes, an empty path, and every cell fresh, distinct and holding its default |
| MainBuildDatas.MainBuildData.SetSceneList | Data/MainBuildData.cs:34-37 | the scenes become the converted copy of the argument |
| MainBuildDatas.MainBuildData.GetSceneList | Data/MainBuildData.cs:39-42 | the result is the converted copy of the scenes |
| MainBuildDatas.MainBuildData.Clear | Data/MainBuildData.cs:44-54 | the build type, format and hash cells are dropped; the three version strings are set to null through their setters, notifying only those that were not null yet; the path is emptied |
| MainBuildDatas.SetThenGet | Data/MainBuildData.cs:34-42 | `GetSceneList` after `SetSceneList(xs)` returns `xs` |
| SceneLists.OpenCandidates | Editor/CustomBuildSettingsWindow.cs:359-362 | the open scenes' paths are deduplicated, in first-occurrence order, and an empty path is skipped |
| SceneLists.AddedSnoc | Editor/CustomBuildSettingsWindow.cs:339-350 | offering one more candidate is one more step, and a write is logged exactly when that step adds an entry |
| SceneLists.AddedExtends | Editor/CustomBuildSettingsWindow.cs:344-364 | adding keeps every existing entry in place; each new entry is enabled, was offered, and had a path absent before |
| SceneLists.AddedPaths | Editor/CustomBuildSettingsWindow.cs:344-364 | after adding, a path is present exactly when it was present before or was offered |
| SceneLists.AddedDistinct | Editor/CustomBuildSettingsWindow.cs:344-364 | adding never duplicates a path |
| SceneLists.AddLogWrites | Editor/CustomBuildSettingsWindow.cs:346-347 | a drop writes the build settings once per added scene, and the last write is the final list |
| SceneLists.OpenScenesPaths | Editor/CustomBuildSettingsWindow.cs:357-369 | after Add Open Scenes a path is present exactly when it was present before, or is non-empty and open |
| SceneLists.Removed | Editor/CustomBuildSettingsWindow.cs:183 | removal drops the entry at the index and only that entry, keeping the others in order |
| SceneLists.RemovedDistinct | Editor/CustomBuildSettingsWindow.cs:183 | removal never introduces a duplicate path |
| SceneLists.EnabledPathsExact | Editor/CustomBuildSettingsWindow.cs:389 | the build scenes are the paths of exactly the enabled entries, in list order |
| SceneLists.AddEach | Editor/CustomBuildSettingsWindow.cs:339-350 | the drop loop yields the folded list and one logged write per added scene |
| SceneLists.SceneList.constructor | Editor/CustomBuildSettingsWindow.cs:137-140 | the window starts from a copy of the build settings' scenes |
| SceneLists.SceneList.DropScenes | Editor/CustomBuildSettingsWindow.cs:339-350 | each dragged scene asset is added if its path is absent, and each addition is published |
| SceneLists.SceneList.AddOpenScenes | Editor/CustomBuildSettingsWindow.cs:357-369 | the open scenes are added if absent, then the list is published once |
| SceneLists.SceneList.RemoveSelected | Editor/CustomBuildSettingsWindow.cs:181-185 | the selected entry is removed and the list published |
| SceneLists.SceneList.Toggle | Editor/CustomBuildSettingsWindow.cs:155-160 | a changed flag is stored and published; an unchanged one does nothing |
| SceneLists.SceneList.BuildScenes | Editor/CustomBuildSettingsWindow.cs:389 | the build receives the enabled paths |
| GlobalDataStorages.IndexOf | Data/GlobalData/GlobalDataStorage.cs:170 | `Find` as an index: none exactly when absent, otherwise the first position |
| GlobalDataStorages.StorageOf | Data/GlobalData/GlobalDataStorage.cs:80 | the first storage whose name resolves to the type, and none exactly when no name does |
| GlobalDataStorages.EntryOf | Data/GlobalData/GlobalDataStorage.cs:82 | the first entry with the build type, and none exactly when no entry has it |
| GlobalDataStorages.MainData | Data/GlobalData/GlobalDataStorage.cs:64 | the first version record with the build type, and none exactly when no record has it |
| GlobalDataStorages.PluginDataOf | Data/GlobalData/GlobalDataStorage.cs:78-88 | no data when no storage resolves to the type, or when that storage has no entry for the build type |
| GlobalDataStorages.WithEntryLookup | Data/GlobalData/GlobalDataStorage.cs:170-178 | after setting an entry, that build type reads the new data and other build types read as before |
| GlobalDataStorages.WithEntryUnique | Data/GlobalData/GlobalDataStorage.cs:170-178 | setting an entry keeps at most one entry per build type: it overwrites or appends exactly one |
| GlobalDataStorages.RegisteredPluginShape | Data/GlobalData/GlobalDataStorage.cs:165-178 | a storage named by the type's name is appended only when none resolves to the type; other storages are untouched and no storage changes name |
| GlobalDataStorages.RegisteredPluginResolved | Data/GlobalData/GlobalDataStorage.cs:165-168 | the resolved types after registering are the old ones, plus the new storage's only when one was created |
| GlobalDataStorages.RegisterThenGet | Data/GlobalData/GlobalDataStorage.cs:161-181 | after registering data for (plugin, build type), reading that pair yields the data |
| GlobalDataStorages.RegisterKeepsOthers | Data/GlobalData/GlobalDataStorage.cs:161-181 | registering for (p, b) leaves every other (plugin, build type) pair reading as before |
| GlobalDataStorages.KeepsOthersCreated | Data/GlobalData/GlobalDataStorage.cs:165-168 | when a storage is created, no other pair changes |
| GlobalDataStorages.KeepsOthersExisting | Data/GlobalData/GlobalDataStorage.cs:170-178 | when the storage exists, no other pair changes |
| GlobalDataStorages.KeepsOtherBuildTypes | Data/GlobalData/GlobalDataStorage.cs:170-178 | the plugin's other build types keep their data |
| GlobalDataStorages.KeepsOtherTypes | Data/GlobalData/GlobalDataStorage.cs:161-181 | other plugins keep their data |
| GlobalDataStorages.RegisterKeepsUnique | Data/GlobalData/GlobalDataStorage.cs:165-178 | registering keeps one storage per type and one entry per build type |
| GlobalDataStorages.RegisteredMainLookup | Data/GlobalData/GlobalDataStorage.cs:38-54 | as written: the build type reads the new record only when it had none, otherwise the old one; other build types read as before |
| GlobalDataStorages.MainUpdateIgnored | Data/GlobalData/GlobalDataStorage.cs:48-51 | as written, a second RELEASE registration with another version leaves the first record in place |
| GlobalDataStorages.IntendedMainLookup | Data/GlobalData/GlobalDataStorage.cs:38-54 | with the found record replaced in place, the build type reads the registered record and others read as before |
| GlobalDataStorages.StorageUpdateIgnored | Data/GlobalData/GlobalDataStorage.cs:145-148 | as written, registering a storage for a type that already has one leaves the list unchanged |
| GlobalDataStorages.IntendedStorageFound | Data/GlobalData/GlobalDataStorage.cs:135-151 | with the found storage replaced in place, the type finds the registered storage |
| GlobalDataStorages.GlobalDataStorage.constructor | Data/GlobalData/GlobalDataStorage.cs:27-30 | a store with the given version records and no plugin storages |
| GlobalDataStorages.GlobalDataStorage.RegisterOrUpdateMainData | Data/GlobalData/GlobalDataStorage.cs:38-54 | a record is appended when the build type has none, otherwise the list is unchanged; the argument is returned |
| GlobalDataStorages.GlobalDataStorage.TryGetMainData | Data/GlobalData/GlobalDataStorage.cs:62-66 | true exactly when some record has the build type, yielding the first such record |
| GlobalDataStorages.GlobalDataStorage.TryGetPluginData | Data/GlobalData/GlobalDataStorage.cs:76-89 | yields the pair's data, and true exactly when that data is non-null |
| GlobalDataStorages.GlobalDataStorage.TryGetPluginDataAndStorage | Data/GlobalData/GlobalDataStorage.cs:100-115 | as `TryGetPluginData`, also yielding the storage found for the type |
| GlobalDataStorages.GlobalDataStorage.TryGetStorage | Data/GlobalData/GlobalDataStorage.cs:123-127 | true exactly when some storage resolves to the type, yielding the first |
| GlobalDataStorages.GlobalDataStorage.RegisterOrUpdateStorage | Data/GlobalData/GlobalDataStorage.cs:135-151 | appends only when no storage resolves to the type, otherwise leaves the list unchanged; the argument is returned |
| GlobalDataStorages.GlobalDataStorage.RegisterOrUpdatePluginData | Data/GlobalData/GlobalDataStorage.cs:161-181 | creates the type's storage when missing, then sets the build type's entry; the data is returned |
| GlobalDataStorages.GlobalDataStorage.Clear | Data/GlobalData/GlobalDataStorage.cs:208-211 | clearing changes nothing |
| DataBinders.ValuesAt | Data/Services/DataBinder/DataBinder.cs:71-72 | the instances under the visited keys, one per key, in visiting order |
| DataBinders.EnumerationSize | Data/Services/DataBinder/DataBinder.cs:71 | visiting every key once takes exactly as many steps as there are keys |
| DataBinders.ClearCalls | Data/Services/DataBinder/DataBinder.cs:69-75 | the loop visits every registered type exactly once and calls `Clear()` on the instance stored under it |
| DataBinders.Repository.RegisteredData | Data/Services/DataBinder/DataBinder.cs:14 | the registered types are exactly the repository's keys |
| DataBinders.DataBinder.constructor | Data/Services/DataBinder/DataBinder.cs:24-27 | a new binder empties the shared repository |
| DataBinders.DataBinder.RegisterData | Data/Services/DataBinder/DataBinder.cs:34-37 | the instance is stored under its type, replacing any earlier one, and `GetData` returns it; other types are unchanged |
| DataBinders.DataBinder.UnregisterData | Data/Services/DataBinder/DataBinder.cs:53-56 | only the type's entry is removed; an absent type is a no-op |
| DataBinders.DataBinder.Dispose | Data/Services/DataBinder/DataBinder.cs:61-75 | `Clear()` is called once on every registered instance, then the repository is empty |
| DataBinderFactories.FactoryInstance.constructor | Data/Services/DataBinder/Factory/DataBinderFactory.cs:12 | no factory is the `Instance` before one is built |
| DataBinderFactories.DataBinderFactory.constructor | Data/Services/DataBinder/Factory/DataBinderFactory.cs:19-22 | a new factory becomes the `Instance` and holds no binder |
| DataBinderFactories.DataBinderFactory.CreateDataBinder | Data/Services/DataBinder/Factory/DataBinderFactory.cs:27-30 | a fresh binder is installed, and every earlier registration is discarded |
| DataBinderFactories.DataBinderFactory.RegisterData | Data/Services/DataBinder/Factory/DataBinderFactory.cs:38-42 | the registration reaches the repository and the same factory is returned |
| DataBinderFactories.DataBinderFactory.UnregisterData | Data/Services/DataBinder/Factory/DataBinderFactory.cs:50-54 | removal is by type alone, the instance argument is ignored, and the factory is returned |
| DataBinderFactories.DataBinderFactory.Cleanup | Data/Services/DataBinder/Factory/DataBinderFactory.cs:59-62 | every instance is cleared once and the repository emptied |
| DataBinderFactories.RegisterChain | Data/Services/DataBinder/Factory/DataBinderFactory.cs:38-42 | chained registrations act on one factory, and the last registration for a type wins |
| StableSort.SortBy | Invoker/InterfaceImplementationsInvoker.cs:73 | `OrderBy`: a permutation of the input, sorted by key, and stable (elements with equal keys keep their order) |
| StableSort.InsertFacts | Invoker/InterfaceImplementationsInvoker.cs:73 | inserting into a sorted list keeps it a sorted, stable permutation |
| PluginOrder.OrderKey | Invoker/InterfaceImplementationsInvoker.cs:71 | a missing order counts as `int.MaxValue` |
| PluginOrder.GetOrderedPlugins | Invoker/InterfaceImplementationsInvoker.cs:64-78 | a new list holding a permutation of the plugins, sorted by `PluginOrder`, with equal keys in input order |
| PluginOrder.GetOrderedMethods | Invoker/InterfaceImplementationsInvoker.cs:47-62 | the same rules with the `MethodOrder` key of the named method |
| PluginOrder.ExplicitBeforeUnattributed | Invoker/InterfaceImplementationsInvoker.cs:71-73 | a plugin with an order below `int.MaxValue` precedes every unattributed plugin |
| PluginOrder.UnattributedKeepOrder | Invoker/InterfaceImplementationsInvoker.cs:71-73 | with no attributes at all, the order is the input order |
| PluginOrder.OrderExample | Invoker/InterfaceImplementationsInvoker.cs:64-78 | orders 2, none, 1 and none on plugins 10, 20, 30 and 40 give 30, 10, 20, 40 |
| CategoryHelper.LastDot | Data/CategoryHelper.cs:9 | the last '.' of the file name, with nothing but name characters after it |
| CategoryHelper.GetExtension | Data/CategoryHelper.cs:9 | a non-empty extension is a '.' and at least one name character, and is the path's suffix |
| CategoryHelper.ExtensionTable | Data/CategoryHelper.cs:11-61 | every extension gets one of the eleven labels, and "Unknown" exactly when it is not listed |
| CategoryHelper.CategoryIsLabel | Data/CategoryHelper.cs:9-61 | every path gets one of the eleven labels, and a path with no extension gets "Unknown" |
| CategoryHelper.CategoryIgnoresCase | Data/CategoryHelper.cs:9 | two paths equal up to case get the same category |
| CategoryHelper.ExtensionOfLowered | Data/CategoryHelper.cs:9 | lowering then taking the extension equals taking the extension then lowering |
| CategoryHelper.OnlyFinalExtensionCounts | Data/CategoryHelper.cs:9 | only the final extension decides the category |
| CategoryHelper.FinalExtension | Data/CategoryHelper.cs:9 | the extension of `prefix.name` is `.name` |
| CategoryHelper.NoDotNoExtension | Data/CategoryHelper.cs:9-60 | a file name without a '.' has no extension and gets "Unknown" |
| CategoryHelper.MaterialExample | Data/CategoryHelper.cs:44-45 | "x.png.mat" gets "Materials" |
| CategoryHelper.UpperCaseExample | Data/CategoryHelper.cs:9-23 | "Textures/A.PNG" gets "Textures" |
| BuildReportTypes.FlattenPrefix | Data/BuildReport/Converter/BuildReportConverter.cs:12-14 | the nested loops visit the packed assets' contents in order |
| BuildReportConverter.FindCategory | Data/BuildReport/Converter/BuildReportConverter.cs:17 | `Find` by category: the first entry with the category, or none exactly when no entry has it |
| BuildReportConverter.AddToCategory | Data/BuildReport/Converter/BuildReportConverter.cs:16-24 | one pass of the inner loop is one step of the grouping fold |
| BuildReportConverter.GroupedSnoc | Data/BuildReport/Converter/BuildReportConverter.cs:12-25 | grouping one more asset is one more fold step |
| BuildReportConverter.ConvertWith | Data/BuildReport/Converter/BuildReportConverter.cs:8-29 | the loops compute the grouping of every asset, in order, with an empty report name |
| BuildReportConverter.ConvertToSerializable | Data/BuildReport/Converter/BuildReportConverter.cs:8-29 | the conversion is the grouping by `DetermineCategory`, with an empty report name |
| BuildReportConverter.GroupedIsGroups | Data/BuildReport/Converter/BuildReportConverter.cs:12-25 | the entries are the categories in first-occurrence order, each holding exactly its assets' paths and sizes in input order |
| BuildReportConverter.CategoriesUniqueInOrder | Data/BuildReport/Converter/BuildReportConverter.cs:17-22 | each category appears in one entry only, in first-occurrence order |
| BuildReportConverter.InCategoryMembers | Data/BuildReport/Converter/BuildReportConverter.cs:16-23 | a category's members are exactly the assets classified into it |
| BuildReportConverter.EntriesArePaired | Data/BuildReport/Converter/BuildReportConverter.cs:23-24 | paths and sizes have equal length, index i pairs an asset's path with its size, and every path has the entry's category |
| BuildReportConverter.AssetIsStored | Data/BuildReport/Converter/BuildReportConverter.cs:16-23 | every asset's path is stored under its category |
| BuildReportConverter.NothingDropped | Data/BuildReport/Converter/BuildReportConverter.cs:12-25 | no deduplication: the stored paths number exactly the assets |
| BuildReportConverter.ConversionSpec | Data/BuildReport/Converter/BuildReportConverter.cs:8-29 | the converted report has an empty name, the grouping shape, and every asset counted once |
| CustomBuildReports.SizesOf | Data/CustomBuildReport.cs:52-58 | the category sizes have the lists' keys, and each is its list's byte sum |
| CustomBuildReports.SortedBySize | Data/CustomBuildReport.cs:63-66 | every list is replaced by its stable sort by descending size, and no key changes |
| CustomBuildReports.Pairs | Data/CustomBuildReport.cs:80-87 | one (path, size) pair per path index |
| CustomBuildReports.CustomBuildReport.constructor | Data/CustomBuildReport.cs:17-27 | no report, empty dictionaries and 100 assets per page |
| CustomBuildReports.CustomBuildReport.AnalyzeAssets | Data/CustomBuildReport.cs:39-67 | the lists are the collected, deduplicated assets of the last report, each sorted by descending size; the sizes are their byte sums |
| CustomBuildReports.CustomBuildReport.AnalyzeAssetsWith | Data/CustomBuildReport.cs:39-67 | `AnalyzeAssets` for any classifier |
| CustomBuildReports.CustomBuildReport.AnalyzeSerializedAssets | Data/CustomBuildReport.cs:69-94 | only the loaded lists and sizes are written, each entry resetting its category |
| CustomBuildReports.CustomBuildReport.Clear | Data/CustomBuildReport.cs:109-117 | the last report is dropped and all five dictionaries emptied |
| CustomBuildReports.CollectAssets | Data/CustomBuildReport.cs:41-61 | the nested loops compute the collected lists and their byte sums |
| CustomBuildReports.CollectContents | Data/CustomBuildReport.cs:46-60 | the inner loop extends the fold over the packed asset's contents |
| CustomBuildReports.CollectAsset | Data/CustomBuildReport.cs:48-59 | one asset: create the category when missing, and append when its path is not listed yet |
| CustomBuildReports.CollectCases | Data/CustomBuildReport.cs:49-57 | the collected map after one asset, case by case |
| CustomBuildReports.CollectSizes | Data/CustomBuildReport.cs:52-58 | the sizes follow each step: zero for a new category, the asset's size added when it is appended |
| CustomBuildReports.CollectedStep | Data/CustomBuildReport.cs:44-61 | one more asset is one more fold step |
| CustomBuildReports.SortLists | Data/CustomBuildReport.cs:63-66 | the final loop sorts every list |
| CustomBuildReports.LoadEntries | Data/CustomBuildReport.cs:74-93 | the loop over serialized entries gives the loaded lists and sizes |
| CustomBuildReports.LoadedSnoc | Data/CustomBuildReport.cs:74-93 | each entry sets its category to its own list and size, replacing what was there |
| CustomBuildReports.EntryList | Data/CustomBuildReport.cs:80-92 | an entry's list is its pairs deduplicated by path, and its size their byte sum |
| CustomBuildReports.CollectedIsDedupedCategory | Data/CustomBuildReport.cs:48-59 | a category is present exactly when some asset has it, and its list is its assets deduplicated by path, first occurrence kept |
| CustomBuildReports.AnalyzedListMembers | Data/CustomBuildReport.cs:39-67 | after analysis, each list holds only its category's assets, no two sharing a path, and every such asset's path |
| CustomBuildReports.AnalyzedListOrder | Data/CustomBuildReport.cs:63-66 | each list is non-increasing in size, with equal sizes in insertion order |
| CustomBuildReports.LoadedKeys | Data/CustomBuildReport.cs:74-78 | the loaded lists and sizes have exactly the entries' categories as keys |
| CustomBuildReports.LastEntryWins | Data/CustomBuildReport.cs:76-78 | a category repeated in the input keeps only its last entry's assets and size |
| CustomBuildReports.EntryAssetsSpec | Data/CustomBuildReport.cs:80-92 | a loaded list has distinct paths, covers every path of its entry, holds only its entry's pairs, and is non-increasing in size |
| Dedup.DedupDistinct | Data/CustomBuildReport.cs:55 | the `Any` guard keeps no two elements with the same key |
| Dedup.DedupKeys | Data/CustomBuildReport.cs:55 | a key survives deduplication exactly when it was present |
| Dedup.DedupKeepsFirst | Data/CustomBuildReport.cs:55 | each kept element is the first occurrence of its key |
| BuildReportManagers.Saved | Data/BuildReport/Serialization/BuildReportManager.cs:21-31 | the new report is last; below five the old list precedes it unchanged, at five or more the oldest is dropped first |
| BuildReportManagers.SavedBound | Data/BuildReport/Serialization/BuildReportManager.cs:23-28 | a history of at most five stays at most five, and grows by one below five |
| BuildReportManagers.SavedAllKeepsNewest | Data/BuildReport/Serialization/BuildReportManager.cs:23-28 | any series of saves keeps the newest reports, at most five, in their order (FIFO) |
| BuildReportManagers.NewestStep | Data/BuildReport/Serialization/BuildReportManager.cs:23-28 | one save keeps the newest-five window of all reports saved |
| BuildReportManagers.BuildReportManager.constructor | Data/BuildReport/Serialization/BuildReportManager.cs:9 | the history starts empty and nothing is written |
| BuildReportManagers.BuildReportManager.SaveReport | Data/BuildReport/Serialization/BuildReportManager.cs:21-31 | the history moves by `Saved` and the new list is written to the file |
| BuildReportManagers.BuildReportManager.LoadReports | Data/BuildReport/Serialization/BuildReportManager.cs:33-42 | with no file the history is unchanged; a null decoded list becomes empty; otherwise the file's list is taken; the history is returned |

## Left out

- GUI, drawing and event plumbing: the windows, the `ReorderableList` drawing and its reorder drag, the drop area's event guard, pagination and the report window. This is widget code owned by the editor.
- `FindAllPluginsEditor`, `InvokeMethodOnAllImplementations` and attribute lookup: reflection. Each plugin's order attribute is an `Option<int>` parameter.
- `StringToType` is a resolver parameter `lookup`, with the empty string mapped to none. `AssemblyQualifiedName` is a parameter `name`.
- GitAssistant, ResourceManager and BuildPreferencesData: process spawning, file search and asset loading.
- File and host I/O: JSON, `File.*`, `AssetDatabase`, `EditorUtility.SetDirty`, `EditorSceneManager` saving and `PlayerSettings.bundleVersion`. Files are `Option` inputs and writes are sequences of records.
- Record identity: `CustomBuildData`, `BuildPluginDataStorage` and the Unity scene and asset types are values, so no aliasing between references is modelled.
- `CategorySizes` in megabytes as `float`, and `FormatSize`: floating point. Sizes are integer byte sums.
- `IncrementNumber`: nothing calls it.
- `int.Parse` only accepts digit strings of at most `int.MaxValue`; signs, whitespace and overflow exceptions are not modelled.
- `ToString(format)` only uses "D" or "d" formats with a precision.
- A null string is the empty string where the source tests `IsNullOrEmpty`. This does not cover `GetFormatTypeFromString`: there `versionString.Split('.')` (Editor/CustomBuildSettingsWindow.cs:83) runs before the test at :85, so a null string throws rather than giving the default format, and that exception is not modelled.
- `Path.GetExtension` only knows '/' and '\\' as separators; volume separators and invalid path characters are not modelled.
- `ToLower` only lowers ASCII letters.
- The default values of `EBuildType` and `EVersionFormatType` are left open, as their declarations are not part of this model. `BuildTypeVersion`'s declaration is not part of this model either: it is a record of a build type and a version. `Data/CustomBuildData.cs` has no `typeVersion` list, so that list is modelled on the store.
- `OnValueChanged` subscribers are a log of notified values, not callbacks.
- `DataBinderFactory.Instance` is a field of a `FactoryInstance` object, and the static repository is one shared `Repository` object. The instances' own `Clear()` is a log of calls. The order in which a dictionary visits its keys is left open.
- VersionFormat.ConvertVersionFormat: requires parsable parts instead of modelling the `int.Parse` exceptions.
- VersionIncrementor.IncrementVersion: requires that the bumped part and its format exist and parse, instead of modelling the index and format exceptions.
- DataBinders.Repository.GetData: requires the type to be registered, instead of modelling the thrown exception.
- DataBinderFactories.DataBinderFactory.RegisterData: requires a binder, instead of modelling the null reference before `CreateDataBinder`. The same holds for `UnregisterData` and `Cleanup`.
- CustomBuildReports.CustomBuildReport.AnalyzeAssets: requires a last report, instead of modelling the null reference.
- CustomBuildReports.CustomBuildReport.AnalyzeSerializedAssets: requires `AssetSizes` to be at least as long as `AssetPaths`, instead of modelling the index exception.
- SceneLists.SceneList.RemoveSelected: requires a valid index, which the list widget supplies.
- GlobalDataStorages.GlobalDataStorage.TryGetPluginData: the `(T)` cast is not modelled. Data is returned as stored, so a failed cast is not modelled.

## Findings

| source | as written | input that shows it | evidently intended | confidence | as-written member | corrected member |
|---|---|---|---|---|---|---|
| Editor/CustomBuildSettingsWindow.cs:93-94 | line 94 repeats line 93's test of lengths (1,1,3), so D1_D2_D2 is never returned | "1.22.33" classifies as the default format | line 94 tests lengths (1,2,2) and returns D1_D2_D2 | high, not executed | VersionFormat.OneTwoTwoExample | VersionFormat.IntendedFormatFromLengths |
| Data/GlobalData/GlobalDataStorage.cs:48-51 | an existing record is assigned only to the local `v`, so the list keeps the old record | records [RELEASE "1.0.0"], then registering RELEASE "2.0.0": `TryGetMainData(RELEASE)` still yields "1.0.0" | replace the record in place, as `RegisterOrUpdateData` in Samples~/FirebaseAppDistributionPlugin/Editor/Data/DistributeApkData.cs:30-46 does | medium, not executed | GlobalDataStorages.MainUpdateIgnored | GlobalDataStorages.IntendedMainLookup |
| Data/GlobalData/GlobalDataStorage.cs:145-148 | an existing storage is assigned only to the local `s`, so the list keeps the old storage | a storage S for type p, then `RegisterOrUpdateStorage(p, S')`: `TryGetStorage(p)` still yields S | replace the storage in place | medium, not executed | GlobalDataStorages.StorageUpdateIgnored | GlobalDataStorages.IntendedStorageFound |

The classes keep the code as written. The corrected definitions stand beside
them with their properties proved.

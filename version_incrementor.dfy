/**
 * `BuildTypeVersionIncrementor`: bumping the version component that the
 * build type selects. The version file is an input (`stored`, what it held
 * before the call) and an output (`versionFile`, every record written to it).
 */
module VersionIncrementor {
  import opened Wrappers
  import opened Text
  import opened BuildTypes

  /** A `ToString` format this model renders: "D" or "d", then an optional
      precision of at most 999999999. */
  predicate IsDecimalFormat(spec: string) {
    |spec| >= 1 && (spec[0] == 'D' || spec[0] == 'd') && AllDigits(spec[1..]) &&
    ParseDigits(spec[1..]) <= 999_999_999
  }

  function Precision(spec: string): nat
    requires IsDecimalFormat(spec)
  {
    ParseDigits(spec[1..])
  }

  /** The three component formats `CreateVersionString` indexes. */
  predicate Creatable(formatParts: seq<string>) {
    |formatParts| >= 3 &&
    IsDecimalFormat(formatParts[0]) && IsDecimalFormat(formatParts[1]) && IsDecimalFormat(formatParts[2])
  }

  /** `CreateVersionString`: version 0.0.0 rendered with the three formats. */
  function CreateVersionString(formatParts: seq<string>): (r: string)
    requires Creatable(formatParts)
    ensures Split(r, '.') ==
      [Zeros(Max(1, Precision(formatParts[0]))), Zeros(Max(1, Precision(formatParts[1]))), Zeros(Max(1, Precision(formatParts[2])))]
  {
    var formattedNum1 := FormatD(0, Precision(formatParts[0]));
    var formattedNum2 := FormatD(0, Precision(formatParts[1]));
    var formattedNum3 := FormatD(0, Precision(formatParts[2]));
    ZeroRendering(Precision(formatParts[0]));
    ZeroRendering(Precision(formatParts[1]));
    ZeroRendering(Precision(formatParts[2]));
    SplitJoin3(formattedNum1, formattedNum2, formattedNum3, '.');
    formattedNum1 + "." + formattedNum2 + "." + formattedNum3
  }

  lemma ZeroRendering(precision: nat)
    ensures FormatD(0, precision) == Zeros(Max(1, precision))
  {
    assert NatToDigits(0) == "0";
    var r := FormatD(0, precision);
    assert |r| == Max(1, precision);
    forall i | 0 <= i < |r| ensures r[i] == '0' {
      if precision > 1 && i < precision - 1 {
        assert r[i] == Zeros(precision - 1)[i];
      }
    }
  }

  lemma DefaultPatternIsZeroZeroZero()
    ensures Creatable(["D1", "D1", "D1"]) && CreateVersionString(["D1", "D1", "D1"]) == "0.0.0"
  {
    assert ParseDigits("1") == 1 by { assert "1"[..0] == ""; }
    assert ParseDigits(["D1", "D1", "D1"][0][1..]) == 1 by { assert ["D1", "D1", "D1"][0][1..] == "1"; }
    ZeroRendering(1);
    assert Zeros(1) == "0";
  }

  lemma WidePatternExample()
    ensures Creatable(["D1", "D2", "D3"]) && CreateVersionString(["D1", "D2", "D3"]) == "0.00.000"
  {
    var fp := ["D1", "D2", "D3"];
    assert fp[0][1..] == "1" && fp[1][1..] == "2" && fp[2][1..] == "3";
    assert ParseDigits("1") == 1 by { assert "1"[..0] == ""; }
    assert ParseDigits("2") == 2 by { assert "2"[..0] == ""; }
    assert ParseDigits("3") == 3 by { assert "3"[..0] == ""; }
    ZeroRendering(1);
    ZeroRendering(2);
    ZeroRendering(3);
    assert Zeros(1) == "0" && Zeros(2) == "00" && Zeros(3) == "000";
  }

  /** `IncrementAndFormatNumber`: parse, add one on a 32-bit int, re-render. */
  function IncrementAndFormatNumber(dailyPart: string, format: string): (r: string)
    requires IsInt32Digits(dailyPart) && IsDecimalFormat(format)
    ensures ParseDigits(dailyPart) < IntMax ==>
      IsDigits(r) && ParseDigits(r) == ParseDigits(dailyPart) + 1 &&
      |r| == Max(Precision(format), |NatToDigits(ParseDigits(dailyPart) + 1)|)
    ensures ParseDigits(dailyPart) == IntMax ==> r == FormatD(IntMin, Precision(format)) && r[0] == '-'
    ensures '.' !in r
  {
    var number := Int32Increment(ParseDigits(dailyPart));
    FormatD(number, Precision(format))
  }

  /** The result may be wider than the format: "9" with D1 gives "10". */
  lemma IncrementWidens()
    ensures IsInt32Digits("9") && IsDecimalFormat("D1") && IncrementAndFormatNumber("9", "D1") == "10"
  {
    assert ParseDigits("9") == 9 by { assert "9"[..0] == ""; }
    assert ParseDigits("D1"[1..]) == 1 by { assert "D1"[1..] == "1" && "1"[..0] == ""; }
    assert NatToDigits(1) == "1";
    assert NatToDigits(10) == "10";
  }

  /** Which '.'-component a build type bumps. */
  function ComponentIndex(eBuildType: EBuildType): Option<nat>
  {
    match eBuildType
    case RELEASE => Some(0)
    case MILESTONE => Some(1)
    case DAILY => Some(2)
    case DEVELOPMENT => None
  }

  /** The component formats: "D1","D1","D1" when no pattern is given. */
  function FormatParts(formatPattern: string): seq<string>
  {
    if |formatPattern| == 0 then ["D1", "D1", "D1"] else Split(formatPattern, '_')
  }

  /** `pattern`: the given version pattern, or 0.0.0 rendered with the formats. */
  function Pattern(versionPattern: string, formatParts: seq<string>): string
    requires |versionPattern| == 0 ==> Creatable(formatParts)
  {
    if |versionPattern| == 0 then CreateVersionString(formatParts) else versionPattern
  }

  /** The record the call works on: the stored one, else a fresh one for the pattern. */
  function Loaded(eBuildType: EBuildType, stored: Option<CustomBuildData>, pattern: string): CustomBuildData
  {
    if stored.Some? then stored.value else CustomBuildData(eBuildType, pattern)
  }

  /** The version whose parts are bumped (the nested conditional at lines 34-38). */
  function BaseVersion(version: string, versionPattern: string, pattern: string): string
  {
    if |version| == 0 then (if |versionPattern| == 0 then pattern else versionPattern) else version
  }

  /** The base version is the stored version if non-empty, else the version
      pattern if non-empty, else the generated zero pattern. */
  lemma BaseVersionChoice(stored: Option<CustomBuildData>, eBuildType: EBuildType, versionPattern: string, formatParts: seq<string>)
    requires |versionPattern| == 0 ==> Creatable(formatParts)
    ensures var pattern := Pattern(versionPattern, formatParts);
      var base := BaseVersion(Loaded(eBuildType, stored, pattern).Version, versionPattern, pattern);
      base == if stored.Some? && |stored.value.Version| > 0 then stored.value.Version
              else if |versionPattern| > 0 then versionPattern
              else CreateVersionString(formatParts)
  {
  }

  /** What `IncrementVersion` needs in order not to throw: the formats are
      renderable where used, and the bumped component and its format exist
      and parse. */
  predicate IncrementAccepts(eBuildType: EBuildType, stored: Option<CustomBuildData>, versionPattern: string, formatPattern: string)
  {
    var fp := FormatParts(formatPattern);
    (|versionPattern| == 0 ==> Creatable(fp)) &&
    var pattern := Pattern(versionPattern, fp);
    var parts := Split(BaseVersion(Loaded(eBuildType, stored, pattern).Version, versionPattern, pattern), '.');
    match ComponentIndex(eBuildType)
    case None => true
    case Some(k) => k < |parts| && k < |fp| && IsInt32Digits(parts[k]) && IsDecimalFormat(fp[k])
  }

  /** `parts` after the switch at lines 40-53: one slot replaced, the rest kept. */
  predicate Bumped(parts: seq<string>, newParts: seq<string>, k: Option<nat>, fp: seq<string>)
  {
    |newParts| == |parts| &&
    (forall i :: 0 <= i < |parts| && k != Some(i) ==> newParts[i] == parts[i]) &&
    (k.Some? ==> k.value < |parts| && k.value < |fp| && IsInt32Digits(parts[k.value]) && IsDecimalFormat(fp[k.value]) &&
                 newParts[k.value] == IncrementAndFormatNumber(parts[k.value], fp[k.value]))
  }

  /** The switch at lines 40-53: the selected slot of `parts` is replaced,
      in place, by its increment. */
  method BumpComponent(parts: array<string>, eBuildType: EBuildType, formatParts: seq<string>)
    requires NoSep(parts[..], '.')
    requires match ComponentIndex(eBuildType)
      case None => true
      case Some(k) => k < parts.Length && k < |formatParts| && IsInt32Digits(parts[k]) && IsDecimalFormat(formatParts[k])
    modifies parts
    ensures Bumped(old(parts[..]), parts[..], ComponentIndex(eBuildType), formatParts)
    ensures NoSep(parts[..], '.')
  {
    ghost var before := parts[..];
    match eBuildType {
      case RELEASE =>
        parts[0] := IncrementAndFormatNumber(parts[0], formatParts[0]);
        BumpSlot(before, 0, formatParts);
      case MILESTONE =>
        parts[1] := IncrementAndFormatNumber(parts[1], formatParts[1]);
        BumpSlot(before, 1, formatParts);
      case DAILY =>
        parts[2] := IncrementAndFormatNumber(parts[2], formatParts[2]);
        BumpSlot(before, 2, formatParts);
      case DEVELOPMENT =>
    }
  }

  /**
   * `IncrementVersion`. Returns the new version, the `buildData` out-parameter
   * and the records written to the version file, in order: the pattern first
   * when there was no file, then the new version.
   */
  method IncrementVersion(eBuildType: EBuildType, stored: Option<CustomBuildData>, versionPattern: string, formatPattern: string)
    returns (newVersion: string, buildData: CustomBuildData, versionFile: seq<CustomBuildData>)
    requires IncrementAccepts(eBuildType, stored, versionPattern, formatPattern)
    ensures var fp := FormatParts(formatPattern);
      var pattern := Pattern(versionPattern, fp);
      var loaded := Loaded(eBuildType, stored, pattern);
      var parts := Split(BaseVersion(loaded.Version, versionPattern, pattern), '.');
      && Bumped(parts, Split(newVersion, '.'), ComponentIndex(eBuildType), fp)
      && buildData == CustomBuildData(loaded.BuildType, newVersion)
      && versionFile == (if stored.None? then [CustomBuildData(eBuildType, pattern)] else []) + [CustomBuildData(eBuildType, newVersion)]
  {
    var formatParts := FormatParts(formatPattern);
    var pattern := if |versionPattern| == 0 then CreateVersionString(formatParts) else versionPattern;
    versionFile := [];

    var customBuildData: CustomBuildData;
    if stored.None? {
      customBuildData := CustomBuildData(eBuildType, pattern);
      versionFile := versionFile + [customBuildData];
    } else {
      customBuildData := stored.value;
    }
    buildData := customBuildData;

    var version := customBuildData.Version;
    var base := if |version| == 0 then (if |versionPattern| == 0 then pattern else versionPattern) else version;
    assert base == BaseVersion(version, versionPattern, pattern);
    newVersion := BumpVersion(base, eBuildType, formatParts);

    buildData := buildData.(Version := newVersion);
    versionFile := versionFile + [CustomBuildData(eBuildType, newVersion)];
  }

  /** Lines 32-55: split the base on '.', bump the build type's component and
      join the parts again. */
  method BumpVersion(base: string, eBuildType: EBuildType, formatParts: seq<string>) returns (newVersion: string)
    requires var split := Split(base, '.');
      match ComponentIndex(eBuildType)
      case None => true
      case Some(k) => k < |split| && k < |formatParts| && IsInt32Digits(split[k]) && IsDecimalFormat(formatParts[k])
    ensures Bumped(Split(base, '.'), Split(newVersion, '.'), ComponentIndex(eBuildType), formatParts)
  {
    var split := Split(base, '.');
    var parts := new string[|split|](i requires 0 <= i < |split| => split[i]);
    assert parts[..] == split;
    SplitHasNoSep(base, '.');

    BumpComponent(parts, eBuildType, formatParts);
    assert Bumped(split, parts[..], ComponentIndex(eBuildType), formatParts);

    assert NoSep(parts[..], '.');
    newVersion := Join(parts[..], '.');
    SplitJoin(parts[..], '.');
  }

  /** Replacing slot `k` by its increment is a bump of `k`, keeping the
      other slots free of '.'. */
  lemma BumpSlot(parts: seq<string>, k: nat, fp: seq<string>)
    requires k < |parts| && k < |fp| && IsInt32Digits(parts[k]) && IsDecimalFormat(fp[k])
    requires NoSep(parts, '.')
    ensures Bumped(parts, parts[k := IncrementAndFormatNumber(parts[k], fp[k])], Some(k), fp)
    ensures NoSep(parts[k := IncrementAndFormatNumber(parts[k], fp[k])], '.')
  {
  }

  /** A bump keeps the number of components and changes only the selected one;
      DEVELOPMENT changes none, and no lower component is reset. */
  lemma BumpTouchesOnlyItsComponent(parts: seq<string>, newParts: seq<string>, eBuildType: EBuildType, fp: seq<string>)
    requires Bumped(parts, newParts, ComponentIndex(eBuildType), fp)
    ensures eBuildType == DEVELOPMENT ==> newParts == parts
    ensures eBuildType == RELEASE ==> newParts[1..] == parts[1..]
    ensures eBuildType == MILESTONE ==> newParts[..1] == parts[..1] && newParts[2..] == parts[2..]
    ensures eBuildType == DAILY ==> newParts[..2] == parts[..2] && newParts[3..] == parts[3..]
  {
  }

  /** `LoadOrSaveVersionFromFile`: the stored record, or the default build type
      at version 0.0.0, which is then written to the file. */
  method LoadOrSaveVersionFromFile(stored: Option<CustomBuildData>)
    returns (buildData: CustomBuildData, versionFile: seq<CustomBuildData>)
    ensures stored.Some? ==> buildData == stored.value && versionFile == []
    ensures stored.None? ==> buildData == CustomBuildData(DefaultBuildType, "0.0.0") && versionFile == [buildData]
  {
    if stored.Some? {
      buildData := stored.value;
      versionFile := [];
      return;
    }
    DefaultPatternIsZeroZeroZero();
    var pattern := CreateVersionString(["D1", "D1", "D1"]);
    buildData := CustomBuildData(DefaultBuildType, pattern);
    versionFile := [CustomBuildData(buildData.BuildType, buildData.Version)];
  }
}

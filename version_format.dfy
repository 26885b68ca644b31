/**
 * Version strings "a.b.c" and their zero-padded formats, as the build
 * settings window classifies and rewrites them.
 */
module VersionFormat {
  import opened Text

  /** The named members of `EVersionFormatType`; `Undefined` stands for an
      underlying enum value that names none of them. */
  datatype EVersionFormatType =
    | D1_D1_D1 | D1_D1_D2 | D1_D1_D3 | D1_D2_D2
    | D1_D2_D3 | D1_D3_D3 | D2_D2_D3 | D2_D3_D3
    | Undefined(code: int)

  /** `default(EVersionFormatType)`: the member whose value is 0. The enum's
      declaration is not part of this model, so the constant is left open. */
  const DefaultFormat: EVersionFormatType

  /** The zero-padding width of each component, as the member's name says. */
  function Widths(f: EVersionFormatType): (w: seq<nat>)
    requires !f.Undefined?
    ensures |w| == 3
    ensures forall i :: 0 <= i < 3 ==> 1 <= w[i] <= 3
  {
    match f
    case D1_D1_D1 => [1, 1, 1]
    case D1_D1_D2 => [1, 1, 2]
    case D1_D1_D3 => [1, 1, 3]
    case D1_D2_D2 => [1, 2, 2]
    case D1_D2_D3 => [1, 2, 3]
    case D1_D3_D3 => [1, 3, 3]
    case D2_D2_D3 => [2, 2, 3]
    case D2_D3_D3 => [2, 3, 3]
  }

  /** The three segment lengths of a version string, when it has three. */
  function SegmentLengths(version: string): seq<nat>
  {
    var parts := Split(version, '.');
    if |parts| == 3 then [|parts[0]|, |parts[1]|, |parts[2]|] else []
  }

  /**
   * `GetFormatTypeFromString` as written: the second (1,1,3) test repeats the
   * first, so lengths (1,2,2) are never recognised and D1_D2_D2 is only ever
   * returned as the default.
   */
  function GetFormatTypeFromString(versionString: string): (r: EVersionFormatType)
    ensures |Split(versionString, '.')| != 3 ==> r == DefaultFormat
    ensures r != DefaultFormat ==> !r.Undefined? && r != D1_D2_D2 && SegmentLengths(versionString) == Widths(r)
  {
    var parts := Split(versionString, '.');
    if |parts| != 3 || |versionString| == 0 then DefaultFormat
    else
      var length1, length2, length3 := |parts[0]|, |parts[1]|, |parts[2]|;
      if length1 == 1 && length2 == 1 && length3 == 1 then D1_D1_D1
      else if length1 == 1 && length2 == 1 && length3 == 2 then D1_D1_D2
      else if length1 == 1 && length2 == 1 && length3 == 3 then D1_D1_D3
      else if length1 == 1 && length2 == 1 && length3 == 3 then D1_D2_D2
      else if length1 == 1 && length2 == 2 && length3 == 3 then D1_D2_D3
      else if length1 == 1 && length2 == 3 && length3 == 3 then D1_D3_D3
      else if length1 == 2 && length2 == 2 && length3 == 3 then D2_D2_D3
      else if length1 == 2 && length2 == 3 && length3 == 3 then D2_D3_D3
      else DefaultFormat
  }

  /** Every named format but D1_D2_D2 is recognised from its segment lengths. */
  lemma FormatFromLengths(versionString: string, f: EVersionFormatType)
    requires !f.Undefined? && f != D1_D2_D2
    requires SegmentLengths(versionString) == Widths(f)
    ensures GetFormatTypeFromString(versionString) == f
  {
  }

  /** A string with segment lengths (1,2,2) is classified as the default. */
  lemma OneTwoTwoGivesDefault(versionString: string)
    requires SegmentLengths(versionString) == [1, 2, 2]
    ensures GetFormatTypeFromString(versionString) == DefaultFormat
  {
  }

  lemma OneTwoTwoExample()
    ensures GetFormatTypeFromString("1.22.33") == DefaultFormat
  {
    SplitJoin3("1", "22", "33", '.');
    assert "1" + ['.'] + "22" + ['.'] + "33" == "1.22.33";
  }

  /** The classification the chain of tests evidently intends: line 94 testing
      (1,2,2), so that every named format is recognised from its widths. */
  function IntendedFormatTypeFromString(versionString: string): (r: EVersionFormatType)
    ensures |Split(versionString, '.')| != 3 ==> r == DefaultFormat
    ensures r != DefaultFormat ==> !r.Undefined? && SegmentLengths(versionString) == Widths(r)
  {
    var parts := Split(versionString, '.');
    if |parts| != 3 || |versionString| == 0 then DefaultFormat
    else
      var length1, length2, length3 := |parts[0]|, |parts[1]|, |parts[2]|;
      if length1 == 1 && length2 == 1 && length3 == 1 then D1_D1_D1
      else if length1 == 1 && length2 == 1 && length3 == 2 then D1_D1_D2
      else if length1 == 1 && length2 == 1 && length3 == 3 then D1_D1_D3
      else if length1 == 1 && length2 == 2 && length3 == 2 then D1_D2_D2
      else if length1 == 1 && length2 == 2 && length3 == 3 then D1_D2_D3
      else if length1 == 1 && length2 == 3 && length3 == 3 then D1_D3_D3
      else if length1 == 2 && length2 == 2 && length3 == 3 then D2_D2_D3
      else if length1 == 2 && length2 == 3 && length3 == 3 then D2_D3_D3
      else DefaultFormat
  }

  /** With the intended test every named format is recognised. */
  lemma IntendedFormatFromLengths(versionString: string, f: EVersionFormatType)
    requires !f.Undefined?
    requires SegmentLengths(versionString) == Widths(f)
    ensures IntendedFormatTypeFromString(versionString) == f
  {
  }

  /** `ConvertVersionFormat` parses all three parts before its switch, so each
      must be accepted by `int.Parse`. */
  predicate Parsable(version: string) {
    var parts := Split(version, '.');
    |parts| == 3 ==> IsInt32Digits(parts[0]) && IsInt32Digits(parts[1]) && IsInt32Digits(parts[2])
  }

  function Version3(a: string, b: string, c: string): string {
    a + "." + b + "." + c
  }

  /** Three components rendered with `FormatD` split back into those renderings. */
  lemma RenderedParts(n1: nat, n2: nat, n3: nat, w1: nat, w2: nat, w3: nat)
    requires n1 <= IntMax && n2 <= IntMax && n3 <= IntMax
    ensures var a, b, c := FormatD(n1, w1), FormatD(n2, w2), FormatD(n3, w3);
      Split(Version3(a, b, c), '.') == [a, b, c] && Parsable(Version3(a, b, c))
  {
    var a, b, c := FormatD(n1, w1), FormatD(n2, w2), FormatD(n3, w3);
    assert Version3(a, b, c) == a + ['.'] + b + ['.'] + c;
    SplitJoin3(a, b, c, '.');
  }

  /** `ConvertVersionFormat`: re-render the three components at the widths of
      `newFormat`; anything else comes back unchanged. */
  function ConvertVersionFormat(version: string, newFormat: EVersionFormatType): (r: string)
    requires Parsable(version)
    ensures |Split(version, '.')| != 3 || newFormat.Undefined? ==> r == version
    ensures Parsable(r)
  {
    var parts := Split(version, '.');
    if |parts| != 3 then version
    else
      var part1, part2, part3 := ParseDigits(parts[0]), ParseDigits(parts[1]), ParseDigits(parts[2]);
      var r := match newFormat
        case D1_D1_D1 => Version3(FormatD(part1, 1), FormatD(part2, 1), FormatD(part3, 1))
        case D1_D1_D2 => Version3(FormatD(part1, 1), FormatD(part2, 1), FormatD(part3, 2))
        case D1_D1_D3 => Version3(FormatD(part1, 1), FormatD(part2, 1), FormatD(part3, 3))
        case D1_D2_D2 => Version3(FormatD(part1, 1), FormatD(part2, 2), FormatD(part3, 2))
        case D1_D2_D3 => Version3(FormatD(part1, 1), FormatD(part2, 2), FormatD(part3, 3))
        case D1_D3_D3 => Version3(FormatD(part1, 1), FormatD(part2, 3), FormatD(part3, 3))
        case D2_D2_D3 => Version3(FormatD(part1, 2), FormatD(part2, 2), FormatD(part3, 3))
        case D2_D3_D3 => Version3(FormatD(part1, 2), FormatD(part2, 3), FormatD(part3, 3))
        case Undefined(_) => version;
      if newFormat.Undefined? then r
      else
        var w := Widths(newFormat);
        assert r == Version3(FormatD(part1, w[0]), FormatD(part2, w[1]), FormatD(part3, w[2]));
        RenderedParts(part1, part2, part3, w[0], w[1], w[2]);
        r
  }

  /** Each of the eight cases renders the parsed components at the member's widths. */
  lemma ConvertRendersWidths(version: string, f: EVersionFormatType)
    requires Parsable(version) && |Split(version, '.')| == 3 && !f.Undefined?
    ensures var parts, w := Split(version, '.'), Widths(f);
      ConvertVersionFormat(version, f) ==
        Version3(FormatD(ParseDigits(parts[0]), w[0]), FormatD(ParseDigits(parts[1]), w[1]), FormatD(ParseDigits(parts[2]), w[2]))
  {
  }

  /** For three digit parts and a named format, the result has three digit
      parts holding the same values, each zero-padded to at least its width. */
  lemma ConvertSpec(version: string, f: EVersionFormatType)
    requires Parsable(version)
    ensures |Split(version, '.')| == 3 && !f.Undefined? ==>
      var parts, rparts, w := Split(version, '.'), Split(ConvertVersionFormat(version, f), '.'), Widths(f);
      |rparts| == 3 &&
      forall i :: 0 <= i < 3 ==>
        IsDigits(rparts[i]) && ParseDigits(rparts[i]) == ParseDigits(parts[i]) &&
        |rparts[i]| == Max(w[i], |NatToDigits(ParseDigits(parts[i]))|)
  {
    var parts := Split(version, '.');
    if |parts| == 3 && !f.Undefined? {
      var w := Widths(f);
      ConvertRendersWidths(version, f);
      RenderedValues(ParseDigits(parts[0]), ParseDigits(parts[1]), ParseDigits(parts[2]), w[0], w[1], w[2]);
    }
  }

  /** The three renderings of a converted version keep their values and widths. */
  lemma RenderedValues(n1: nat, n2: nat, n3: nat, w1: nat, w2: nat, w3: nat)
    requires n1 <= IntMax && n2 <= IntMax && n3 <= IntMax
    ensures var rparts, n, w := Split(Version3(FormatD(n1, w1), FormatD(n2, w2), FormatD(n3, w3)), '.'), [n1, n2, n3], [w1, w2, w3];
      |rparts| == 3 &&
      forall i :: 0 <= i < 3 ==>
        IsDigits(rparts[i]) && ParseDigits(rparts[i]) == n[i] && |rparts[i]| == Max(w[i], |NatToDigits(n[i])|)
  {
    RenderedParts(n1, n2, n3, w1, w2, w3);
  }

  /** Converting twice to the same format is converting once. */
  lemma ConvertIdempotent(version: string, f: EVersionFormatType)
    requires Parsable(version)
    ensures ConvertVersionFormat(ConvertVersionFormat(version, f), f) == ConvertVersionFormat(version, f)
  {
    var parts := Split(version, '.');
    if |parts| == 3 && !f.Undefined? {
      var w := Widths(f);
      var n1, n2, n3 := ParseDigits(parts[0]), ParseDigits(parts[1]), ParseDigits(parts[2]);
      ConvertRendersWidths(version, f);
      RenderedValues(n1, n2, n3, w[0], w[1], w[2]);
      ConvertRendersWidths(ConvertVersionFormat(version, f), f);
    }
  }

  /** A converted version is classified as its format again, provided every
      component fits its width (D1_D2_D2 excepted, see line 94). */
  lemma ConvertThenClassify(version: string, f: EVersionFormatType)
    requires Parsable(version) && |Split(version, '.')| == 3
    requires !f.Undefined? && f != D1_D2_D2
    requires var parts := Split(version, '.');
      forall i :: 0 <= i < 3 ==> |NatToDigits(ParseDigits(parts[i]))| <= Widths(f)[i]
    ensures GetFormatTypeFromString(ConvertVersionFormat(version, f)) == f
  {
    var r := ConvertVersionFormat(version, f);
    ConvertSpec(version, f);
    assert SegmentLengths(r) == Widths(f);
    FormatFromLengths(r, f);
  }

  /** Under the intended classification the round trip holds for all eight. */
  lemma IntendedConvertThenClassify(version: string, f: EVersionFormatType)
    requires Parsable(version) && |Split(version, '.')| == 3
    requires !f.Undefined?
    requires var parts := Split(version, '.');
      forall i :: 0 <= i < 3 ==> |NatToDigits(ParseDigits(parts[i]))| <= Widths(f)[i]
    ensures IntendedFormatTypeFromString(ConvertVersionFormat(version, f)) == f
  {
    var r := ConvertVersionFormat(version, f);
    ConvertSpec(version, f);
    assert SegmentLengths(r) == Widths(f);
    IntendedFormatFromLengths(r, f);
  }

  lemma ExampleParts()
    ensures Split("1.007.3", '.') == ["1", "007", "3"] && Parsable("1.007.3")
  {
    SplitJoin3("1", "007", "3", '.');
    assert "1" + ['.'] + "007" + ['.'] + "3" == "1.007.3";
    assert ParseDigits("007") == 7 by {
      assert "007"[..2] == "00" && "00"[..1] == "0" && "0"[..0] == "";
    }
  }

  /** Input leading zeros are not preserved: "1.007.3" becomes "1.7.3" in D1_D1_D1. */
  lemma LeadingZerosDropped()
    ensures Parsable("1.007.3") && ConvertVersionFormat("1.007.3", D1_D1_D1) == "1.7.3"
  {
    ExampleParts();
    ConvertRendersWidths("1.007.3", D1_D1_D1);
    assert ParseDigits("007") == 7 by {
      assert "007"[..2] == "00" && "00"[..1] == "0" && "0"[..0] == "";
    }
    assert ParseDigits("1") == 1 by { assert "1"[..0] == ""; }
    assert ParseDigits("3") == 3 by { assert "3"[..0] == ""; }
    assert FormatD(1, 1) == "1" && FormatD(7, 1) == "7" && FormatD(3, 1) == "3";
  }
}

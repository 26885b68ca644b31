/**
 * `CategoryHelper.DetermineCategory`: the report category of an asset path,
 * chosen by its lower-cased final extension (`Path.GetExtension`).
 */
module CategoryHelper {
  import opened Wrappers
  import opened Text

  /** Directory separators that end the search for an extension. */
  predicate IsSeparator(c: char) {
    c == '/' || c == '\\'
  }

  /** Scanning `path[..i]` back from its end: the index of the last '.'
      that is not followed by a separator. */
  function LastDot(path: string, i: nat): (d: Option<nat>)
    requires i <= |path|
    ensures d.Some? ==> d.value < i && path[d.value] == '.'
    ensures d.Some? ==> forall m :: d.value < m < i ==> path[m] != '.' && !IsSeparator(path[m])
    ensures d.None? ==> forall m :: 0 <= m < i ==> path[m] != '.' || exists n :: m < n < i && IsSeparator(path[n])
    decreases i
  {
    if i == 0 then None
    else if path[i - 1] == '.' then Some(i - 1)
    else if IsSeparator(path[i - 1]) then None
    else LastDot(path, i - 1)
  }

  /** `Path.GetExtension(path)`: from the last '.' of the file name to the end,
      or "" when the name has no '.' or ends with one. */
  function GetExtension(path: string): (ext: string)
    ensures ext != "" ==> |ext| >= 2 && ext[0] == '.' && |ext| <= |path| && path[|path| - |ext|..] == ext
    ensures ext != "" ==> forall m :: 1 <= m < |ext| ==> ext[m] != '.' && !IsSeparator(ext[m])
  {
    match LastDot(path, |path|)
    case None => ""
    case Some(d) => if d == |path| - 1 then "" else path[d..]
  }

  /** The eleven labels `DetermineCategory` can return. */
  const Categories: set<string> := {
    "Textures", "Meshes", "Animations", "Sounds", "Shaders", "Materials",
    "Prefabs", "Other Assets", "Scripts", "Included DLLs", "Unknown"
  }

  const TextureExtensions: set<string> := {".png", ".jpg", ".jpeg", ".tga", ".bmp", ".psd", ".psb", ".gif", ".hdr", ".exr"}
  const MeshExtensions: set<string> := {".fbx", ".obj", ".3ds", ".max", ".blend"}
  const AnimationExtensions: set<string> := {".anim", ".controller"}
  const SoundExtensions: set<string> := {".mp3", ".wav", ".ogg"}

  /** The `switch` on the lower-cased extension. */
  function CategoryOfExtension(extension: string): string
  {
    if extension in TextureExtensions then "Textures"
    else if extension in MeshExtensions then "Meshes"
    else if extension in AnimationExtensions then "Animations"
    else if extension in SoundExtensions then "Sounds"
    else if extension == ".shader" then "Shaders"
    else if extension == ".mat" then "Materials"
    else if extension == ".prefab" then "Prefabs"
    else if extension == ".asset" then "Other Assets"
    else if extension == ".cs" then "Scripts"
    else if extension == ".dll" then "Included DLLs"
    else "Unknown"
  }

  /** `DetermineCategory`. */
  function DetermineCategory(path: string): string
  {
    var extension := ToLower(GetExtension(path));
    CategoryOfExtension(extension)
  }

  /** The result is always one of the eleven labels, and "Unknown" exactly
      for an extension that is not listed. */
  lemma ExtensionTable(extension: string)
    ensures CategoryOfExtension(extension) in Categories
    ensures CategoryOfExtension(extension) == "Unknown" <==>
      extension !in TextureExtensions + MeshExtensions + AnimationExtensions + SoundExtensions +
                    {".shader", ".mat", ".prefab", ".asset", ".cs", ".dll"}
  {
  }

  /** A path without an extension is "Unknown"; every path gets a label. */
  lemma CategoryIsLabel(path: string)
    ensures DetermineCategory(path) in Categories
    ensures GetExtension(path) == "" ==> DetermineCategory(path) == "Unknown"
  {
    ExtensionTable(ToLower(GetExtension(path)));
  }

  // ---- case-insensitivity ----

  lemma {:induction false} LastDotIgnoresCase(path: string, i: nat)
    requires i <= |path|
    ensures LastDot(ToLower(path), i) == LastDot(path, i)
    decreases i
  {
    if i > 0 {
      assert ToLower(path)[i - 1] == ToLowerChar(path[i - 1]);
      LastDotIgnoresCase(path, i - 1);
    }
  }

  /** Lower-casing commutes with taking the extension. */
  lemma ExtensionOfLowered(path: string)
    ensures GetExtension(ToLower(path)) == ToLower(GetExtension(path))
  {
    LastDotIgnoresCase(path, |path|);
    match LastDot(path, |path|)
    case None =>
    case Some(d) =>
      if d != |path| - 1 {
        assert ToLower(path)[d..] == ToLower(path[d..]);
      }
  }

  lemma ToLowerIdempotent(s: string)
    ensures ToLower(ToLower(s)) == ToLower(s)
  {
  }

  /** The category depends only on the lower-cased path: "A.PNG" and
      "a.png" agree. */
  lemma CategoryIgnoresCase(p: string, q: string)
    requires ToLower(p) == ToLower(q)
    ensures DetermineCategory(p) == DetermineCategory(q)
  {
    ExtensionOfLowered(p);
    ExtensionOfLowered(q);
  }

  // ---- the final extension ----

  /** The extension of `prefix + "." + name`, for a name with no '.' and no
      separator, is "." + name, whatever `prefix` holds. */
  lemma {:induction false} FinalExtension(prefix: string, name: string)
    requires |name| > 0 && '.' !in name && forall m :: 0 <= m < |name| ==> !IsSeparator(name[m])
    ensures GetExtension(prefix + "." + name) == "." + name
  {
    var path := prefix + "." + name;
    LastDotAfter(path, |prefix|, |path|);
    assert path[|prefix|..] == "." + name;
  }

  lemma {:induction false} LastDotAfter(path: string, d: nat, i: nat)
    requires d < i <= |path| && path[d] == '.'
    requires forall m :: d < m < |path| ==> path[m] != '.' && !IsSeparator(path[m])
    ensures LastDot(path, i) == Some(d)
    decreases i
  {
    if i - 1 != d {
      LastDotAfter(path, d, i - 1);
    }
  }

  /** Only the final extension counts: a prefix that itself carries an
      extension does not change the category. */
  lemma OnlyFinalExtensionCounts(prefix: string, name: string)
    requires |name| > 0 && '.' !in name && forall m :: 0 <= m < |name| ==> !IsSeparator(name[m])
    ensures DetermineCategory(prefix + "." + name) == CategoryOfExtension(ToLower("." + name))
  {
    FinalExtension(prefix, name);
  }

  /** A file name without '.' has no extension and is "Unknown". */
  lemma {:induction false} NoDotNoExtension(prefix: string, name: string)
    requires '.' !in name
    requires |prefix| > 0 ==> IsSeparator(prefix[|prefix| - 1])
    ensures GetExtension(prefix + name) == ""
    ensures DetermineCategory(prefix + name) == "Unknown"
  {
    var path := prefix + name;
    NoDotScan(path, |prefix|, |path|);
    CategoryIsLabel(path);
  }

  lemma {:induction false} NoDotScan(path: string, start: nat, i: nat)
    requires start <= i <= |path|
    requires forall m :: start <= m < |path| ==> path[m] != '.'
    requires start > 0 ==> IsSeparator(path[start - 1])
    ensures LastDot(path, i) == None
    decreases i
  {
    if i > start {
      NoDotScan(path, start, i - 1);
    }
  }

  /** "x.png.mat" is a material. */
  lemma MaterialExample()
    ensures DetermineCategory("x.png.mat") == "Materials"
  {
    assert "x.png.mat" == "x.png" + "." + "mat";
    FinalExtension("x.png", "mat");
    assert ToLower(".mat") == ".mat";
  }

  /** "Textures/A.PNG" is a texture. */
  lemma UpperCaseExample()
    ensures DetermineCategory("Textures/A.PNG") == "Textures"
  {
    assert "Textures/A.PNG" == "Textures/A" + "." + "PNG";
    FinalExtension("Textures/A", "PNG");
    assert ToLower(".PNG") == ".png";
  }
}

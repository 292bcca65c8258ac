/** The two pieces of path handling the loaders do before reading a file:
    the directory a document's relative references are resolved against,
    and the decoder its extension selects. */
module Paths {
  import opened Results

  /** std::string::find_last_of for one character: the index of its last
      occurrence, None for npos. */
  function LastIndexOf(s: string, c: char): (r: Option<nat>)
    ensures r.Some? ==> r.value < |s| && s[r.value] == c
    ensures r.Some? ==> forall k :: r.value < k < |s| ==> s[k] != c
    ensures r.None? ==> forall k :: 0 <= k < |s| ==> s[k] != c
  {
    if s == [] then None
    else if s[|s| - 1] == c then Some(|s| - 1)
    else LastIndexOf(s[..|s| - 1], c)
  }

  /** The base file path: everything up to and including the last '/', or
      the empty string when the path has none. */
  function BasePath(path: string): string {
    match LastIndexOf(path, '/')
    case Some(pos) => path[..pos + 1]
    case None => ""
  }

  /** The base path is a prefix of the path that is empty or ends in '/',
      and no '/' follows it: it is empty exactly when the path has no '/'. */
  lemma BasePathShape(path: string)
    ensures var base := BasePath(path);
      |base| <= |path| && base == path[..|base|]
      && (base == [] || base[|base| - 1] == '/')
      && (forall k :: |base| <= k < |path| ==> path[k] != '/')
      && (base == [] <==> '/' !in path)
  {
    var base := BasePath(path);
    if base != [] {
      assert path[|base| - 1] == '/';
    }
  }

  /** A directory joined to a file name without '/' gives that directory back. */
  lemma BasePathOfJoin(dir: string, name: string)
    requires dir != [] && dir[|dir| - 1] == '/'
    requires '/' !in name
    ensures BasePath(dir + name) == dir
  {
    var path := dir + name;
    assert path[|dir| - 1] == '/';
    assert forall k :: |dir| <= k < |path| ==> path[k] == name[k - |dir|];
    match LastIndexOf(path, '/')
    case Some(pos) =>
      assert pos == |dir| - 1;
      assert path[..pos + 1] == dir;
    case None =>
      assert false;
  }

  /** The two configuration formats, DragonBone_XML and CocoStudio_JSON. */
  datatype ConfigType = DragonBoneXml | CocoStudioJson

  /** The extension the loaders compare: the suffix from the last '.'. With
      no '.' the source indexes past the end of the string; None here. */
  function Extension(path: string): (r: Option<string>)
    ensures r.Some? ==> |r.value| > 0 && r.value[0] == '.' && '.' !in r.value[1..]
    ensures r.Some? ==> |r.value| <= |path| && path[|path| - |r.value|..] == r.value
    ensures r.None? <==> '.' !in path
  {
    match LastIndexOf(path, '.')
    case Some(pos) =>
      assert path[pos..][1..] == path[pos + 1..];
      Some(path[pos..])
    case None =>
      None
  }

  /** The decoder an extension selects: ".xml" the XML decoder, ".json" and
      ".ExportJson" the JSON decoder, anything else neither. */
  function ConfigTypeOf(path: string): Option<ConfigType> {
    match Extension(path)
    case Some(ext) =>
      if ext == ".xml" then Some(DragonBoneXml)
      else if ext == ".json" || ext == ".ExportJson" then Some(CocoStudioJson)
      else None
    case None => None
  }

  /** A name ending in one of the three extensions gets its decoder whatever
      comes before it, dots included. */
  lemma ConfigTypeOfSuffix(stem: string)
    ensures ConfigTypeOf(stem + ".xml") == Some(DragonBoneXml)
    ensures ConfigTypeOf(stem + ".json") == Some(CocoStudioJson)
    ensures ConfigTypeOf(stem + ".ExportJson") == Some(CocoStudioJson)
  {
    SuffixExtension(stem, ".xml");
    SuffixExtension(stem, ".json");
    SuffixExtension(stem, ".ExportJson");
  }

  lemma SuffixExtension(stem: string, ext: string)
    requires |ext| > 0 && ext[0] == '.' && '.' !in ext[1..]
    ensures Extension(stem + ext) == Some(ext)
  {
    var path := stem + ext;
    assert path[|stem|] == '.';
    assert forall k :: |stem| < k < |path| ==> path[k] == ext[1..][k - |stem| - 1];
    match LastIndexOf(path, '.')
    case Some(pos) =>
      assert pos == |stem|;
      assert path[pos..] == ext;
    case None =>
      assert false;
  }

  /** A name whose last extension is another one, such as ".plist" or
      ".xml.bak", selects no decoder. */
  lemma OtherExtensionsIgnored(stem: string, ext: string)
    requires |ext| > 0 && ext[0] == '.' && '.' !in ext[1..]
    requires ext != ".xml" && ext != ".json" && ext != ".ExportJson"
    ensures ConfigTypeOf(stem + ext) == None
  {
    SuffixExtension(stem, ext);
  }
}

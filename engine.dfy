/** Package metadata and the helpers shared by the simple package engine
    (lib/sep.js) and the pad engine plugin: `cutUid`, `getTags`,
    `resolveAsset`, the package file-name pattern and sep's `isMatch`. */
module Engine {
  import opened Wrappers
  import Words
  import Builds

  datatype Image = Image(imageType: string, src: string)

  /** `metadata.content`: its text fields by name, the raw tag list and the images. */
  datatype Content = Content(fields: map<string, string>, tags: Option<string>, images: Option<seq<Image>>)

  /** The parsed `package.json` of a package file. */
  datatype Meta = Meta(uid: string, build: Builds.BuildField, content: Option<Content>)

  function Min(a: int, b: int): int { if a < b then a else b }

  /** `uid.substring(0, 7) + ".." + uid.substring(uid.length - 7)`; a negative
      start is read as 0, as JavaScript's `substring` does. */
  function CutUid(uid: string): (r: string)
    ensures var m := Min(7, |uid|);
      && |r| == 2 * m + 2
      && r[..m] == uid[..m]
      && r[m..m + 2] == ".."
      && r[m + 2..] == uid[|uid| - m..]
  {
    var head := if |uid| < 7 then uid else uid[..7];
    var tail := if |uid| < 7 then uid else uid[|uid| - 7..];
    head + ".." + tail
  }

  /** `getTags`: no tags without metadata, content or a tag list; otherwise
      the comma-separated pieces. */
  function GetTags(metadata: Option<Meta>): (r: seq<string>)
    ensures r == [] <==>
      (metadata.None? || metadata.value.content.None? || metadata.value.content.value.tags.None?)
    ensures r != [] ==>
      && |r| == Words.CountCommas(metadata.value.content.value.tags.value) + 1
      && forall k :: 0 <= k < |r| ==> ',' !in r[k]
  {
    if metadata.None? || metadata.value.content.None? || metadata.value.content.value.tags.None? then []
    else
      var t := metadata.value.content.value.tags.value;
      Words.SplitTagsPieces(t);
      Words.SplitTags(t)
  }

  /** The `src` of the first image of the given type. */
  function FirstSrc(images: seq<Image>, imageType: string): (r: Option<string>)
    ensures r.None? <==> forall i :: 0 <= i < |images| ==> images[i].imageType != imageType
    ensures r.Some? ==> exists i :: (0 <= i < |images| && images[i].imageType == imageType && images[i].src == r.value
      && forall j :: 0 <= j < i ==> images[j].imageType != imageType)
    decreases |images|
  {
    if images == [] then None
    else if images[0].imageType == imageType then Some(images[0].src)
    else
      var r := FirstSrc(images[1..], imageType);
      assert r.Some? ==> exists i :: (1 <= i < |images| && images[i].imageType == imageType && images[i].src == r.value
        && forall j :: 0 <= j < i ==> images[j].imageType != imageType) by {
        if r.Some? {
          var i :| 0 <= i < |images[1..]| && images[1..][i].imageType == imageType && images[1..][i].src == r.value
            && forall j :: 0 <= j < i ==> images[1..][j].imageType != imageType;
          assert forall j :: 1 <= j < i + 1 ==> images[j] == images[1..][j - 1];
        }
      }
      r
  }

  /** `asset` names an image when it mentions "front" or "content", in any case. */
  predicate NamesImage(asset: string) {
    var low := Words.LowerStr(asset);
    Words.Contains(low, "front") || Words.Contains(low, "content")
  }

  /** `resolveAsset`: an image asset is the first image whose type is the
      lower-cased asset name; reading the images of metadata without content
      or images throws; any other asset is unknown. */
  function ResolveAsset(metadata: Meta, asset: string): (r: Js<Option<string>>)
    ensures !NamesImage(asset) ==> r == Returned(None)
    ensures NamesImage(asset) && (metadata.content.None? || metadata.content.value.images.None?) ==> r.Threw?
    ensures NamesImage(asset) && metadata.content.Some? && metadata.content.value.images.Some? ==>
      r == Returned(FirstSrc(metadata.content.value.images.value, Words.LowerStr(asset)))
    ensures r.Returned? && r.value.Some? ==>
      var images := metadata.content.value.images.value;
      exists i :: 0 <= i < |images| && images[i].imageType == Words.LowerStr(asset) && images[i].src == r.value.value
    ensures r == Returned(None) && NamesImage(asset) ==>
      var images := metadata.content.value.images.value;
      forall i :: 0 <= i < |images| ==> images[i].imageType != Words.LowerStr(asset)
  {
    if !NamesImage(asset) then Returned(None)
    else if metadata.content.None? || metadata.content.value.images.None? then
      Threw("Cannot read property 'images' of undefined")
    else Returned(FirstSrc(metadata.content.value.images.value, Words.LowerStr(asset)))
  }

  // ------------------------------------------------------------ file pattern

  predicate IsAlnum(c: char) {
    ('a' <= c <= 'z') || ('A' <= c <= 'Z') || ('0' <= c <= '9')
  }

  /** Length of the leading run of ASCII letters and digits. */
  function AlnumRun(s: string): (n: nat)
    ensures n <= |s|
    ensures forall i :: 0 <= i < n ==> IsAlnum(s[i])
    ensures n < |s| ==> !IsAlnum(s[n])
    decreases |s|
  {
    if s != [] && IsAlnum(s[0]) then 1 + AlnumRun(s[1..]) else 0
  }

  /** A character the regular-expression `.` matches: anything but a line terminator. */
  predicate AnyButNewline(c: char) {
    c != '\n' && c != '\r' && c != '\U{2028}' && c != '\U{2029}'
  }

  /** `zip|rar|tar|tar.gz`, ignoring case; the unescaped `.` matches any character. */
  predicate IsPackageExtension(ext: string) {
    var low := Words.LowerStr(ext);
    low == "zip" || low == "rar" || low == "tar"
    || (|low| == 6 && low[..3] == "tar" && AnyButNewline(low[3]) && low[4..] == "gz")
  }

  /** `/^[a-zA-Z0-9]+\.(zip|rar|tar|tar.gz)$/i`: a non-empty alphanumeric base,
      a dot and a package extension; the base cannot hold a dot, so the
      match is cut at the first non-alphanumeric character. */
  predicate MatchesFilePattern(name: string) {
    var n := AlnumRun(name);
    0 < n < |name| && name[n] == '.' && IsPackageExtension(name[n + 1..])
  }

  /** The pattern accepts exactly the names made of an alphanumeric base, a dot and an extension. */
  lemma FilePatternSplit(base: string, ext: string)
    requires base != [] && forall i :: 0 <= i < |base| ==> IsAlnum(base[i])
    ensures MatchesFilePattern(base + "." + ext) <==> IsPackageExtension(ext)
  {
    var name := base + "." + ext;
    assert name == base + ("." + ext);
    AlnumRunOfBase(base, "." + ext);
    assert name[|base|] == '.';
    assert name[|base| + 1..] == ext;
  }

  lemma {:induction false} AlnumRunOfBase(base: string, rest: string)
    requires forall i :: 0 <= i < |base| ==> IsAlnum(base[i])
    requires rest == [] || !IsAlnum(rest[0])
    ensures AlnumRun(base + rest) == |base|
    decreases |base|
  {
    if base != [] {
      assert (base + rest)[1..] == base[1..] + rest;
      AlnumRunOfBase(base[1..], rest);
    }
  }

  /** A name with a character other than a letter, digit or the one dot never matches. */
  lemma FilePatternNeedsAlnumBase(name: string, i: int)
    requires 0 <= i < |name| && !IsAlnum(name[i]) && name[i] != '.'
    requires forall j :: 0 <= j < i ==> IsAlnum(name[j])
    ensures !MatchesFilePattern(name)
  {
    var n := AlnumRun(name);
    assert n == i;
  }

  // ------------------------------------------------------------ sep isMatch

  /** One entry of `query.filters`. */
  datatype Filter = Filter(key: string, value: string)

  /** `isMatch` accepts the metadata itself or a function that produces it. */
  datatype MetaRef = Loaded(meta: Meta) | Deferred(produce: () -> Meta)

  function Produce(m: MetaRef): Meta {
    match m
    case Loaded(meta) => meta
    case Deferred(produce) => produce()
  }

  /** `meta.content.area`, when the content has one. */
  function AreaOf(meta: Meta): Option<string> {
    if meta.content.Some? && "area" in meta.content.value.fields then Some(meta.content.value.fields["area"])
    else None
  }

  /** The value of the last `area` filter, looked up from the end. */
  function LastArea(filters: seq<Filter>): (r: Option<string>)
    ensures r.None? <==> forall i :: 0 <= i < |filters| ==> filters[i].key != "area"
    ensures r.Some? ==> exists i :: (0 <= i < |filters| && filters[i] == Filter("area", r.value)
      && forall j :: i < j < |filters| ==> filters[j].key != "area")
    decreases |filters|
  {
    if filters == [] then None
    else if filters[|filters| - 1].key == "area" then Some(filters[|filters| - 1].value)
    else LastArea(filters[..|filters| - 1])
  }

  /** Sep's `isMatch`: every `area` filter overwrites the result, so only the
      last one decides; other filters are ignored, and with no `area` filter
      nothing matches.  Reading the area of metadata without content throws. */
  method IsMatch(metadata: MetaRef, filters: seq<Filter>) returns (r: Js<bool>)
    ensures var meta := Produce(metadata);
      r.Threw? <==> (meta.content.None? && LastArea(filters).Some?)
    ensures var meta := Produce(metadata);
      r.Returned? ==> (r.value <==> LastArea(filters).Some? && AreaOf(meta) == LastArea(filters))
  {
    var meta := Produce(metadata);
    var res := false;
    for i := 0 to |filters|
      invariant meta.content.None? ==> LastArea(filters[..i]).None?
      invariant res <==> LastArea(filters[..i]).Some? && AreaOf(meta) == LastArea(filters[..i])
    {
      assert filters[..i + 1][..i] == filters[..i];
      if filters[i].key == "area" {
        if meta.content.None? {
          assert LastArea(filters[..i + 1]).Some?;
          assert filters[..|filters|][..i + 1] == filters[..i + 1];
          LastAreaOfPrefix(filters, i + 1);
          return Threw("Cannot read property 'area' of undefined");
        }
        res := AreaOf(meta) == Some(filters[i].value);
      }
    }
    assert filters[..|filters|] == filters;
    return Returned(res);
  }

  /** An `area` filter in a prefix means there is one in the whole list. */
  lemma LastAreaOfPrefix(filters: seq<Filter>, n: int)
    requires 0 <= n <= |filters| && LastArea(filters[..n]).Some?
    ensures LastArea(filters).Some?
  {
    var i :| 0 <= i < n && filters[..n][i].key == "area";
    assert filters[i].key == "area";
  }
}

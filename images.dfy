/** The image catalogue of a pass: the file names images are stored under
    (`[locale.lproj/]type[@2x|@3x].png`), the parser of such names, the size
    rules each image type must meet at each density, and the `PassImages`
    map that `add` fills and `validate` checks for the required images. */
module Images {
  import opened JsValues
  import opened Constants
  import opened OrderedMaps
  import opened Locales

  // ------------------------------------------------------------ file names

  /** A character of the `lang` group, `[-A-Z_a-z]`. */
  predicate IsLangChar(c: char) {
    c == '-' || c == '_' || 'A' <= c <= 'Z' || 'a' <= c <= 'z'
  }

  /** What `.` matches: anything but a line terminator. */
  predicate IsAnyChar(c: char) {
    c != '\n' && c != '\r' && c != '\U{2028}' && c != '\U{2029}'
  }

  /** The captures of IMAGE_FILENAME_REGEX, or what parseFilename returns. */
  datatype ImageName = ImageName(imageType: string, density: Option<string>, lang: Option<string>)

  /** `(@(?<density>[23]x))?.png$` over the rest of the name: the density
      captured, if any. */
  function MatchSuffix(r: string): (m: Option<Option<string>>)
    ensures m.Some? && m.value.Some? ==> m.value.value == "2x" || m.value.value == "3x"
    ensures m.Some? ==> |r| >= 4 && r[|r| - 3..] == "png"
  {
    if |r| == 7 && r[0] == '@' && (r[1] == '2' || r[1] == '3') && r[2] == 'x' && IsAnyChar(r[3]) && r[4..] == "png"
    then Some(Some(r[1..3]))
    else if |r| == 4 && IsAnyChar(r[0]) && r[1..] == "png" then Some(None)
    else None
  }

  /** The alternatives of the imageType group before the last one, tried in order. */
  const FIXED_TYPE_NAMES: seq<string> := ["icon", "logo", "background", "footer", "strip"]

  function MatchNamed(r: string, names: seq<string>): Option<(string, Option<string>)>
    decreases |names|
  {
    if names == [] then None
    else if names[0] <= r && MatchSuffix(r[|names[0]|..]).Some? then Some((names[0], MatchSuffix(r[|names[0]|..]).value))
    else MatchNamed(r, names[1..])
  }

  /** The number of copies of `c` at the start of `t`. */
  function RunOf(t: string, c: char): (n: nat)
    ensures n <= |t| && (forall i :: 0 <= i < n ==> t[i] == c) && (n == |t| || t[n] != c)
  {
    if t == [] || t[0] != c then 0 else 1 + RunOf(t[1..], c)
  }

  /** The last alternative is `thumbnail+`: the `+` applies to the final `l`
      only, so `thumbnaill` is captured too. The run of `l` is given back one
      at a time until the suffix matches. */
  function MatchThumbnail(r: string, m: nat): Option<(string, Option<string>)>
    requires 8 + m <= |r|
    decreases m
  {
    if m == 0 then None
    else if MatchSuffix(r[8 + m..]).Some? then Some((r[..8 + m], MatchSuffix(r[8 + m..]).value))
    else MatchThumbnail(r, m - 1)
  }

  /** The imageType group followed by the suffix, over the rest of the name. */
  function MatchType(r: string): Option<(string, Option<string>)> {
    var named := MatchNamed(r, FIXED_TYPE_NAMES);
    if named.Some? then named
    else if "thumbnai" <= r then MatchThumbnail(r, RunOf(r[8..], 'l'))
    else None
  }

  function LangRun(r: string): (n: nat)
    ensures n <= |r| && (forall i :: 0 <= i < n ==> IsLangChar(r[i])) && (n == |r| || !IsLangChar(r[n]))
  {
    if r == [] || !IsLangChar(r[0]) then 0 else 1 + LangRun(r[1..])
  }

  /** `((?<lang>[-A-Z_a-z]+).lproj/)` taking `n` characters of the run, then
      fewer, until the rest of the name matches. */
  function TryLang(r: string, n: nat): Option<ImageName>
    requires n <= |r|
    decreases n
  {
    if n == 0 then None
    else if n + 7 <= |r| && IsAnyChar(r[n]) && r[n + 1..n + 7] == "lproj/" && MatchType(r[n + 7..]).Some? then
      var t := MatchType(r[n + 7..]).value;
      Some(ImageName(t.0, t.1, Some(r[..n])))
    else TryLang(r, n - 1)
  }

  /** The regular expression after `(^|/)`: the optional locale directory is
      tried first. */
  function MatchBody(r: string): Option<ImageName> {
    var withLang := TryLang(r, LangRun(r));
    if withLang.Some? then withLang
    else match MatchType(r)
      case None => None
      case Some(t) => Some(ImageName(t.0, t.1, None))
  }

  /** `IMAGE_FILENAME_REGEX.exec(s)` from body position `b` on: the leftmost
      match, whose body starts at the beginning or right after a `/`. */
  function ExecFrom(s: string, b: nat): Option<ImageName>
    requires b <= |s|
    decreases |s| - b
  {
    if (b == 0 || s[b - 1] == '/') && MatchBody(s[b..]).Some? then MatchBody(s[b..])
    else if b == |s| then None
    else ExecFrom(s, b + 1)
  }

  /** A density the pattern can capture: none, 2x or 3x. */
  predicate KnownDensity(d: Option<string>) {
    d.None? || d.value in {"2x", "3x"}
  }

  /** parseFilename: undefined when the name does not match; a captured
      locale goes through normalizeLocale, which may throw. */
  function ParseFilename(fileName: string): (r: Result<Option<ImageName>>)
    ensures r.Err? ==> r.error.kind == TypeError
    ensures r.Ok? && r.value.Some? ==> KnownDensity(r.value.value.density)
  {
    match ExecFrom(fileName, 0)
    case None => Ok(None)
    case Some(c) =>
      MatchBodyDensity(fileName, 0);
      if c.lang.Some? && c.lang.value != "" then
        match NormalizeLocale(c.lang.value)
        case Err(e) => Err(e)
        case Ok(l) => Ok(Some(ImageName(c.imageType, c.density, Some(l))))
      else Ok(Some(ImageName(c.imageType, c.density, None)))
  }

  lemma {:induction false} MatchNamedDensity(r: string, names: seq<string>)
    requires MatchNamed(r, names).Some?
    ensures KnownDensity(MatchNamed(r, names).value.1)
    decreases |names|
  {
    if !(names[0] <= r && MatchSuffix(r[|names[0]|..]).Some?) {
      MatchNamedDensity(r, names[1..]);
    }
  }

  lemma {:induction false} MatchThumbnailDensity(r: string, m: nat)
    requires 8 + m <= |r| && MatchThumbnail(r, m).Some?
    ensures KnownDensity(MatchThumbnail(r, m).value.1)
    decreases m
  {
    if MatchSuffix(r[8 + m..]).None? {
      MatchThumbnailDensity(r, m - 1);
    }
  }

  lemma MatchTypeDensity(r: string)
    requires MatchType(r).Some?
    ensures KnownDensity(MatchType(r).value.1)
  {
    if MatchNamed(r, FIXED_TYPE_NAMES).Some? {
      MatchNamedDensity(r, FIXED_TYPE_NAMES);
    } else {
      MatchThumbnailDensity(r, RunOf(r[8..], 'l'));
    }
  }

  lemma {:induction false} TryLangDensity(r: string, n: nat)
    requires n <= |r| && TryLang(r, n).Some?
    ensures KnownDensity(TryLang(r, n).value.density)
    decreases n
  {
    if n + 7 <= |r| && IsAnyChar(r[n]) && r[n + 1..n + 7] == "lproj/" && MatchType(r[n + 7..]).Some? {
      MatchTypeDensity(r[n + 7..]);
    } else {
      TryLangDensity(r, n - 1);
    }
  }

  lemma {:induction false} MatchBodyDensity(s: string, b: nat)
    requires b <= |s| && ExecFrom(s, b).Some?
    ensures KnownDensity(ExecFrom(s, b).value.density)
    decreases |s| - b
  {
    if (b == 0 || s[b - 1] == '/') && MatchBody(s[b..]).Some? {
      ExecHit(s, b);
    } else {
      ExecSkip(s, b);
      MatchBodyDensity(s, b + 1);
    }
  }

  lemma ExecHit(s: string, b: nat)
    requires b <= |s| && (b == 0 || s[b - 1] == '/') && MatchBody(s[b..]).Some?
    ensures ExecFrom(s, b).Some? && KnownDensity(ExecFrom(s, b).value.density)
  {
    BodyDensity(s[b..]);
  }

  lemma ExecSkip(s: string, b: nat)
    requires b <= |s| && ExecFrom(s, b).Some?
    requires !((b == 0 || s[b - 1] == '/') && MatchBody(s[b..]).Some?)
    ensures b < |s| && ExecFrom(s, b) == ExecFrom(s, b + 1)
  {
  }

  lemma BodyDensity(r: string)
    requires MatchBody(r).Some?
    ensures KnownDensity(MatchBody(r).value.density)
  {
    if TryLang(r, LangRun(r)).Some? {
      TryLangDensity(r, LangRun(r));
    } else {
      MatchTypeDensity(r);
    }
  }

  /** `/^[23]x$/.test(density || '')` */
  predicate HasDensitySuffix(density: Option<string>) {
    density == Some("2x") || density == Some("3x")
  }

  /** getImageFilename: a truthy locale is normalised (and may throw) and
      becomes a `.lproj/` directory; only 2x and 3x get an `@` suffix. */
  function GetImageFilename(imageType: string, density: Option<string>, lang: Option<string>): (r: Result<string>)
    ensures r.Err? <==> lang.Some? && lang.value != "" && NormalizeLocale(lang.value).Err?
    ensures r.Err? ==> r.error.kind == TypeError
  {
    var suffix := if HasDensitySuffix(density) then "@" + density.value else "";
    if lang.Some? && lang.value != "" then
      match NormalizeLocale(lang.value)
      case Err(e) => Err(e)
      case Ok(l) => Ok(l + ".lproj/" + imageType + suffix + ".png")
    else Ok(imageType + suffix + ".png")
  }

  /** The density a stored file name carries: 1x and absent are not written. */
  function WrittenDensity(d: Option<Density>): Option<string> {
    if d == Some(X2) || d == Some(X3) then Some(DensityName(d.value)) else None
  }

  /** The `@` suffix a stored file name carries. */
  function WrittenSuffix(d: Option<Density>): string {
    if WrittenDensity(d).Some? then "@" + WrittenDensity(d).value else ""
  }

  /** The file names of the six image types. */
  lemma GetImageFilenameShape(t: ImageType, d: Option<Density>, lang: Option<string>)
    requires lang.None? || lang.value == "" || NormalizeLocale(lang.value).Ok?
    ensures var density := if d.Some? then Some(DensityName(d.value)) else None;
            GetImageFilename(ImageTypeName(t), density, lang)
            == Ok(if lang.Some? && lang.value != ""
                  then NormalizeLocale(lang.value).value + ".lproj/" + ImageTypeName(t) + WrittenSuffix(d) + ".png"
                  else ImageTypeName(t) + WrittenSuffix(d) + ".png")
  {
    var density := if d.Some? then Some(DensityName(d.value)) else None;
    assert (if HasDensitySuffix(density) then "@" + density.value else "") == WrittenSuffix(d) by {
      if d == Some(X1) {
        assert "1x"[0] != "2x"[0] && "1x"[0] != "3x"[0];
      }
    }
  }

  /** A normalised locale written only with letters and `-`, the characters
      the `lang` group of IMAGE_FILENAME_REGEX accepts. */
  predicate AlphabeticLocale(lang: Option<string>) {
    lang.None? || lang.value == ""
    || (NormalizeLocale(lang.value).Ok? && forall i :: 0 <= i < |NormalizeLocale(lang.value).value| ==> IsLangChar(NormalizeLocale(lang.value).value[i]))
  }

  lemma SuffixOfType(d: Option<Density>)
    ensures MatchSuffix(WrittenSuffix(d) + ".png") == Some(WrittenDensity(d))
  {
  }

  /** A name whose first character no earlier alternative starts with is
      matched by its own alternative or not at all. */
  lemma {:induction false} MatchNamedAt(r: string, names: seq<string>, k: nat)
    requires k <= |names|
    requires forall j :: 0 <= j < k ==> |names[j]| > 0 && (r == [] || names[j][0] != r[0])
    ensures MatchNamed(r, names) == MatchNamed(r, names[k..])
    decreases k
  {
    if k > 0 {
      assert !(names[0] <= r);
      assert names[1..][k - 1..] == names[k..];
      MatchNamedAt(r, names[1..], k - 1);
    }
  }

  /** A name of one of the first five alternatives followed by a written
      suffix is matched by that alternative. */
  lemma MatchNamedWritten(name: string, d: Option<Density>, k: nat)
    requires k < |FIXED_TYPE_NAMES| && FIXED_TYPE_NAMES[k] == name
    requires forall j :: 0 <= j < k ==> FIXED_TYPE_NAMES[j][0] != name[0]
    ensures MatchType(name + WrittenSuffix(d) + ".png") == Some((name, WrittenDensity(d)))
  {
    var rest := WrittenSuffix(d) + ".png";
    var r := name + WrittenSuffix(d) + ".png";
    SuffixOfType(d);
    assert r[|name|..] == rest;
    assert r[0] == name[0];
    MatchNamedAt(r, FIXED_TYPE_NAMES, k);
    assert FIXED_TYPE_NAMES[k..][0] == name;
    assert name <= r;
  }

  /** `thumbnail` followed by a written suffix is matched by `thumbnail+`
      with a single `l`. */
  lemma MatchThumbnailWritten(d: Option<Density>)
    ensures MatchType("thumbnail" + WrittenSuffix(d) + ".png") == Some(("thumbnail", WrittenDensity(d)))
  {
    var rest := WrittenSuffix(d) + ".png";
    var r := "thumbnail" + WrittenSuffix(d) + ".png";
    SuffixOfType(d);
    assert r[0] == 't';
    MatchNamedAt(r, FIXED_TYPE_NAMES, 5);
    assert FIXED_TYPE_NAMES[5..] == [];
    assert "thumbnai" <= r;
    assert rest[0] == '@' || rest[0] == '.';
    assert r[8..] == ['l'] + rest;
    assert RunOf(r[8..], 'l') == 1;
    assert r[9..] == rest;
    assert r[..9] == "thumbnail";
  }

  /** The type name and suffix the encoder writes are matched back. */
  lemma MatchTypeOfWritten(t: ImageType, d: Option<Density>)
    ensures MatchType(ImageTypeName(t) + WrittenSuffix(d) + ".png") == Some((ImageTypeName(t), WrittenDensity(d)))
  {
    match t
    case Icon => MatchNamedWritten(ImageTypeName(t), d, 0);
    case Logo => MatchNamedWritten(ImageTypeName(t), d, 1);
    case Background => MatchNamedWritten(ImageTypeName(t), d, 2);
    case Footer => MatchNamedWritten(ImageTypeName(t), d, 3);
    case Strip => MatchNamedWritten(ImageTypeName(t), d, 4);
    case Thumbnail => MatchThumbnailWritten(d);
  }

  /** Without a `/` in the name no locale directory can match. */
  lemma {:induction false} TryLangNeedsSlash(r: string, n: nat)
    requires n <= |r| && '/' !in r
    ensures TryLang(r, n) == None
    decreases n
  {
    if n > 0 {
      if n + 7 <= |r| {
        assert r[n + 1..n + 7][5] == r[n + 6];
      }
      TryLangNeedsSlash(r, n - 1);
    }
  }

  lemma TryLangHit(r: string, n: nat)
    requires 0 < n && n + 7 <= |r| && IsAnyChar(r[n]) && r[n + 1..n + 7] == "lproj/" && MatchType(r[n + 7..]).Some?
    ensures var t := MatchType(r[n + 7..]).value;
            TryLang(r, n) == Some(ImageName(t.0, t.1, Some(r[..n])))
  {
  }

  lemma ExecFromStart(s: string)
    requires MatchBody(s).Some?
    ensures ExecFrom(s, 0) == MatchBody(s)
  {
    assert s[0..] == s;
  }

  /** A name whose body, at its start, matches with a locale directory of
      the whole run of `lang` characters. */
  lemma ExecAtStart(s: string)
    requires var n := LangRun(s);
             0 < n && n + 7 <= |s| && IsAnyChar(s[n]) && s[n + 1..n + 7] == "lproj/" && MatchType(s[n + 7..]).Some?
    ensures var n := LangRun(s);
            var t := MatchType(s[n + 7..]).value;
            ExecFrom(s, 0) == Some(ImageName(t.0, t.1, Some(s[..n])))
  {
    TryLangHit(s, LangRun(s));
    ExecFromStart(s);
  }

  /** A name in a locale directory whose name has only `lang` characters is
      matched at its start, with the directory as the locale. */
  lemma ExecLocalized(l: string, body: string)
    requires |l| >= 1 && forall i :: 0 <= i < |l| ==> IsLangChar(l[i])
    requires MatchType(body).Some?
    ensures var t := MatchType(body).value;
            ExecFrom(l + ".lproj/" + body, 0) == Some(ImageName(t.0, t.1, Some(l)))
  {
    var s := l + ".lproj/" + body;
    LocalizedSlices(l, body);
    LangRunOf(l, ".lproj/" + body);
    ExecAtStart(s);
  }

  lemma LocalizedSlices(l: string, body: string)
    ensures var s := l + ".lproj/" + body;
            && s == l + (".lproj/" + body)
            && s[|l|] == '.' && s[|l| + 1..|l| + 7] == "lproj/"
            && s[|l| + 7..] == body && s[..|l|] == l
  {
  }

  /** A name without a `/` is matched at its start without a locale. */
  lemma ExecPlain(body: string)
    requires '/' !in body
    requires MatchType(body).Some?
    ensures var t := MatchType(body).value;
            ExecFrom(body, 0) == Some(ImageName(t.0, t.1, None))
  {
    TryLangNeedsSlash(body, LangRun(body));
    assert body[0..] == body;
  }

  lemma Associate(a: string, b: string, c: string, d: string)
    ensures a + b + c + d == a + (b + c + d)
  {
  }

  /** A normalised locale has at least the two letters of its language. */
  lemma NormalizedLength(lang: string)
    requires NormalizeLocale(lang).Ok?
    ensures |NormalizeLocale(lang).value| >= 2
  {
    ParseSound(lang);
    var p := Parse(lang).value;
    assert |Canonical(p.locale)| >= |Lower(p.locale.lang)|;
  }

  /** For 1x, 2x, 3x or no density and a locale written with letters and
      `-` only, parseFilename gives back the image type, the written density
      and the normalised locale of the name getImageFilename builds. */
  lemma {:induction false} ParseFilenameRoundTrip(t: ImageType, d: Option<Density>, lang: Option<string>)
    requires AlphabeticLocale(lang)
    ensures var density := if d.Some? then Some(DensityName(d.value)) else None;
            var name := GetImageFilename(ImageTypeName(t), density, lang);
            var normalized := if lang.Some? && lang.value != "" then Some(NormalizeLocale(lang.value).value) else None;
            name.Ok? && ParseFilename(name.value) == Ok(Some(ImageName(ImageTypeName(t), WrittenDensity(d), normalized)))
  {
    GetImageFilenameShape(t, d, lang);
    var body := ImageTypeName(t) + WrittenSuffix(d) + ".png";
    MatchTypeOfWritten(t, d);
    if lang.Some? && lang.value != "" {
      var l := NormalizeLocale(lang.value).value;
      NormalizedLength(lang.value);
      Associate(l + ".lproj/", ImageTypeName(t), WrittenSuffix(d), ".png");
      ExecLocalized(l, body);
      NormalizeIdempotent(lang.value);
    } else {
      WrittenNoSlash(t, d);
      ExecPlain(body);
    }
  }

  lemma WrittenNoSlash(t: ImageType, d: Option<Density>)
    ensures '/' !in ImageTypeName(t) + WrittenSuffix(d) + ".png"
  {
    assert '/' !in ImageTypeName(t) && '/' !in WrittenSuffix(d) && '/' !in ".png";
  }

  lemma LangRunOf(p: string, q: string)
    requires forall i :: 0 <= i < |p| ==> IsLangChar(p[i])
    requires q == [] || !IsLangChar(q[0])
    ensures LangRun(p + q) == |p|
  {
    assert forall i :: 0 <= i < |p| ==> IsLangChar((p + q)[i]);
    assert q != [] ==> !IsLangChar((p + q)[|p|]);
  }

  // ------------------------------------------------------------ size rules

  /** The `{format, width, height}` the PNG header gives. */
  datatype ImageSize = ImageSize(format: string, width: Number, height: Number)

  /** `Number.isInteger(n) && !(n <= 0)` */
  predicate IsPositiveInteger(n: Number) {
    n.Finite? && n.r.Floor as real == n.r && n.r > 0.0
  }

  /** The leading digit of the density, or 1 when there is none. */
  function DensityMultiplier(d: Option<Density>): (m: nat)
    ensures 1 <= m <= 3
    ensures d.Some? ==> DensityName(d.value)[0] == ('0' as int + m) as char
    ensures d.None? ==> m == 1
  {
    match d
    case None => 1
    case Some(X1) => 1
    case Some(X2) => 2
    case Some(X3) => 3
  }

  /** checkImage, with its checks in the order coded: the format, then the
      width and height as positive integers, then the per-type bounds scaled
      by the density multiplier. */
  function CheckImage(t: ImageType, size: ImageSize, density: Option<Density>): (r: Outcome)
    ensures r.Fail? ==> r.error.kind == TypeError
    ensures size.format != "png" ==> r == Fail(Exception(TypeError, "format"))
    ensures size.format == "png" && !IsPositiveInteger(size.width) ==> r == Fail(Exception(TypeError, "width"))
    ensures size.format == "png" && IsPositiveInteger(size.width) && !IsPositiveInteger(size.height)
            ==> r == Fail(Exception(TypeError, "height"))
  {
    if size.format != "png" then Fail(Exception(TypeError, "format"))
    else if !IsPositiveInteger(size.width) then Fail(Exception(TypeError, "width"))
    else if !IsPositiveInteger(size.height) then Fail(Exception(TypeError, "height"))
    else
      var w := size.width.r.Floor;
      var h := size.height.r.Floor;
      var m := DensityMultiplier(density);
      match t
      case Icon =>
        if w < 29 * m then Fail(Exception(TypeError, "width"))
        else if h < 29 * m then Fail(Exception(TypeError, "height"))
        else Done
      case Logo =>
        if w > 160 * m then Fail(Exception(TypeError, "width")) else Done
      case Background =>
        if w > 180 * m then Fail(Exception(TypeError, "width"))
        else if h > 220 * m then Fail(Exception(TypeError, "height"))
        else Done
      case Footer =>
        if w > 286 * m then Fail(Exception(TypeError, "width"))
        else if h > 15 * m then Fail(Exception(TypeError, "height"))
        else Done
      case Strip =>
        if h > 144 * m then Fail(Exception(TypeError, "height")) else Done
      case Thumbnail =>
        if w > 120 * m then Fail(Exception(TypeError, "width"))
        else if h > 150 * m then Fail(Exception(TypeError, "height"))
        else Done
  }

  /** The 1x size rule of an image type: a lower bound, or upper bounds where
      a side is bounded at all. */
  datatype SizeRule = AtLeast(minWidth: nat, minHeight: nat) | AtMost(maxWidth: Option<nat>, maxHeight: Option<nat>)

  function Rule(t: ImageType): SizeRule {
    match t
    case Icon => AtLeast(29, 29)
    case Logo => AtMost(Some(160), None)
    case Background => AtMost(Some(180), Some(220))
    case Footer => AtMost(Some(286), Some(15))
    case Strip => AtMost(None, Some(144))
    case Thumbnail => AtMost(Some(120), Some(150))
  }

  /** A width and height meet a rule scaled by `m`. */
  predicate Fits(rule: SizeRule, w: int, h: int, m: nat) {
    match rule
    case AtLeast(minW, minH) => w >= minW * m && h >= minH * m
    case AtMost(maxW, maxH) =>
      (maxW.Some? ==> w <= maxW.value * m) && (maxH.Some? ==> h <= maxH.value * m)
  }

  function PngOf(w: nat, h: nat): ImageSize {
    ImageSize("png", Finite(w as real), Finite(h as real))
  }

  /** An image passes exactly when it is a PNG of positive integer size that
      fits its type's rule scaled by the density multiplier. */
  lemma CheckImageAccepts(t: ImageType, size: ImageSize, density: Option<Density>)
    ensures CheckImage(t, size, density).Done? <==>
      && size.format == "png" && IsPositiveInteger(size.width) && IsPositiveInteger(size.height)
      && Fits(Rule(t), size.width.r.Floor, size.height.r.Floor, DensityMultiplier(density))
  {
  }

  /** An image that passes at 1x passes at any density once both sides are
      multiplied by the density. */
  lemma {:induction false} CheckImageScales(t: ImageType, w: nat, h: nat, d: Density)
    requires CheckImage(t, PngOf(w, h), None).Done?
    ensures CheckImage(t, PngOf(w * DensityMultiplier(Some(d)), h * DensityMultiplier(Some(d))), Some(d)).Done?
  {
    var m := DensityMultiplier(Some(d));
    CheckImageAccepts(t, PngOf(w, h), None);
    CheckImageAccepts(t, PngOf(w * m, h * m), Some(d));
    FloorOfNat(w);
    FloorOfNat(h);
    FloorOfNat(w * m);
    FloorOfNat(h * m);
    assert w > 0 && h > 0;
    ScaledFits(Rule(t), w, h, m);
  }

  lemma FloorOfNat(n: nat)
    ensures (n as real).Floor == n
  {
  }

  lemma ScaledFits(rule: SizeRule, w: nat, h: nat, m: nat)
    requires Fits(rule, w, h, 1)
    ensures Fits(rule, w * m, h * m, m)
  {
    match rule
    case AtLeast(minW, minH) =>
      assert w * m >= minW * m && h * m >= minH * m;
    case AtMost(maxW, maxH) =>
      if maxW.Some? { assert w * m <= maxW.value * m; }
      if maxH.Some? { assert h * m <= maxH.value * m; }
  }

  /** The baseline sizes listed in IMAGES pass at every density, except the
      footer's: its listed width of 295 exceeds the coded bound of 286. */
  lemma {:induction false} BaselinesAgainstCheck(t: ImageType, d: Option<Density>)
    ensures var m := DensityMultiplier(d);
            var b := ImageBaseline(t);
            CheckImage(t, PngOf(b.width * m, b.height * m), d).Done? <==> t != Footer
  {
    var m := DensityMultiplier(d);
    var b := ImageBaseline(t);
    FloorOfNat(b.width * m);
    FloorOfNat(b.height * m);
    CheckImageAccepts(t, PngOf(b.width * m, b.height * m), d);
  }

  // ---------------------------------------------------------- the image map

  /** What an image is added from: a file path, a byte buffer, or anything
      else. */
  datatype ImageSource = FilePath(path: string) | Buffer(bytes: seq<bv8>) | OtherData

  predicate IsTruthyString(s: Option<string>) {
    s.Some? && s.value != ""
  }

  /** The checks of `add`, in order, and the file name it stores under: an
      unknown type, a truthy density outside DENSITIES, data that is neither a
      path nor a buffer, a buffer that is not an image, the size rules, and
      the locale of the name. `sniffed` is what the PNG header reader returns
      (None when it fails: a rejection for a path, a TypeError for a
      buffer). */
  function AddCheck(imageType: string, source: ImageSource, density: Option<string>, lang: Option<string>,
                    sniffed: Option<ImageSize>): (r: Result<string>)
    ensures r.Ok? ==> ImageTypeOf(imageType).Some?
    ensures ImageTypeOf(imageType).None? ==> r == Err(Exception(TypeError, imageType))
    ensures ImageTypeOf(imageType).Some? && IsTruthyString(density) && DensityOf(density.value).None?
            ==> r == Err(Exception(TypeError, imageType))
    ensures r.Ok? ==> r == GetImageFilename(imageType, density, lang)
    ensures r.Ok? ==> sniffed.Some? && !source.OtherData?
    ensures r.Ok? ==> CheckImage(ImageTypeOf(imageType).value, sniffed.value, DensityUsed(density)).Done?
    ensures ImageTypeOf(imageType).Some? && !(IsTruthyString(density) && DensityOf(density.value).None?)
            && !source.OtherData? && sniffed.Some?
            ==> var c := CheckImage(ImageTypeOf(imageType).value, sniffed.value, DensityUsed(density));
                c.Fail? ==> r == Err(c.error)
    ensures ImageTypeOf(imageType).Some? && !(IsTruthyString(density) && DensityOf(density.value).None?)
            && !source.OtherData? && sniffed.None?
            ==> r == Err(Exception(if source.FilePath? then ExternalError else TypeError, imageType))
    ensures ImageTypeOf(imageType).Some? && !(IsTruthyString(density) && DensityOf(density.value).None?)
            && source.OtherData?
            ==> r == Err(Exception(TypeError, imageType))
  {
    match ImageTypeOf(imageType)
    case None => Err(Exception(TypeError, imageType))
    case Some(t) =>
      if IsTruthyString(density) && DensityOf(density.value).None? then Err(Exception(TypeError, imageType))
      else if source.OtherData? then Err(Exception(TypeError, imageType))
      else if sniffed.None? then
        Err(Exception(if source.FilePath? then ExternalError else TypeError, imageType))
      else
        match CheckImage(t, sniffed.value, DensityUsed(density))
        case Fail(e) => Err(e)
        case Done => GetImageFilename(imageType, density, lang)
  }

  /** The density the size rules scale by: the named one when the argument is
      a non-empty string, none otherwise. */
  function DensityUsed(density: Option<string>): Option<Density> {
    if IsTruthyString(density) then DensityOf(density.value) else None
  }

  /** `some(key => key.endsWith(name))` */
  predicate HasKeyEndingIn(keys: seq<string>, name: string) {
    exists i :: 0 <= i < |keys| && EndsWith(keys[i], name)
  }

  predicate EndsWith(s: string, suffix: string) {
    |suffix| <= |s| && s[|s| - |suffix|..] == suffix
  }

  /** The outcome `validate` has over the stored names. */
  function ValidateKeys(keys: seq<string>): Outcome {
    if !HasKeyEndingIn(keys, "icon.png") then Fail(Exception(SyntaxError, "icon.png"))
    else if !HasKeyEndingIn(keys, "logo.png") then Fail(Exception(SyntaxError, "logo.png"))
    else Done
  }

  /** Adding names never makes `validate` fail where it passed. */
  lemma ValidateMonotone(keys: seq<string>, more: seq<string>)
    requires ValidateKeys(keys).Done?
    requires forall k :: k in keys ==> k in more
    ensures ValidateKeys(more).Done?
  {
    var i :| 0 <= i < |keys| && EndsWith(keys[i], "icon.png");
    var j :| 0 <= j < |keys| && EndsWith(keys[j], "logo.png");
    assert keys[i] in keys && keys[j] in keys;
    var i' :| 0 <= i' < |more| && more[i'] == keys[i];
    var j' :| 0 <= j' < |more| && more[j'] == keys[j];
  }

  /** The PassImages map: file name in the bundle to the image's source, in
      insertion order. */
  class PassImages {
    var images: OrderedMap<ImageSource>

    ghost predicate Valid()
      reads this
    {
      images.Valid()
    }

    /** A copy of another PassImages, or an empty map. */
    constructor (from: PassImages?)
      requires from != null ==> from.Valid()
      ensures Valid()
      ensures images == if from != null then from.images else Empty()
    {
      images := if from != null then from.images else Empty();
    }

    /** `add`: on success exactly the generated file name is set to the
        source, and nothing else changes; on failure nothing changes. */
    method Add(imageType: string, source: ImageSource, density: Option<string>, lang: Option<string>,
               sniffed: Option<ImageSize>) returns (r: Outcome)
      requires Valid()
      modifies this
      ensures Valid()
      ensures var check := AddCheck(imageType, source, density, lang, sniffed);
              && (check.Err? ==> r == Fail(check.error) && images == old(images))
              && (check.Ok? ==> r == Done && images == old(images).Set(check.value, source))
    {
      var check := AddCheck(imageType, source, density, lang, sniffed);
      if check.Err? {
        return Fail(check.error);
      }
      images := images.Set(check.value, source);
      return Done;
    }

    /** `validate`: a SyntaxError naming the first of icon.png and logo.png
        that no stored name ends in. */
    method Validate() returns (r: Outcome)
      requires Valid()
      ensures r == ValidateKeys(images.keys)
    {
      var keys := images.keys;
      var required := ["icon.png", "logo.png"];
      assert required[0] == "icon.png" && required[1] == "logo.png";
      for n := 0 to |required|
        invariant forall j :: 0 <= j < n ==> HasKeyEndingIn(keys, required[j])
      {
        var name := required[n];
        var found := false;
        var i := 0;
        while i < |keys| && !found
          invariant 0 <= i <= |keys|
          invariant found <==> exists j :: 0 <= j < i && EndsWith(keys[j], name)
        {
          found := EndsWith(keys[i], name);
          i := i + 1;
        }
        if !found {
          assert !HasKeyEndingIn(keys, name);
          assert n == 1 ==> HasKeyEndingIn(keys, "icon.png");
          return Fail(Exception(SyntaxError, name));
        }
      }
      return Done;
    }
  }
}

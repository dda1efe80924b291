// The page a recipe writes (src/folio_lattice/agent_recipe.py): HTML that names both
// other assets by URL. An id in a URL is 32 hexadecimal digits, so a page is as
// long for one pair of assets as for any other, and one pair tells whether the
// service takes them all.
module AssetPages {
  import opened Common
  import opened Tables
  import opened Lattice
  import opened AgentRecipe

  const ID_DIGITS := 32

  function Power(base: nat, exponent: nat): nat {
    if exponent == 0 then 1 else base * Power(base, exponent - 1)
  }

  function HexDigit(d: nat): (c: Byte)
    requires d < 16
    ensures '0' as int <= c <= '9' as int || 'a' as int <= c <= 'f' as int
  {
    if d < 10 then '0' as int + d else 'a' as int + d - 10
  }

  /** The last `width` hexadecimal digits of a number. */
  function Hex(n: nat, width: nat): (text: Bytes)
    ensures |text| == width
  {
    if width == 0 then [] else Hex(n / 16, width - 1) + [HexDigit(n % 16)]
  }

  lemma {:induction false} HexIsInjective(m: nat, n: nat, width: nat)
    requires m < Power(16, width) && n < Power(16, width)
    requires Hex(m, width) == Hex(n, width)
    ensures m == n
  {
    if width > 0 {
      assert Hex(m, width)[..width - 1] == Hex(m / 16, width - 1) && Hex(m, width)[width - 1] == HexDigit(m % 16);
      assert Hex(n, width)[..width - 1] == Hex(n / 16, width - 1) && Hex(n, width)[width - 1] == HexDigit(n % 16);
      HexIsInjective(m / 16, n / 16, width - 1);
    }
  }

  function Ascii(s: string): (text: Bytes)
    ensures |text| == |s|
  {
    seq(|s|, i requires 0 <= i < |s| => s[i] as int % 256)
  }

  /** `versioned_content_url`. */
  function ContentUrl(a: Asset): Bytes {
    Ascii("/content/art_") + Hex(a.id, ID_DIGITS) + Ascii("/ver_") + Hex(a.version, ID_DIGITS)
  }

  // What stands before, between and after the two URLs.
  datatype Template = Template(head: Bytes, middle: Bytes, tail: Bytes)

  function Page(t: Template, css: Asset, js: Asset): Bytes {
    t.head + ContentUrl(css) + t.middle + ContentUrl(js) + t.tail
  }

  function PageOf(t: Template): (Asset, Asset) -> Bytes {
    (css, js) => Page(t, css, js)
  }

  const URL_LENGTH := 13 + ID_DIGITS + 5 + ID_DIGITS

  function PageLength(t: Template): nat {
    |t.head| + |t.middle| + |t.tail| + 2 * URL_LENGTH
  }

  lemma UrlIsInjective(a: Asset, b: Asset)
    requires AssetBelow(a, Power(16, ID_DIGITS)) && AssetBelow(b, Power(16, ID_DIGITS))
    requires ContentUrl(a) == ContentUrl(b)
    ensures a == b
  {
    assert ContentUrl(a)[13..45] == Hex(a.id, ID_DIGITS) && ContentUrl(b)[13..45] == Hex(b.id, ID_DIGITS);
    assert ContentUrl(a)[50..82] == Hex(a.version, ID_DIGITS) && ContentUrl(b)[50..82] == Hex(b.version, ID_DIGITS);
    hide ContentUrl, Power, Hex;
    HexIsInjective(a.id, b.id, ID_DIGITS);
    HexIsInjective(a.version, b.version, ID_DIGITS);
  }

  lemma PageParts(t: Template, css: Asset, js: Asset)
    ensures |Page(t, css, js)| == PageLength(t)
    ensures var h, m := |t.head|, |t.head| + URL_LENGTH + |t.middle|;
            Page(t, css, js)[h..h + URL_LENGTH] == ContentUrl(css) && Page(t, css, js)[m..m + URL_LENGTH] == ContentUrl(js)
  {
    assert |ContentUrl(css)| == URL_LENGTH && |ContentUrl(js)| == URL_LENGTH;
    hide ContentUrl;
  }

  /** A page tells which assets it is about: no two pairs share a page. */
  lemma PageNamesItsAssets(t: Template, css: Asset, js: Asset, css': Asset, js': Asset)
    requires AssetBelow(css, Power(16, ID_DIGITS)) && AssetBelow(css', Power(16, ID_DIGITS))
    requires AssetBelow(js, Power(16, ID_DIGITS)) && AssetBelow(js', Power(16, ID_DIGITS))
    requires Page(t, css, js) == Page(t, css', js')
    ensures css == css' && js == js'
  {
    PageParts(t, css, js);
    PageParts(t, css', js');
    hide ContentUrl, Page, Power;
    UrlIsInjective(css, css');
    UrlIsInjective(js, js');
  }

  // The contexts of the pages are equally long: they differ in a digest alone.
  ghost predicate ContextsAlike(r: Recipe) {
    forall css, js, css', js' ::
      |r.encode(ContextFor(r, HtmlPart(r, css, js)))| == |r.encode(ContextFor(r, HtmlPart(r, css', js')))|
  }

  /** One page decides: the service takes it exactly when it takes every other. */
  lemma OnePageDecides(r: Recipe, cfg: Config, t: Template, css: Asset, js: Asset, css': Asset, js': Asset)
    requires r.page == PageOf(t) && ContextsAlike(r)
    ensures Taken(r, cfg, HtmlPart(r, css, js)) <==> Taken(r, cfg, HtmlPart(r, css', js'))
  {
    PageParts(t, css, js);
    PageParts(t, css', js');
    hide ValidText, Page;
  }

  // Every part is there or taken, the page for any one pair of assets.
  ghost predicate Welcome(r: Recipe, cfg: Config, view: View, css: Asset, js: Asset) {
    && !Refused(r, cfg, view, CssPart(r)) && !Refused(r, cfg, view, JsPart(r))
    && !Refused(r, cfg, view, HtmlPart(r, css, js))
  }

  lemma WelcomeIsAccepted(r: Recipe, cfg: Config, t: Template, s: Store, css: Asset, js: Asset)
    requires r.page == PageOf(t) && ContextsAlike(r)
    ensures Accepts(r, cfg, s) <==> Welcome(r, cfg, ViewOf(r, s), css, js)
  {
    OnePageDecides(r, cfg, t, css, js, CssAsset(r, s), JsAsset(r, s));
    hide Taken, Matches, ViewOf, CssAsset, JsAsset, ContextsAlike;
  }

  /**
   * A recipe with such a page is completed by an attempt that is not cut off exactly
   * when each part was there before the first attempt or is one that the service
   * takes, the page for any one pair of assets; what ids are drawn plays no part.
   */
  lemma NamingRecipeCompletes(r: Recipe, cfg: Config, t: Template, css: Asset, js: Asset, stores: seq<Store>,
                              results: seq<Result<Bundle, Failure>>, quiets: seq<bool>, i: nat)
    requires Attempts(r, cfg, stores, results, quiets) && i < |results| && (quiets[i] || results[i].Ok?)
    requires r.page == PageOf(t) && ContextsAlike(r)
    ensures results[i].Ok? <==> Welcome(r, cfg, ViewOf(r, stores[0]), css, js)
    ensures results[i].Ok? ==> Complete(r, cfg, stores[i + 1], results[i].value)
  {
    assert |stores| > 0;
    hide Attempts, ContextsAlike, Welcome, Accepts, ViewOf, Complete, Blocked, PageOf;
    AttemptsConverge(r, cfg, stores, results, quiets, i, i);
    WelcomeIsAccepted(r, cfg, t, stores[0], css, js);
  }

  // ------------------------------------------------ there are such recipes

  function Quoted(s: string): string {
    seq(|s|, i => 'x') + "." + s
  }

  lemma QuotedIsInjective(a: string, x: string, b: string, y: string)
    requires Quoted(a) + x == Quoted(b) + y
    ensures a == b && x == y
  {
    var s := Quoted(a) + x;
    assert s[|a|] == '.' && s[|b|] == '.';
    assert forall i :: 0 <= i < |a| ==> s[i] == 'x';
    assert forall i :: 0 <= i < |b| ==> s[i] == 'x';
    assert |a| == |b|;
    assert s[|a| + 1..|a| + 1 + |a|] == a && s[|b| + 1..|b| + 1 + |b|] == b;
    assert s[|a| + 1 + |a|..] == x && s[|b| + 1 + |b|..] == y;
  }

  function Text(data: Bytes): string {
    seq(|data|, i requires 0 <= i < |data| => data[i] as char)
  }

  lemma TextIsInjective(p: Bytes, q: Bytes)
    requires Text(p) == Text(q)
    ensures p == q
  {
    assert forall i :: 0 <= i < |p| ==> Text(p)[i] as int == p[i];
    assert forall i :: 0 <= i < |q| ==> Text(q)[i] as int == q[i];
  }

  // The bodies of a recipe, for which its digests are written short.
  datatype Bodies = Bodies(css: Bytes, js: Bytes, page: Template)

  predicate IsPage(t: Template, data: Bytes) {
    var m := |t.head| + URL_LENGTH;
    && |data| == PageLength(t)
    && data[..|t.head|] == t.head && data[m..m + |t.middle|] == t.middle
    && data[m + |t.middle| + URL_LENGTH..] == t.tail
  }

  // Where a page differs from another.
  function Urls(t: Template, data: Bytes): Bytes
    requires IsPage(t, data)
  {
    var m := |t.head| + URL_LENGTH + |t.middle|;
    data[|t.head|..|t.head| + URL_LENGTH] + data[m..m + URL_LENGTH]
  }

  lemma UrlsAreEnough(t: Template, p: Bytes, q: Bytes)
    requires IsPage(t, p) && IsPage(t, q) && Urls(t, p) == Urls(t, q)
    ensures p == q
  {
    var h := |t.head|;
    var m := h + URL_LENGTH + |t.middle|;
    assert Urls(t, p)[..URL_LENGTH] == p[h..h + URL_LENGTH] && Urls(t, p)[URL_LENGTH..] == p[m..m + URL_LENGTH];
    assert Urls(t, q)[..URL_LENGTH] == q[h..h + URL_LENGTH] && Urls(t, q)[URL_LENGTH..] == q[m..m + URL_LENGTH];
    SameAt(t, p);
    SameAt(t, q);
  }

  lemma SameAt(t: Template, p: Bytes)
    requires IsPage(t, p)
    ensures var h := |t.head|;
            var m := h + URL_LENGTH + |t.middle|;
            p == t.head + p[h..h + URL_LENGTH] + t.middle + p[m..m + URL_LENGTH] + t.tail
  {
    var h := |t.head|;
    var m := h + URL_LENGTH + |t.middle|;
    assert p == p[..h] + p[h..h + URL_LENGTH] + p[h + URL_LENGTH..m] + p[m..m + URL_LENGTH] + p[m + URL_LENGTH..];
  }

  lemma PageIsPage(t: Template, css: Asset, js: Asset)
    ensures IsPage(t, Page(t, css, js))
  {
    assert |ContentUrl(css)| == URL_LENGTH && |ContentUrl(js)| == URL_LENGTH;
    hide ContentUrl;
  }

  // A digest, as short as the recipe needs it.
  function DigestText(b: Bodies, role: Role, data: Bytes): string {
    if role == Css && data == b.css then "c"
    else if role == Js && data == b.js then "j"
    else if role == Html && IsPage(b.page, data) then "h" + Text(Urls(b.page, data))
    else "o" + Text(data)
  }

  lemma DigestTextIsInjective(b: Bodies, role: Role, p: Bytes, q: Bytes)
    requires DigestText(b, role, p) == DigestText(b, role, q)
    ensures p == q
  {
    var x, y := DigestText(b, role, p), DigestText(b, role, q);
    assert x[0] == y[0] && x[1..] == y[1..];
    hide IsPage, Urls;
    if x[0] == 'o' {
      TextIsInjective(p, q);
    } else if x[0] == 'h' {
      TextIsInjective(Urls(b.page, p), Urls(b.page, q));
      UrlsAreEnough(b.page, p, q);
    }
  }

  function Encode(b: Bodies, c: Context): string {
    Quoted(c.bundle) + (Quoted(c.path) + (Quoted(Reason(c.role)) + DigestText(b, c.role, c.sha256.preimage)))
  }

  lemma EncodeIsInjective(b: Bodies, c: Context, d: Context)
    requires Encode(b, c) == Encode(b, d)
    ensures c == d
  {
    var x, y := DigestText(b, c.role, c.sha256.preimage), DigestText(b, d.role, d.sha256.preimage);
    hide Quoted, DigestText;
    QuotedIsInjective(c.bundle, Quoted(c.path) + (Quoted(Reason(c.role)) + x),
                      d.bundle, Quoted(d.path) + (Quoted(Reason(d.role)) + y));
    QuotedIsInjective(c.path, Quoted(Reason(c.role)) + x, d.path, Quoted(Reason(d.role)) + y);
    QuotedIsInjective(Reason(c.role), x, Reason(d.role), y);
    assert Reason(c.role)[13] == Reason(d.role)[13];
    DigestTextIsInjective(b, c.role, c.sha256.preimage, d.sha256.preimage);
  }

  ghost function Decode(b: Bodies, text: string): Option<Context> {
    if exists c :: Encode(b, c) == text then
      var c :| Encode(b, c) == text;
      Some(c)
    else None
  }

  ghost function SampleRecipe(b: Bodies): Recipe {
    Recipe("tenant", "actor", "bundle", "style.css", "app.js", "index.html", b.css, b.js, PageOf(b.page),
           c => Encode(b, c), text => Decode(b, text))
  }

  lemma NotBlank(s: string, maximum: nat)
    requires s != "" && !IsSpace(s[0]) && |s| <= maximum
    ensures ValidText(s, maximum)
  {
  }

  // The limits on the three bodies, and no more.
  predicate BodiesFit(cfg: Config, b: Bodies) {
    && |b.css| <= MAX_BODY_BYTES && |b.css| <= cfg.maxArtifactBytes
    && |b.js| <= MAX_BODY_BYTES && |b.js| <= cfg.maxArtifactBytes
    && PageLength(b.page) <= cfg.maxArtifactBytes
  }

  /** For any bodies within the limits there is a valid recipe whose pages name their assets and whose parts are all taken. */
  lemma NamingRecipeExists(cfg: Config, b: Bodies)
    requires BodiesFit(cfg, b)
    ensures var r := SampleRecipe(b);
            && Sensible(r) && r.page == PageOf(b.page) && ContextsAlike(r) && r.cssBody == b.css && r.jsBody == b.js
            && Taken(r, cfg, CssPart(r)) && Taken(r, cfg, JsPart(r))
            && forall css, js :: Taken(r, cfg, HtmlPart(r, css, js))
  {
    var r := SampleRecipe(b);
    SampleIsFaithful(r, b);
    SampleIsAlike(r, b);
    SampleNames(cfg, r, b);
    hide Taken, Faithful, ContextsAlike, LikeSample;
    forall css, js ensures Taken(r, cfg, HtmlPart(r, css, js)) {
      PageIsTaken(cfg, r, b, css, js);
    }
    LeavesAreTaken(cfg, r, b);
  }

  lemma SampleNames(cfg: Config, r: Recipe, b: Bodies)
    requires r == SampleRecipe(b) && BodiesFit(cfg, b)
    ensures LikeSample(r, b) && IsValid(r)
    ensures forall name :: name in [r.cssName, r.jsName, r.htmlName] ==>
                             name != "" && !IsSpace(name[0]) && |name| <= MAX_NAME_LENGTH
  {
    hide Encode, Decode;
  }

  lemma PageIsTaken(cfg: Config, r: Recipe, b: Bodies, css: Asset, js: Asset)
    requires r == SampleRecipe(b) && BodiesFit(cfg, b)
    ensures Taken(r, cfg, HtmlPart(r, css, js))
  {
    PageIsPage(b.page, css, js);
    SampleNames(cfg, r, b);
    assert r.htmlName in [r.cssName, r.jsName, r.htmlName] && r.page(css, js) == Page(b.page, css, js);
    hide Taken, IsPage, LikeSample, Page, SampleRecipe;
    SampleTaken(cfg, r, b, HtmlPart(r, css, js));
  }

  lemma LeavesAreTaken(cfg: Config, r: Recipe, b: Bodies)
    requires r == SampleRecipe(b) && BodiesFit(cfg, b)
    ensures Taken(r, cfg, CssPart(r)) && Taken(r, cfg, JsPart(r))
  {
    SampleNames(cfg, r, b);
    assert r.cssBody == b.css && r.jsBody == b.js;
    assert r.cssName == "style.css" && r.jsName == "app.js";
    hide Taken, LikeSample, SampleRecipe, BodiesFit, IsValid;
    SampleTaken(cfg, r, b, CssPart(r));
    SampleTaken(cfg, r, b, JsPart(r));
  }

  // A recipe like the sample, whatever its names are.
  ghost predicate LikeSample(r: Recipe, b: Bodies) {
    var sample := SampleRecipe(b);
    r == sample.(cssName := r.cssName, jsName := r.jsName, htmlName := r.htmlName)
  }

  lemma SampleIsFaithful(r: Recipe, b: Bodies)
    requires LikeSample(r, b)
    ensures Faithful(r)
  {
    forall c ensures Decode(b, Encode(b, c)) == Some(c) {
      EncodeIsInjective(b, c, Decode(b, Encode(b, c)).value);
    }
    hide Decode, Encode;
  }

  lemma SampleIsAlike(r: Recipe, b: Bodies)
    requires LikeSample(r, b)
    ensures ContextsAlike(r)
  {
    forall css, js
      ensures |r.encode(ContextFor(r, HtmlPart(r, css, js)))|
              == 2 * |r.bundle| + 2 * |r.htmlName| + 2 * |Reason(Html)| + 4 + 2 * URL_LENGTH
    {
      PageIsPage(b.page, css, js);
      EncodedLength(b, ContextFor(r, HtmlPart(r, css, js)));
    }
  }

  lemma EncodedLength(b: Bodies, c: Context)
    ensures |Encode(b, c)| ==
            2 * |c.bundle| + 2 * |c.path| + 2 * |Reason(c.role)| + 3 + |DigestText(b, c.role, c.sha256.preimage)|
  {
    hide DigestText;
  }

  // The part is one of the recipe's, and its body has a short digest.
  predicate OneOf(b: Bodies, p: Part) {
    match p.role
    case Css => p.body == b.css
    case Js => p.body == b.js
    case Html => IsPage(b.page, p.body)
  }

  lemma SampleTaken(cfg: Config, r: Recipe, b: Bodies, p: Part)
    requires LikeSample(r, b) && BodiesFit(cfg, b) && OneOf(b, p)
    requires p.name != "" && !IsSpace(p.name[0]) && |p.name| <= MAX_NAME_LENGTH
    ensures Taken(r, cfg, p)
  {
    NotBlank(r.tenant, MAX_NAME_LENGTH);
    NotBlank(r.actor, MAX_NAME_LENGTH);
    NotBlank(p.name, MAX_NAME_LENGTH);
    NotBlank(MediaType(p.role), MAX_MEDIA_TYPE_LENGTH);
    NotBlank(Reason(p.role), MAX_REASON_LENGTH);
    assert |DigestText(b, p.role, p.body)| <= 1 + 2 * URL_LENGTH;
    hide ValidText, DigestText;
    EncodedLength(b, ContextFor(r, p));
  }

  // ------------------------------------- recipes that are never completed

  ghost function WithBlankName(b: Bodies, role: Role): Recipe {
    match role
    case Css => SampleRecipe(b).(cssName := " ")
    case Js => SampleRecipe(b).(jsName := " ")
    case Html => SampleRecipe(b).(htmlName := " ")
  }

  /**
   * A blank name, of any of the three parts, is within the recipe's own bounds on
   * names, and refused by the service: no attempt ever completes such a recipe.
   */
  lemma BlankNameNeverCompletes(cfg: Config, b: Bodies, role: Role, stores: seq<Store>,
                                results: seq<Result<Bundle, Failure>>, quiets: seq<bool>)
    requires BodiesFit(cfg, b) && stores != [] && stores[0] == Empty
    ensures var r := WithBlankName(b, role);
            && Sensible(r) && Progress(r, cfg, Empty)
            && (Attempts(r, cfg, stores, results, quiets) ==> forall i :: 0 <= i < |results| ==> results[i].Err?)
  {
    var r := WithBlankName(b, role);
    BlankNameIsRefused(cfg, b, role);
    hide Sensible, Progress, Accepts, WithBlankName;
    if Attempts(r, cfg, stores, results, quiets) {
      forall i | 0 <= i < |results| ensures results[i].Err? {
        UnwelcomeNeverCompletes(r, cfg, stores, results, quiets, i);
      }
    }
  }

  lemma EmptyIsProgress(r: Recipe, cfg: Config)
    ensures Progress(r, cfg, Empty) && ViewOf(r, Empty) == map[]
  {
    assert Sane(cfg, Empty);
    assert ViewOf(r, Empty) == map[];
    FreshBundleIsProgress(r, cfg, Empty);
  }

  lemma BlankIsNotTaken(r: Recipe, cfg: Config, p: Part)
    requires p.name == " "
    ensures Refused(r, cfg, map[], p)
  {
    NothingMatches(r, map[], p.name, p.role);
    assert !ValidText(" ", MAX_NAME_LENGTH);
    hide ValidText;
  }

  lemma BlankNameIsRefused(cfg: Config, b: Bodies, role: Role)
    requires BodiesFit(cfg, b)
    ensures var r := WithBlankName(b, role);
            Sensible(r) && Progress(r, cfg, Empty) && !Accepts(r, cfg, Empty)
  {
    var r := WithBlankName(b, role);
    EmptyIsProgress(r, cfg);
    SampleIsFaithful(r, b);
    assert IsValid(r);
    hide Progress, ViewOf, Faithful, IsValid, Encode, Decode, CssAsset, JsAsset, Refused;
    match role
    case Css => BlankIsNotTaken(r, cfg, CssPart(r));
    case Js => BlankIsNotTaken(r, cfg, JsPart(r));
    case Html => BlankIsNotTaken(r, cfg, HtmlPart(r, CssAsset(r, Empty), JsAsset(r, Empty)));
  }
}

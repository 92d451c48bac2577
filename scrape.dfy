/**
 * The listing extractor of backend/scrapeIaai.js: string helpers for URLs,
 * entities, stock numbers and prices, and the four-strategy cascade that turns
 * a search-results page into vehicle listings.
 *
 * The page arrives already queried: the DOM lookups cheerio performs are
 * replaced by a `Page` record holding what those lookups return, and
 * `JSON.parse` is a function parameter (None where it throws).
 */
module Scrape {
  import opened Wrappers
  import opened Text
  import Js
  import Lists
  import Matching

  const BASE_URL: string := "https://www.iaai.com"

  /** One vehicle as the scraper reports it; absent fields are null in the source. */
  datatype Listing = Listing(
    title: Option<string>,
    vehicleLink: Option<string>,
    stockId: Option<string>,
    price: Option<string>,
    image: Option<string>)

  /** `${BASE_URL}/VehicleDetail/${name}~US` */
  function DetailLink(name: string): string {
    BASE_URL + "/VehicleDetail/" + name + "~US"
  }

  /** The image tag built from the resizer service for a vehicle name. */
  function ResizerImg(name: string): string {
    "<img src=\"https://" + "vis.iaai.com/" + "resizer?imageKeys=" + name +
    "~SID~I1&" + "width=400&height=300\"" + " width=\"400\" height=\"300\" />"
  }

  /** The listing the JSON, hidden-id and regex strategies synthesise from a bare vehicle name. */
  function Synthetic(name: string, stockId: Option<string>, price: Option<string>): Listing {
    Listing(None, Some(DetailLink(name)), stockId, price, Some(ResizerImg(name)))
  }

  // ------------------------------------------------------- decodeHtmlEntities

  /**
   * `String.fromCharCode(n)`: the code is taken modulo 2^16. A lone surrogate
   * code unit cannot be a Dafny character and becomes U+FFFD.
   */
  function CharOfCode(n: nat): char {
    var c := n % 0x1_0000;
    if 0xD800 <= c < 0xE000 then '\U{FFFD}' else c as char
  }

  /** `s.replace(/&#(\d+);/g, (_, d) => String.fromCharCode(Number(d)))` */
  function DecodeNumeric(s: string): (r: string)
    ensures '&' !in s ==> r == s
    ensures |r| <= |s|
    decreases |s|
  {
    if |s| < 2 then s
    else if s[0] == '&' && s[1] == '#' then
      var j := RunEnd(s, 2, IsDigit);
      if 2 < j < |s| && s[j] == ';' then
        assert AllDigits(s[2..j]);
        [CharOfCode(ParseDigits(s[2..j]))] + DecodeNumeric(s[j + 1..])
      else [s[0]] + DecodeNumeric(s[1..])
    else [s[0]] + DecodeNumeric(s[1..])
  }

  /** The four named entities in the source's order, then numeric character references. */
  function DecodeHtmlEntities(s: string): string {
    var a := ReplaceAll(s, "&quot;", "\"");
    var b := ReplaceAll(a, "&amp;", "&");
    var c := ReplaceAll(b, "&lt;", "<");
    var d := ReplaceAll(c, "&gt;", ">");
    DecodeNumeric(d)
  }

  lemma NoAmpNoEntity(s: string, pat: string)
    requires |pat| > 0 && pat[0] == '&' && '&' !in s
    ensures !Contains(s, pat)
  {
    forall i | 0 <= i <= |s| ensures !StartsAt(s, i, pat) {
      if i + |pat| <= |s| {
        assert s[i..i + |pat|][0] == s[i];
      }
    }
  }

  /** Text without an ampersand holds no entity and decodes to itself. */
  lemma DecodeEntityFree(s: string)
    requires '&' !in s
    ensures DecodeHtmlEntities(s) == s
  {
    NoAmpNoEntity(s, "&quot;");
    ReplaceAllAbsent(s, "&quot;", "\"");
    NoAmpNoEntity(s, "&amp;");
    ReplaceAllAbsent(s, "&amp;", "&");
    NoAmpNoEntity(s, "&lt;");
    ReplaceAllAbsent(s, "&lt;", "<");
    NoAmpNoEntity(s, "&gt;");
    ReplaceAllAbsent(s, "&gt;", ">");
  }

  /** Decoding never lengthens text: every reference is replaced by one character. */
  lemma DecodeNoLonger(s: string)
    ensures |DecodeHtmlEntities(s)| <= |s|
  {
    var a := ReplaceAll(s, "&quot;", "\"");
    var b := ReplaceAll(a, "&amp;", "&");
    var c := ReplaceAll(b, "&lt;", "<");
    ReplaceAllNoLonger(s, "&quot;", "\"");
    ReplaceAllNoLonger(a, "&amp;", "&");
    ReplaceAllNoLonger(b, "&lt;", "<");
    ReplaceAllNoLonger(c, "&gt;", ">");
  }

  /** `&lt;` between text without ampersands decodes to `<`, and the rest is kept. */
  lemma DecodeLtBetween(a: string, b: string)
    requires '&' !in a && '&' !in b
    ensures DecodeHtmlEntities(a + "&lt;" + b) == a + "<" + b
  {
    var s := a + "&lt;" + b;
    OnlyLtEntity(a, b, "&quot;");
    ReplaceAllAbsent(s, "&quot;", "\"");
    OnlyLtEntity(a, b, "&amp;");
    ReplaceAllAbsent(s, "&amp;", "&");
    ReplaceLtBetween(a, b);
    var c := a + "<" + b;
    NoAmpAround(a, b);
    NoAmpNoEntity(c, "&gt;");
    ReplaceAllAbsent(c, "&gt;", ">");
  }

  /** Replacing `&lt;` touches only the one occurrence between the two texts. */
  lemma ReplaceLtBetween(a: string, b: string)
    requires '&' !in a && '&' !in b
    ensures ReplaceAll(a + "&lt;" + b, "&lt;", "<") == a + "<" + b
  {
    var t := "&lt;" + b;
    forall i | 0 <= i < |a| ensures !StartsAt(a + t, i, "&lt;") {
      assert (a + t)[i] == a[i];
    }
    assert a + "&lt;" + b == a + t;
    ReplaceAllKeepsPrefix(a, t, "&lt;", "<");
    assert t[..4] == "&lt;" && t[4..] == b;
    NoAmpNoEntity(b, "&lt;");
    ReplaceAllAbsent(b, "&lt;", "<");
  }

  lemma NoAmpAround(a: string, b: string)
    requires '&' !in a && '&' !in b
    ensures '&' !in a + "<" + b
  {
    var c := a + "<" + b;
    forall i | 0 <= i < |c| ensures c[i] != '&' {
      if i < |a| { assert c[i] == a[i]; }
      else if i > |a| { assert c[i] == b[i - |a| - 1]; }
    }
  }

  /** The only entity that starts in `a + "&lt;" + b` is that `&lt;`, so another named entity does not occur. */
  lemma OnlyLtEntity(a: string, b: string, pat: string)
    requires '&' !in a && '&' !in b
    requires |pat| >= 4 && pat[0] == '&' && pat[1] != 'l'
    ensures !Contains(a + "&lt;" + b, pat)
  {
    var s := a + "&lt;" + b;
    forall i | 0 <= i <= |s| ensures !StartsAt(s, i, pat) {
      if i + |pat| <= |s| {
        assert s[i..i + |pat|][0] == s[i];
        if i < |a| {
          assert s[i] == a[i];
        } else if i == |a| {
          assert s[i..i + |pat|][1] == s[i + 1] == 'l';
        } else if i < |a| + 4 {
          assert s[i] == "&lt;"[i - |a|];
        } else {
          assert s[i] == b[i - |a| - 4];
        }
      }
    }
  }

  /** The named entities are decoded one after another, so `&amp;lt;` decodes twice, to `<`. */
  lemma DecodeAmpLt()
    ensures DecodeHtmlEntities("&amp;lt;") == "<"
  {
    var s := "&amp;lt;";
    assert !StartsAt(s, 0, "&quot;") && s[1..][..6] != "&quot;" && s[2..][..6] != "&quot;";
    assert ReplaceAll(s, "&quot;", "\"") == s;
    assert ReplaceAll(s, "&amp;", "&") == "&lt;";
    assert ReplaceAll("&lt;", "&lt;", "<") == "<";
    assert ReplaceAll("<", "&gt;", ">") == "<";
  }

  // ---------------------------------------------------------------- absUrl

  predicate IsAbsolute(u: string) {
    StartsWith(u, "http://") || StartsWith(u, "https://")
  }

  function AbsUrlOf(s: string): (r: string)
    requires s != ""
    ensures IsAbsolute(r) && EndsWith(r, s)
    ensures IsAbsolute(s) ==> r == s
    ensures '&' in r ==> '&' in s
  {
    if IsAbsolute(s) then s
    else if StartsWith(s, "//") then
      assert ("https:" + s)[..8] == "https:" + s[..2];
      assert ("https:" + s)[6..] == s;
      "https:" + s
    else if StartsWith(s, "/") then
      assert (BASE_URL + s)[..8] == BASE_URL[..8];
      assert (BASE_URL + s)[|BASE_URL|..] == s;
      BASE_URL + s
    else
      assert (BASE_URL + "/" + s)[..8] == BASE_URL[..8];
      assert (BASE_URL + "/" + s)[|BASE_URL| + 1..] == s;
      BASE_URL + "/" + s
  }

  /** A relative URL is completed by the scheme, by the site origin, or by the origin and a slash. */
  lemma AbsUrlRelative(s: string)
    requires s != "" && !IsAbsolute(s)
    ensures StartsWith(s, "//") ==> AbsUrlOf(s) == "https:" + s
    ensures !StartsWith(s, "//") && StartsWith(s, "/") ==> AbsUrlOf(s) == BASE_URL + s
    ensures !StartsWith(s, "/") ==> AbsUrlOf(s) == BASE_URL + "/" + s
  {
    if !StartsWith(s, "/") {
      assert s[..1] == [s[0]] && s[0] != '/';
      assert |s| < 2 || s[..2][0] == s[0];
    }
  }

  /**
   * `absUrl(u)`: decode entities and trim; empty gives null, an http(s) URL is kept,
   * a protocol-relative one gets `https:`, a rooted path gets the site origin, and
   * anything else is taken relative to the site root. A missing attribute is "".
   */
  function AbsUrl(u: string): (r: Option<string>)
    ensures r.None? <==> Trim(DecodeHtmlEntities(u)) == ""
    ensures r.Some? ==> IsAbsolute(r.value)
    ensures r.Some? ==> IsAbsolute(Trim(DecodeHtmlEntities(u))) ==> r.value == Trim(DecodeHtmlEntities(u))
    ensures r.Some? ==> EndsWith(r.value, Trim(DecodeHtmlEntities(u)))
  {
    var s := Trim(DecodeHtmlEntities(u));
    if s == "" then None else Some(AbsUrlOf(s))
  }

  predicate EndsWith(s: string, t: string) {
    |t| <= |s| && s[|s| - |t|..] == t
  }

  /** Normalising an entity-free URL a second time changes nothing. */
  lemma AbsUrlIdempotent(u: string)
    requires '&' !in u && AbsUrl(u).Some?
    ensures AbsUrl(AbsUrl(u).value) == AbsUrl(u)
  {
    DecodeEntityFree(u);
    var s := Trim(u);
    assert AbsUrl(u) == Some(AbsUrlOf(s));
    TrimNoAmp(u);
    AbsUrlOfTrimmed(s);
    var r := AbsUrlOf(s);
    DecodeEntityFree(r);
    assert Trim(DecodeHtmlEntities(r)) == r != "";
  }

  lemma TrimNoAmp(u: string)
    requires '&' !in u
    ensures '&' !in Trim(u)
  {
    var i, j :| 0 <= i <= j <= |u| && Trim(u) == u[i..j];
  }

  /** A completed URL of trimmed text is trimmed, entity-free when the text is, and complete. */
  lemma AbsUrlOfTrimmed(s: string)
    requires s != "" && !IsSpace(s[|s| - 1]) && '&' !in s
    ensures '&' !in AbsUrlOf(s) && Trim(AbsUrlOf(s)) == AbsUrlOf(s) && AbsUrlOf(AbsUrlOf(s)) == AbsUrlOf(s)
  {
    var r := AbsUrlOf(s);
    AbsoluteHead(r);
    assert r[|r| - 1] == r[|r| - |s|..][|s| - 1] == s[|s| - 1];
    TrimOfTrimmed(r);
  }

  lemma AbsoluteHead(r: string)
    requires IsAbsolute(r)
    ensures |r| >= 7 && r[0] == 'h'
  {
    if StartsWith(r, "http://") {
      assert r[..7][0] == r[0];
    } else {
      assert r[..8][0] == r[0];
    }
  }

  // ------------------------------------------------------------------ uniq

  /** `Array.from(new Set(arr.filter(Boolean)))`: the non-empty strings, each once, first occurrence first. */
  function Uniq(arr: seq<string>): (r: seq<string>)
    ensures forall x :: x in r <==> x in arr && x != ""
    ensures Lists.Distinct(r)
    ensures r == Lists.Dedup(Lists.Filter(arr, NonEmpty))
  {
    var f := Lists.Filter(arr, NonEmpty);
    Lists.DedupElements(f);
    Lists.DedupDistinct(f);
    Lists.Dedup(f)
  }

  predicate NonEmpty(s: string) { s != "" }

  // ------------------------------------------------- vehicle-detail names

  predicate AllAlnum(s: string) { forall i :: 0 <= i < |s| ==> IsAlnum(s[i]) }

  /**
   * `/\/VehicleDetail\/([A-Za-z0-9]+)~US/` tried at position k, case-insensitively
   * when `ci`. The ASCII-only class cannot give back characters to the `~`, so the
   * greedy run is the only candidate.
   */
  function DetailAt(s: string, k: nat, ci: bool): (r: Option<(string, nat)>)
    ensures r.Some? ==> k < r.value.1 <= |s| && |r.value.0| > 0 && AllAlnum(r.value.0)
    ensures r.Some? ==> r.value.1 == k + 15 + |r.value.0| + 3 && StartsAt(s, k + 15, r.value.0)
  {
    if (if ci then StartsAtCI(s, k, "/vehicledetail/") else StartsAt(s, k, "/VehicleDetail/")) then
      var j := RunEnd(s, k + 15, IsAlnum);
      if j > k + 15 && (if ci then StartsAtCI(s, j, "~us") else StartsAt(s, j, "~US")) then
        var e: nat := j + 3;
        Some((s[k + 15..j], e))
      else None
    else None
  }

  /** `extractNameFromVehicleDetailUrl(u)`: the alphanumeric id of the first `/VehicleDetail/<id>~US` (any case). */
  function ExtractName(u: string): (r: Option<string>)
    ensures r.Some? ==> |r.value| > 0 && AllAlnum(r.value)
    ensures r.Some? <==> exists k :: 0 <= k < |u| && DetailAt(u, k, true).Some?
    ensures r.Some? ==> exists k :: 0 <= k < |u| && DetailAt(u, k, true).Some? &&
                                    DetailAt(u, k, true).value.0 == r.value &&
                                    (forall j :: 0 <= j < k ==> DetailAt(u, j, true).None?)
  {
    var at := k => DetailAt(u, k, true);
    assert forall k :: at(k) == DetailAt(u, k, true);
    Matching.FirstGroup(|u|, at)
  }

  // ---------------------------------------------------------- extractMoney

  /** `extractMoney(text)`: the first `$[\d,]+(.dd)?` token after collapsing and trimming whitespace. */
  function ExtractMoney(text: string): (r: Option<string>)
    ensures r.Some? ==> MoneyShape(r.value) && Contains(Trim(CollapseSpaces(text)), r.value)
    ensures var c := Trim(CollapseSpaces(text));
      r.Some? ==> exists k :: 0 <= k <= |c| && MoneyMatch(c, k, r.value) && forall j :: 0 <= j < k ==> !HasMoneyAt(c, j)
    ensures var c := Trim(CollapseSpaces(text));
      r.None? <==> forall k :: 0 <= k <= |c| ==> !HasMoneyAt(c, k)
  {
    MoneyFromMatch(Trim(CollapseSpaces(text)), 0);
    MoneyToken(Trim(CollapseSpaces(text)))
  }

  // -------------------------------------------------- normalizeStockNumber

  /**
   * `/Stock\s*#\s*[:\-]?\s*(\d{5,})/i` tried at position k. Neither `\s*` can give
   * back a space that the next element could match, and an optional `:`/`-` that is
   * present must be taken, so one deterministic pass decides the match.
   */
  function StockTagAt(s: string, k: nat): (r: Option<(string, nat)>)
    ensures r.Some? ==> k < r.value.1 <= |s| && |r.value.0| >= 5 && AllDigits(r.value.0)
    ensures r.Some? ==> StartsAtCI(s, k, "stock")
  {
    if StartsAtCI(s, k, "stock") then
      var a := RunEnd(s, k + 5, IsSpace);
      if a < |s| && s[a] == '#' then
        var b := RunEnd(s, a + 1, IsSpace);
        var c := if b < |s| && (s[b] == ':' || s[b] == '-') then RunEnd(s, b + 1, IsSpace) else b;
        var d := RunEnd(s, c, IsDigit);
        if d - c >= 5 then Some((s[c..d], d)) else None
      else None
    else None
  }

  /** The digits of the first `Stock #` tag in `s`. */
  function StockTag(s: string): (r: Option<string>)
    ensures r.Some? ==> |r.value| >= 5 && AllDigits(r.value)
  {
    Matching.FirstGroup(|s|, k => StockTagAt(s, k))
  }

  /**
   * `normalizeStockNumber(value)`: null for null, undefined and blank input; the
   * digits of a tagged `Stock #: NNNNN` form; otherwise all digits of the text when
   * there are at least five.
   */
  function NormalizeStockNumber(value: Js.Value): (r: Option<string>)
    ensures r.Some? ==> |r.value| >= 5 && AllDigits(r.value)
    ensures value.IsNullish() || Trim(Js.ToStr(value)) == "" ==> r.None?
    ensures !value.IsNullish() ==>
      var s := Trim(Js.ToStr(value));
      var tagged := StockTag(s);
      s != "" && tagged.Some? ==> r == tagged
  {
    if value.IsNullish() then None
    else
      var s := Trim(Js.ToStr(value));
      if s == "" then None
      else
        var tagged := StockTag(s);
        if tagged.Some? then tagged
        else
          var digits := KeepOnly(s, IsDigit);
          if |digits| >= 5 then Some(digits) else None
  }

  /** A normalised stock number normalises to itself. */
  lemma NormalizeStockNumberIdempotent(value: Js.Value)
    requires NormalizeStockNumber(value).Some?
    ensures NormalizeStockNumber(Js.Str(NormalizeStockNumber(value).value)) == NormalizeStockNumber(value)
  {
    NormalizeDigits(NormalizeStockNumber(value).value);
  }

  lemma NormalizeDigits(d: string)
    requires |d| >= 5 && AllDigits(d)
    ensures NormalizeStockNumber(Js.Str(d)) == Some(d)
  {
    assert !IsSpace(d[0]) && !IsSpace(d[|d| - 1]);
    TrimOfTrimmed(d);
    NoStockTag(d);
    KeepOnlyAll(d, IsDigit);
    NormalizeUntagged(Js.Str(d), d);
  }

  /** Without a `Stock #` tag, the digits of the trimmed text, when there are five or more. */
  lemma NormalizeUntagged(value: Js.Value, s: string)
    requires value.Str? && s == Trim(value.s) && s != "" && StockTag(s).None?
    ensures NormalizeStockNumber(value) == (var k := KeepOnly(s, IsDigit); if |k| >= 5 then Some(k) else None)
  {
  }

  lemma NoStockTag(d: string)
    requires AllDigits(d)
    ensures StockTag(d).None?
  {
    var at := (k: nat) => StockTagAt(d, k);
    forall k | 0 <= k < |d| ensures at(k).None? {
      assert IsDigit(d[k]);
    }
  }

  // ---------------------------------------------------------------- getAny

  /** `getAny(obj, keys)`: the value of the first key, in order, that `obj` owns with a non-null value; else null. */
  function GetAny(obj: Js.Value, keys: seq<string>): (r: Js.Value)
    ensures r.Null? <==> forall i :: 0 <= i < |keys| ==> !Js.HasOwn(obj, keys[i]) || Js.Get(obj, keys[i]).IsNullish()
    ensures !r.Null? ==> exists i :: 0 <= i < |keys| && Js.HasOwn(obj, keys[i]) && Js.Get(obj, keys[i]) == r &&
                                     !r.IsNullish() &&
                                     (forall j :: 0 <= j < i ==> !Js.HasOwn(obj, keys[j]) || Js.Get(obj, keys[j]).IsNullish())
  {
    if keys == [] then Js.Null
    else if Js.HasOwn(obj, keys[0]) && !Js.Get(obj, keys[0]).IsNullish() then Js.Get(obj, keys[0])
    else
      var r := GetAny(obj, keys[1..]);
      assert forall i :: 1 <= i < |keys| ==> keys[1..][i - 1] == keys[i];
      r
  }

  // ====================================================== the page, as queried

  /** What the DOM queries of one `div.table-row.table-row-border` row return. */
  datatype Row = Row(
    titleText: string,              // text of the first `h4 a[href^="/VehicleDetail/"]` ("" if none)
    titleHref: string,              // its `href` ("" if absent)
    stockLabel: Option<string>,     // the value next to the "Stock #:" label, trimmed, None if missing or blank
    actionTexts: seq<string>,       // texts of the `ul.data-list--action a[href^="/VehicleDetail/"]` anchors
    imgDataSrc: string,             // `data-src` of the first `img[data-src], img[src]` ("" if absent)
    imgSrc: string)                 // its `src` ("" if absent)

  /** A results page: its raw text and what the four strategies look up in it. */
  datatype Page = Page(
    html: string,
    rows: seq<Row>,
    scripts: seq<string>,           // texts of the `script[type="application/json"]` elements
    vehicleDetails: Option<string>) // `value` of `#VehicleDetails`, None when absent

  // ---------------------------------------------- strategy A: result rows

  predicate SpacedWordsAt(t: string, k: nat, first: string, second: string) {
    StartsAtCI(t, k, first) &&
    var a := RunEnd(t, k + |first|, IsSpace);
    a > k + |first| && StartsAtCI(t, a, second)
  }

  /** `/buy\s+now|current\s+bid|bid/i.test(t)` */
  predicate IsPriceAction(t: string) {
    exists k :: 0 <= k < |t| &&
      (SpacedWordsAt(t, k, "buy", "now") || SpacedWordsAt(t, k, "current", "bid") || StartsAtCI(t, k, "bid"))
  }

  /** A text that mentions a price starts a word at some position, so it is not all whitespace. */
  lemma PriceActionNotBlank(t: string)
    requires IsPriceAction(t)
    ensures Trim(t) != ""
  {
    var k :| 0 <= k < |t| &&
      (SpacedWordsAt(t, k, "buy", "now") || SpacedWordsAt(t, k, "current", "bid") || StartsAtCI(t, k, "bid"));
    if StartsAtCI(t, k, "bid") {
      WordStartNotSpace(t, k, "bid");
    } else if SpacedWordsAt(t, k, "buy", "now") {
      WordStartNotSpace(t, k, "buy");
    } else {
      WordStartNotSpace(t, k, "current");
    }
  }

  /** A word that starts with a letter matched at `k` puts a non-space character there. */
  lemma WordStartNotSpace(t: string, k: nat, w: string)
    requires StartsAtCI(t, k, w) && w != [] && IsAsciiLetter(w[0])
    ensures !IsBlank(t)
  {
    assert ToLower(t[k..k + |w|])[0] == LowerChar(t[k]);
    assert t[k] == t[k..k + |w|][0];
  }

  /** The trimmed text of the first action anchor that mentions a price, "" if there is none. */
  function ActionText(texts: seq<string>): (r: string)
    ensures r != "" ==> exists i :: 0 <= i < |texts| && IsPriceAction(texts[i]) && r == Trim(texts[i]) &&
                                    (forall j :: 0 <= j < i ==> !IsPriceAction(texts[j]))
    ensures r == "" <==> forall i :: 0 <= i < |texts| ==> !IsPriceAction(texts[i])
  {
    if texts == [] then ""
    else if IsPriceAction(texts[0]) then PriceActionNotBlank(texts[0]); Trim(texts[0])
    else
      var r := ActionText(texts[1..]);
      assert forall i :: 1 <= i < |texts| ==> texts[1..][i - 1] == texts[i];
      r
  }

  /**
   * `parseVehicleFromRow` followed by the per-row mapping of strategy A: a row
   * without a link and without a name is dropped; the stock number is normalised;
   * a missing image falls back to the resizer image of the name.
   */
  function RowListing(row: Row): (r: Option<Listing>)
    ensures r.Some? <==> AbsUrl(row.titleHref).Some?
    ensures r.Some? ==> r.value.vehicleLink == AbsUrl(row.titleHref)
    ensures r.Some? ==> r.value.stockId.Some? ==> |r.value.stockId.value| >= 5 && AllDigits(r.value.stockId.value)
    ensures r.Some? ==> r.value.price.Some? ==> MoneyShape(r.value.price.value)
  {
    var link := AbsUrl(row.titleHref);
    var name := ExtractName(link.GetOr(""));
    if link.None? && name.None? then None
    else
      var title := Trim(row.titleText);
      var imgUrl := AbsUrl(if row.imgDataSrc != "" then row.imgDataSrc else row.imgSrc);
      var image :=
        if imgUrl.Some? then Some("<img src=\"" + imgUrl.value + "\" width=\"400\" height=\"300\" />")
        else if name.Some? then Some(ResizerImg(name.value))
        else None;
      Some(Listing(
        if title == "" then None else Some(title),
        if link.Some? then link else (match name case Some(n) => Some(DetailLink(n)) case None => None),
        NormalizeStockNumber(Js.OfString(row.stockLabel)),
        ExtractMoney(ActionText(row.actionTexts)),
        image))
  }

  /** The key of the `byLink` map: a non-empty link. */
  function LinkKey(l: Listing): Option<string> {
    if l.vehicleLink.Some? && l.vehicleLink.value != "" then l.vehicleLink else None
  }

  function RowListings(rows: seq<Row>): seq<Listing> {
    Lists.Somes(seq(|rows|, i requires 0 <= i < |rows| => RowListing(rows[i])))
  }

  /** Strategy A: one listing per link, the first row wins, at most `limit`. */
  function StrategyA(rows: seq<Row>, limit: nat): (r: seq<Listing>)
    ensures |r| <= limit
  {
    Lists.Take(Lists.FirstByKey(RowListings(rows), LinkKey), limit)
  }

  // --------------------------------------- strategy B: embedded JSON documents

  /** An object of a JSON document that carries a string name. */
  datatype JsonRecord = JsonRecord(name: string, stockId: Option<string>, price: Option<string>)

  const NAME_KEYS: seq<string> := ["name", "Name"]
  const STOCK_KEYS: seq<string> := ["stockNumber", "StockNumber", "stockNo", "StockNo", "stockNum", "StockNum",
                                    "stockNbr", "StockNbr", "stock_number", "stock", "Stock"]
  const LABEL_KEYS: seq<string> := ["stockLabel", "StockLabel", "displayStock", "DisplayStock",
                                    "vehicleDescription", "VehicleDescription", "title", "Title"]
  const PRICE_KEYS: seq<string> := ["price", "Price", "buyNowPrice", "BuyNowPrice", "currentBid", "CurrentBid"]

  /**
   * The record an object contributes: one when its name (`node.name ?? node.Name`)
   * is a non-empty string, none otherwise. Only own properties exist in the model,
   * so a `??` chain and `getAny` over the same keys coincide.
   */
  function NodeRecord(node: Js.Value): (r: seq<JsonRecord>)
    ensures |r| <= 1
    ensures |r| == 1 <==> GetAny(node, NAME_KEYS).Str? && GetAny(node, NAME_KEYS).s != ""
    ensures |r| == 1 ==> r[0].name == GetAny(node, NAME_KEYS).s
  {
    var name := GetAny(node, NAME_KEYS);
    if name.Str? && name.s != "" then
      var stock := NormalizeStockNumber(GetAny(node, STOCK_KEYS));
      var stockId := if stock.Some? then stock else NormalizeStockNumber(GetAny(node, LABEL_KEYS));
      var price := GetAny(node, PRICE_KEYS);
      [JsonRecord(name.s, stockId, if price.Null? then None else Some(Js.ToStr(price)))]
    else []
  }

  /** The number of values in a JSON tree: the stack walk's termination measure. */
  ghost function Size(v: Js.Value): nat
    decreases v, 1
  {
    match v
    case Arr(items) => 1 + StackSize(items)
    case Obj(fields) => 1 + FieldSize(v, |fields|)
    case _ => 1
  }

  ghost function StackSize(xs: seq<Js.Value>): nat
    decreases xs, 1
  {
    if xs == [] then 0 else StackSize(xs[..|xs| - 1]) + Size(xs[|xs| - 1])
  }

  ghost function FieldSize(v: Js.Value, n: nat): nat
    requires v.Obj? && n <= |v.fields|
    decreases v, 0, n
  {
    if n == 0 then 0 else FieldSize(v, n - 1) + Size(v.fields[n - 1].1)
  }

  lemma {:induction false} StackSizeValues(v: Js.Value, n: nat)
    requires v.Obj? && n <= |v.fields|
    ensures StackSize(Js.Values(v)[..n]) == FieldSize(v, n)
  {
    if n > 0 {
      assert Js.Values(v)[..n][..n - 1] == Js.Values(v)[..n - 1];
      StackSizeValues(v, n - 1);
    }
  }

  lemma {:induction false} StackSizeAppend(a: seq<Js.Value>, b: seq<Js.Value>)
    ensures StackSize(a + b) == StackSize(a) + StackSize(b)
  {
    if b == [] {
      assert a + b == a;
    } else {
      assert (a + b)[..|a + b| - 1] == a + b[..|b| - 1];
      StackSizeAppend(a, b[..|b| - 1]);
    }
  }

  /**
   * What the walk records while it works off `v` sitting on top of the stack:
   * falsy values and scalars record nothing, an array pushes its elements in order
   * (so they are popped last first), an object records itself and then pushes its
   * property values in key order.
   */
  function Visit(v: Js.Value): seq<JsonRecord>
    decreases Size(v), 0
  {
    if !Js.Truthy(v) then []
    else match v
      case Arr(items) => VisitStack(items)
      case Obj(fields) =>
        StackSizeValues(v, |fields|);
        assert Js.Values(v)[..|fields|] == Js.Values(v);
        NodeRecord(v) + VisitStack(Js.Values(v))
      case _ => []
  }

  /** What the walk records while it works off a whole stack, whose top is its last element. */
  function VisitStack(stack: seq<Js.Value>): seq<JsonRecord>
    decreases StackSize(stack), 1
  {
    if stack == [] then [] else Visit(stack[|stack| - 1]) + VisitStack(stack[..|stack| - 1])
  }

  lemma {:induction false} VisitStackAppend(a: seq<Js.Value>, b: seq<Js.Value>)
    ensures VisitStack(a + b) == VisitStack(b) + VisitStack(a)
    decreases |b|
  {
    if b == [] {
      assert a + b == a;
    } else {
      assert (a + b)[..|a + b| - 1] == a + b[..|b| - 1];
      VisitStackAppend(a, b[..|b| - 1]);
    }
  }

  /** The records of one script: nothing for a blank script or one that does not parse. */
  function ScriptRecords(txt: string, parse: string -> Option<Js.Value>): seq<JsonRecord> {
    var t := Trim(txt);
    if t == "" then []
    else match parse(t)
      case None => []
      case Some(v) => Visit(v)
  }

  function AllScriptRecords(scripts: seq<string>, parse: string -> Option<Js.Value>): seq<JsonRecord> {
    if scripts == [] then []
    else AllScriptRecords(scripts[..|scripts| - 1], parse) + ScriptRecords(scripts[|scripts| - 1], parse)
  }

  lemma VisitObject(node: Js.Value)
    requires node.Obj?
    ensures Visit(node) == NodeRecord(node) + VisitStack(Js.Values(node))
    ensures StackSize(Js.Values(node)) < Size(node)
  {
    StackSizeValues(node, |node.fields|);
    assert Js.Values(node)[..|node.fields|] == Js.Values(node);
  }

  /** The `while (stack.length)` walk of one parsed document. */
  method WalkDocument(root: Js.Value) returns (records: seq<JsonRecord>)
    ensures records == Visit(root)
  {
    records := [];
    var stack := [root];
    VisitSingleton(root);
    while stack != []
      invariant Visit(root) == records + VisitStack(stack)
      decreases StackSize(stack)
    {
      var pushed, found := Expand(stack[|stack| - 1]);
      StepKeeps(stack, pushed, found);
      records := records + found;
      stack := stack[..|stack| - 1] + pushed;
    }
  }

  lemma PopSize(stack: seq<Js.Value>)
    requires stack != []
    ensures StackSize(stack) == StackSize(stack[..|stack| - 1]) + Size(stack[|stack| - 1])
  {
  }

  lemma PopVisit(stack: seq<Js.Value>)
    requires stack != []
    ensures VisitStack(stack) == Visit(stack[|stack| - 1]) + VisitStack(stack[..|stack| - 1])
  {
  }

  lemma VisitSingleton(v: Js.Value)
    ensures VisitStack([v]) == Visit(v)
  {
    assert [v][..0] == [];
  }

  lemma StepKeeps(stack: seq<Js.Value>, pushed: seq<Js.Value>, found: seq<JsonRecord>)
    requires stack != []
    requires Visit(stack[|stack| - 1]) == found + VisitStack(pushed)
    requires StackSize(pushed) < Size(stack[|stack| - 1])
    ensures VisitStack(stack) == found + VisitStack(stack[..|stack| - 1] + pushed)
    ensures StackSize(stack[..|stack| - 1] + pushed) < StackSize(stack)
  {
    StepVisit(stack, pushed, found);
    StepSize(stack, pushed);
  }

  lemma StepVisit(stack: seq<Js.Value>, pushed: seq<Js.Value>, found: seq<JsonRecord>)
    requires stack != []
    requires Visit(stack[|stack| - 1]) == found + VisitStack(pushed)
    ensures VisitStack(stack) == found + VisitStack(stack[..|stack| - 1] + pushed)
  {
    var rest := stack[..|stack| - 1];
    PopVisit(stack);
    VisitStackAppend(rest, pushed);
    Lists.ConcatAssoc(found, VisitStack(pushed), VisitStack(rest));
  }

  lemma StepSize(stack: seq<Js.Value>, pushed: seq<Js.Value>)
    requires stack != []
    requires StackSize(pushed) < Size(stack[|stack| - 1])
    ensures StackSize(stack[..|stack| - 1] + pushed) < StackSize(stack)
  {
    PopSize(stack);
    StackSizeAppend(stack[..|stack| - 1], pushed);
  }

  /** One popped node: what it records and what it pushes. */
  method Expand(node: Js.Value) returns (pushed: seq<Js.Value>, found: seq<JsonRecord>)
    ensures Visit(node) == found + VisitStack(pushed)
    ensures StackSize(pushed) < Size(node)
  {
    if Js.Truthy(node) && node.Arr? {
      pushed, found := node.items, [];
    } else if Js.Truthy(node) && node.Obj? {
      VisitObject(node);
      pushed, found := Js.Values(node), NodeRecord(node);
    } else {
      pushed, found := [], [];
    }
  }

  /** The `for (const txt of scripts)` loop: blank scripts and those that fail to parse are skipped. */
  method CollectJsonRecords(scripts: seq<string>, parse: string -> Option<Js.Value>) returns (vehicles: seq<JsonRecord>)
    ensures vehicles == AllScriptRecords(scripts, parse)
  {
    vehicles := [];
    for i := 0 to |scripts|
      invariant vehicles == AllScriptRecords(scripts[..i], parse)
    {
      assert scripts[..i + 1][..i] == scripts[..i];
      var trimmed := Trim(scripts[i]);
      if trimmed != "" {
        var parsed := parse(trimmed);
        if parsed.Some? {
          var found := WalkDocument(parsed.value);
          vehicles := vehicles + found;
        }
      }
    }
    assert scripts[..|scripts|] == scripts;
  }

  /** The key of the `byName` map. */
  function NameKey(r: JsonRecord): Option<string> {
    if r.name != "" then Some(r.name) else None
  }

  function SyntheticAll(names: seq<string>): (r: seq<Listing>)
    ensures |r| == |names| && forall i :: 0 <= i < |r| ==> r[i] == Synthetic(names[i], None, None)
  {
    seq(|names|, i requires 0 <= i < |names| => Synthetic(names[i], None, None))
  }

  /** Strategy B: one listing per name, the first record wins, at most `limit`. */
  function StrategyB(records: seq<JsonRecord>, limit: nat): (r: seq<Listing>)
    ensures |r| <= limit
  {
    var kept := Lists.Take(Lists.FirstByKey(records, NameKey), limit);
    seq(|kept|, i requires 0 <= i < |kept| => Synthetic(kept[i].name, kept[i].stockId, kept[i].price))
  }

  // --------------------------------------------- strategy C: hidden id list

  /** `String(s).split("~")[0]` */
  function BeforeTilde(s: string): (r: string)
    ensures |r| <= |s| && r == s[..|r|] && '~' !in r
    ensures |r| < |s| ==> s[|r|] == '~'
  {
    s[..RunEnd(s, 0, NotTilde)]
  }

  predicate NotTilde(c: char) { c != '~' }

  /** The inventory id of one element of the `#VehicleDetails` array (`x?.Id`, up to the first `~`). */
  function HiddenId(x: Js.Value): (r: Option<string>)
    ensures r.Some? ==> r.value != "" && '~' !in r.value
  {
    var id := Js.Get(x, "Id");
    if !Js.Truthy(id) then None
    else
      var inv := BeforeTilde(Js.ToStr(id));
      if inv == "" then None else Some(inv)
  }

  /**
   * Strategy C: the entity-decoded `value` attribute parsed as a JSON array. A
   * missing or empty attribute, a parse failure, or a parsed value that is not an
   * array (whose `.map` would throw) gives nothing.
   */
  function StrategyC(vehicleDetails: Option<string>, limit: nat, parse: string -> Option<Js.Value>): (r: seq<Listing>)
    ensures |r| <= limit
  {
    if vehicleDetails.None? || vehicleDetails.value == "" then []
    else match parse(DecodeHtmlEntities(vehicleDetails.value))
      case Some(Arr(items)) =>
        SyntheticAll(Lists.Take(Lists.Somes(seq(|items|, i requires 0 <= i < |items| => HiddenId(items[i]))), limit))
      case _ => []
  }

  // --------------------------------------------------- strategy D: regexes

  /** `/imageKeys=([A-Za-z0-9]+)~SID~I1/` tried at position k. */
  function ImageKeyAt(s: string, k: nat): (r: Option<(string, nat)>)
    ensures r.Some? ==> k < r.value.1 <= |s| && |r.value.0| > 0 && AllAlnum(r.value.0)
  {
    if StartsAt(s, k, "imageKeys=") then
      var j := RunEnd(s, k + 10, IsAlnum);
      if j > k + 10 && StartsAt(s, j, "~SID~I1") then Some((s[k + 10..j], j + 7)) else None
    else None
  }

  predicate IsName(g: string) { g != "" && AllAlnum(g) }

  /** The names of all image-key matches, in document order. */
  function ImageNames(html: string): (r: seq<string>)
    ensures forall i :: 0 <= i < |r| ==> r[i] != "" && AllAlnum(r[i])
  {
    var at := (k: nat) => ImageKeyAt(html, k);
    Matching.ScanGroups(|html|, 0, at, IsName);
    Matching.Scan(|html|, 0, at)
  }

  /** The ids of all (case-sensitive) vehicle-detail link matches, in document order. */
  function LinkNames(html: string): (r: seq<string>)
    ensures forall i :: 0 <= i < |r| ==> r[i] != "" && AllAlnum(r[i])
  {
    var at := (k: nat) => DetailAt(html, k, false);
    Matching.ScanGroups(|html|, 0, at, IsName);
    Matching.Scan(|html|, 0, at)
  }

  /** The de-duplicated names strategy D keeps before truncation: image keys first, then link ids. */
  function RegexNames(html: string): seq<string> {
    Uniq(Uniq(ImageNames(html)) + Uniq(LinkNames(html)))
  }

  /** Strategy D: synthetic listings for the first `limit` names. */
  function StrategyD(html: string, limit: nat): (r: seq<Listing>)
    ensures |r| <= limit
  {
    SyntheticAll(Lists.Take(RegexNames(html), limit))
  }

  // ------------------------------------------------------------ the cascade

  /**
   * `extractVehiclesFromHtml(html, limit)`: the first of the strategies A, B, C, D
   * that produces listings. Strategy B is chosen as soon as the walk records
   * anything, even when `limit` then cuts it to nothing.
   */
  function Extract(page: Page, limit: nat, parse: string -> Option<Js.Value>): (r: seq<Listing>)
    ensures |r| <= limit
  {
    var a := StrategyA(page.rows, limit);
    if a != [] then a
    else
      var records := AllScriptRecords(page.scripts, parse);
      if records != [] then StrategyB(records, limit)
      else
        var c := StrategyC(page.vehicleDetails, limit, parse);
        if c != [] then c else StrategyD(page.html, limit)
  }

  method ExtractVehiclesFromHtml(page: Page, limit: nat, parse: string -> Option<Js.Value>) returns (out: seq<Listing>)
    ensures out == Extract(page, limit, parse)
    ensures |out| <= limit
  {
    if |page.rows| > 0 {
      var parsed := RowListings(page.rows);
      var byLink := Lists.CollectFirstByKey(parsed, LinkKey);
      out := Lists.Take(byLink, limit);
      if |out| > 0 {
        return;
      }
    }
    var vehicles := CollectJsonRecords(page.scripts, parse);
    if |vehicles| > 0 {
      var byName := Lists.CollectFirstByKey(vehicles, NameKey);
      var kept := Lists.Take(byName, limit);
      out := seq(|kept|, i requires 0 <= i < |kept| => Synthetic(kept[i].name, kept[i].stockId, kept[i].price));
      return;
    }
    out := StrategyC(page.vehicleDetails, limit, parse);
    if |out| > 0 {
      return;
    }
    out := StrategyD(page.html, limit);
  }

  // ---------------------------------------------------------- properties

  lemma DetailLinkAbsolute(name: string)
    ensures IsAbsolute(DetailLink(name))
  {
    assert DetailLink(name)[..8] == BASE_URL[..8];
  }

  lemma {:induction false} SyntheticLinksAbsolute(names: seq<string>)
    ensures forall i :: 0 <= i < |SyntheticAll(names)| ==>
      SyntheticAll(names)[i].vehicleLink.Some? && IsAbsolute(SyntheticAll(names)[i].vehicleLink.value)
  {
    forall i | 0 <= i < |names| ensures IsAbsolute(DetailLink(names[i])) {
      DetailLinkAbsolute(names[i]);
    }
  }

  /** Every listing a row produces carries the absolutised title link. */
  lemma RowListingsAbsolute(rows: seq<Row>)
    ensures forall l :: l in RowListings(rows) ==> l.vehicleLink.Some? && IsAbsolute(l.vehicleLink.value)
  {
    var opts := seq(|rows|, i requires 0 <= i < |rows| => RowListing(rows[i]));
    forall j | 0 <= j < |opts| && opts[j].Some? ensures LinkedAbsolute(opts[j].value) {
      RowListingAbsolute(rows[j]);
    }
    Lists.SomesAll(opts, LinkedAbsolute);
  }

  predicate LinkedAbsolute(l: Listing) {
    l.vehicleLink.Some? && IsAbsolute(l.vehicleLink.value)
  }

  lemma RowListingAbsolute(row: Row)
    ensures RowListing(row).Some? ==> LinkedAbsolute(RowListing(row).value)
  {
  }

  /** Whichever strategy answers, every listing links to an absolute URL. */
  lemma ExtractLinksAbsolute(page: Page, limit: nat, parse: string -> Option<Js.Value>)
    ensures forall i :: 0 <= i < |Extract(page, limit, parse)| ==>
      Extract(page, limit, parse)[i].vehicleLink.Some? && IsAbsolute(Extract(page, limit, parse)[i].vehicleLink.value)
  {
    var a := StrategyA(page.rows, limit);
    if a != [] {
      StrategyALinksAbsolute(page.rows, limit);
    } else {
      var records := AllScriptRecords(page.scripts, parse);
      if records != [] {
        StrategyBLinksAbsolute(records, limit);
      } else {
        var c := StrategyC(page.vehicleDetails, limit, parse);
        if c != [] {
          StrategyCLinksAbsolute(page.vehicleDetails, limit, parse);
        } else {
          SyntheticLinksAbsolute(Lists.Take(RegexNames(page.html), limit));
        }
      }
    }
  }

  lemma StrategyALinksAbsolute(rows: seq<Row>, limit: nat)
    ensures forall i :: 0 <= i < |StrategyA(rows, limit)| ==> LinkedAbsolute(StrategyA(rows, limit)[i])
  {
    var a := StrategyA(rows, limit);
    var kept := Lists.FirstByKey(RowListings(rows), LinkKey);
    Lists.FirstByKeySubset(RowListings(rows), LinkKey);
    RowListingsAbsolute(rows);
    assert forall i :: 0 <= i < |a| ==> a[i] == kept[i];
  }

  lemma StrategyBLinksAbsolute(records: seq<JsonRecord>, limit: nat)
    ensures forall i :: 0 <= i < |StrategyB(records, limit)| ==> LinkedAbsolute(StrategyB(records, limit)[i])
  {
    var kept := Lists.Take(Lists.FirstByKey(records, NameKey), limit);
    forall i | 0 <= i < |kept| ensures IsAbsolute(DetailLink(kept[i].name)) {
      DetailLinkAbsolute(kept[i].name);
    }
  }

  lemma StrategyCLinksAbsolute(vehicleDetails: Option<string>, limit: nat, parse: string -> Option<Js.Value>)
    ensures forall i :: 0 <= i < |StrategyC(vehicleDetails, limit, parse)| ==>
      LinkedAbsolute(StrategyC(vehicleDetails, limit, parse)[i])
  {
    if vehicleDetails.Some? && vehicleDetails.value != "" {
      match parse(DecodeHtmlEntities(vehicleDetails.value))
      case Some(Arr(items)) =>
        SyntheticLinksAbsolute(Lists.Take(Lists.Somes(seq(|items|, i requires 0 <= i < |items| => HiddenId(items[i]))), limit));
      case _ =>
    }
  }

  /** Strategy A keeps one listing per link. */
  lemma StrategyADistinctLinks(rows: seq<Row>, limit: nat)
    ensures forall i, j :: 0 <= i < j < |StrategyA(rows, limit)| ==>
      StrategyA(rows, limit)[i].vehicleLink != StrategyA(rows, limit)[j].vehicleLink
  {
    var kept := Lists.FirstByKey(RowListings(rows), LinkKey);
    Lists.FirstByKeyKeys(RowListings(rows), LinkKey);
    var a := StrategyA(rows, limit);
    forall i, j | 0 <= i < j < |a| ensures a[i].vehicleLink != a[j].vehicleLink {
      assert a[i] == kept[i] && a[j] == kept[j];
      assert LinkKey(kept[i]) != LinkKey(kept[j]);
    }
  }

  /** The listing Strategy A keeps for a link is the first parsed row with that link. */
  lemma StrategyAFirstWins(rows: seq<Row>, limit: nat)
    ensures forall i :: 0 <= i < |StrategyA(rows, limit)| ==>
      var l := StrategyA(rows, limit)[i];
      LinkKey(l).Some? && LinkKey(l).value in Lists.KeySet(RowListings(rows), LinkKey) &&
      l == RowListings(rows)[Lists.FirstWithKey(RowListings(rows), LinkKey, LinkKey(l).value)]
  {
    var kept := Lists.FirstByKey(RowListings(rows), LinkKey);
    Lists.FirstByKeyFirstWins(RowListings(rows), LinkKey);
    var a := StrategyA(rows, limit);
    forall i | 0 <= i < |a| ensures a[i] == kept[i] { }
  }

  /** Strategy B keeps one listing per name, built from a record with that name. */
  lemma StrategyBDedup(records: seq<JsonRecord>, limit: nat)
    ensures forall i, j :: 0 <= i < j < |StrategyB(records, limit)| ==>
      StrategyB(records, limit)[i].vehicleLink != StrategyB(records, limit)[j].vehicleLink
    ensures forall i :: 0 <= i < |StrategyB(records, limit)| ==>
      exists r :: r in records && StrategyB(records, limit)[i] == Synthetic(r.name, r.stockId, r.price)
  {
    var kept := Lists.FirstByKey(records, NameKey);
    Lists.FirstByKeyKeys(records, NameKey);
    Lists.FirstByKeySubset(records, NameKey);
    var t := Lists.Take(kept, limit);
    var b := StrategyB(records, limit);
    forall i, j | 0 <= i < j < |b| ensures b[i].vehicleLink != b[j].vehicleLink {
      assert t[i] == kept[i] && t[j] == kept[j];
      assert NameKey(kept[i]) != NameKey(kept[j]);
      DetailLinkInjective(t[i].name, t[j].name);
    }
    forall i | 0 <= i < |b| ensures exists r :: r in records && b[i] == Synthetic(r.name, r.stockId, r.price) {
      assert t[i] == kept[i] && kept[i] in records;
    }
  }

  lemma DetailLinkInjective(a: string, b: string)
    ensures a != b ==> DetailLink(a) != DetailLink(b)
  {
    var p := BASE_URL + "/VehicleDetail/";
    if DetailLink(a) == DetailLink(b) {
      assert DetailLink(a) == p + a + "~US" && DetailLink(b) == p + b + "~US";
      assert |a| == |b|;
      assert a == DetailLink(a)[|p|..|p| + |a|];
      assert b == DetailLink(b)[|p|..|p| + |b|];
    }
  }

  /** Names found by the image-key regex come first, in their own order. */
  lemma RegexNamesImagesFirst(html: string)
    ensures |Uniq(ImageNames(html))| <= |RegexNames(html)|
    ensures RegexNames(html)[..|Uniq(ImageNames(html))|] == Uniq(ImageNames(html))
  {
    UniqPrefix(ImageNames(html), Uniq(LinkNames(html)));
  }

  lemma UniqPrefix(xs: seq<string>, ys: seq<string>)
    ensures |Uniq(xs)| <= |Uniq(Uniq(xs) + ys)| && Uniq(Uniq(xs) + ys)[..|Uniq(xs)|] == Uniq(xs)
  {
    var u := Uniq(xs);
    forall i | 0 <= i < |u| ensures NonEmpty(u[i]) {
      assert u[i] in u;
    }
    Lists.FilterAll(u, NonEmpty);
    Lists.FilterAppend(u, ys, NonEmpty);
    Lists.DedupExtends(u, Lists.Filter(ys, NonEmpty));
    Lists.DedupOfDistinct(u);
  }
}

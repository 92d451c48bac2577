/**
 * The update e-mail: how a changed vehicle is normalised for mailing (links
 * must carry a numeric vehicle id, resizer images a numeric key), how every
 * interpolated value is HTML-escaped, and the HTML the message body is built
 * from. Sending is left out; the message body is a function of its inputs.
 */
module Mailer {
  import opened Wrappers
  import opened Text
  import Js
  import Matching
  import Scrape
  import Diff

  // ---------------------------------------------------------------- esc

  /** The characters `esc` replaces by an entity. */
  predicate Special(c: char) { c == '&' || Unsafe(c) }

  /** The characters that may not appear in escaped text at all. */
  predicate Unsafe(c: char) { c == '<' || c == '>' || c == '"' || c == '\'' }

  function EntityFor(c: char): string {
    if c == '&' then "&amp;"
    else if c == '<' then "&lt;"
    else if c == '>' then "&gt;"
    else if c == '"' then "&quot;"
    else if c == '\'' then "&#39;"
    else [c]
  }

  /** `str.replace(/[&<>"']/g, ...)`: every special character becomes its entity. */
  function Escape(s: string): (r: string)
    ensures forall i :: 0 <= i < |r| ==> !Unsafe(r[i])
    ensures (forall i :: 0 <= i < |s| ==> !Special(s[i])) ==> r == s
    ensures '&' !in r ==> forall i :: 0 <= i < |s| ==> !Special(s[i])
  {
    if s == [] then []
    else
      var rest := Escape(s[1..]);
      assert forall i :: 1 <= i < |s| ==> s[1..][i - 1] == s[i];
      EntityFor(s[0]) + rest
  }

  /** `String(s ?? "")` */
  function StrOf(v: Js.Value): string {
    if v.IsNullish() then "" else Js.ToStr(v)
  }

  /** `esc(v)` */
  function Esc(v: Js.Value): string {
    Escape(StrOf(v))
  }

  /** Decoding the five entities `esc` produces, the way an HTML reader does. */
  function Unescape(s: string): string
    decreases |s|
  {
    if s == [] then []
    else if StartsWith(s, "&amp;") then "&" + Unescape(s[5..])
    else if StartsWith(s, "&lt;") then "<" + Unescape(s[4..])
    else if StartsWith(s, "&gt;") then ">" + Unescape(s[4..])
    else if StartsWith(s, "&quot;") then "\"" + Unescape(s[6..])
    else if StartsWith(s, "&#39;") then "'" + Unescape(s[5..])
    else [s[0]] + Unescape(s[1..])
  }

  lemma UnescapeEntity(c: char, t: string)
    ensures Unescape(EntityFor(c) + t) == [c] + Unescape(t)
  {
    var e := EntityFor(c);
    var s := e + t;
    assert s[..|e|] == e && s[|e|..] == t;
    if c == '&' {
      assert StartsWith(s, "&amp;");
    } else if c == '<' {
      UnescapeLt(s, t);
    } else if c == '>' {
      UnescapeGt(s, t);
    } else if c == '"' {
      UnescapeQuot(s, t);
    } else if c == '\'' {
      UnescapeApos(s, t);
    } else {
      UnescapePlain(s, c, t);
    }
  }

  lemma UnescapeLt(s: string, t: string)
    requires s == "&lt;" + t
    ensures Unescape(s) == "<" + Unescape(t)
  {
    assert s[1] == 'l' && s[..4] == "&lt;" && s[4..] == t;
    NotStartsWith(s, "&amp;", 1);
  }

  lemma UnescapeGt(s: string, t: string)
    requires s == "&gt;" + t
    ensures Unescape(s) == ">" + Unescape(t)
  {
    assert s[1] == 'g' && s[..4] == "&gt;" && s[4..] == t;
    NotStartsWith(s, "&amp;", 1);
    NotStartsWith(s, "&lt;", 1);
  }

  lemma UnescapeQuot(s: string, t: string)
    requires s == "&quot;" + t
    ensures Unescape(s) == "\"" + Unescape(t)
  {
    assert s[1] == 'q' && s[..6] == "&quot;" && s[6..] == t;
    NotStartsWith(s, "&amp;", 1);
    NotStartsWith(s, "&lt;", 1);
    NotStartsWith(s, "&gt;", 1);
  }

  lemma UnescapeApos(s: string, t: string)
    requires s == "&#39;" + t
    ensures Unescape(s) == "'" + Unescape(t)
  {
    assert s[1] == '#' && s[..5] == "&#39;" && s[5..] == t;
    NotStartsWith(s, "&amp;", 1);
    NotStartsWith(s, "&lt;", 1);
    NotStartsWith(s, "&gt;", 1);
    NotStartsWith(s, "&quot;", 1);
  }

  lemma UnescapePlain(s: string, c: char, t: string)
    requires c != '&' && s == [c] + t
    ensures Unescape(s) == [c] + Unescape(t)
  {
    assert s[0] == c && s[1..] == t;
    NotStartsWith(s, "&amp;", 0);
    NotStartsWith(s, "&lt;", 0);
    NotStartsWith(s, "&gt;", 0);
    NotStartsWith(s, "&quot;", 0);
    NotStartsWith(s, "&#39;", 0);
  }

  /** Escaping loses nothing: the reader recovers the original text. */
  lemma {:induction false} UnescapeEscape(s: string)
    ensures Unescape(Escape(s)) == s
  {
    if s != [] {
      UnescapeEscape(s[1..]);
      UnescapeEntity(s[0], Escape(s[1..]));
    }
  }

  /** Only a string with none of `&<>"'` escapes to a string without `&`, and to itself. */
  lemma EscapeFixedPoints(s: string)
    ensures Escape(s) == s <==> forall i :: 0 <= i < |s| ==> !Special(s[i])
  {
    if exists i :: 0 <= i < |s| && Special(s[i]) {
      EscapeLonger(s);
    }
  }

  /** Escaping a string with a special character makes it strictly longer. */
  lemma {:induction false} EscapeLonger(s: string)
    requires exists i :: 0 <= i < |s| && Special(s[i])
    ensures |Escape(s)| > |s|
  {
    EscapeLength(s);
    if Special(s[0]) {
      EscapeLength(s[1..]);
    } else {
      var i :| 0 <= i < |s| && Special(s[i]);
      assert s[1..][i - 1] == s[i];
      EscapeLonger(s[1..]);
    }
  }

  lemma {:induction false} EscapeLength(s: string)
    ensures |Escape(s)| >= |s|
  {
    if s != [] { EscapeLength(s[1..]); }
  }

  // ------------------------------------------------------------ absolutizeUrl

  const BASE_URL: string := Scrape.BASE_URL

  /** `absolutizeUrl(t)` for a string argument. */
  function AbsolutizeStr(t: string): (r: string)
    ensures r == "" <==> IsBlank(t)
    ensures r != "" ==> Scrape.IsAbsolute(r) && Scrape.EndsWith(r, Trim(t))
    ensures Scrape.IsAbsolute(Trim(t)) ==> r == Trim(t)
  {
    var s := Trim(t);
    if s == "" then "" else Scrape.AbsUrlOf(s)
  }

  /** How a trimmed relative URL is completed: by the scheme, by the site, or by the site and a slash. */
  lemma AbsolutizeRelative(t: string)
    requires !IsBlank(t) && !Scrape.IsAbsolute(Trim(t))
    ensures var s, r := Trim(t), AbsolutizeStr(t);
      (StartsWith(s, "//") ==> r == "https:" + s) &&
      (!StartsWith(s, "//") && StartsWith(s, "/") ==> r == BASE_URL + s) &&
      (!StartsWith(s, "/") ==> r == BASE_URL + "/" + s)
  {
    var s := Trim(t);
    assert AbsolutizeStr(t) == Scrape.AbsUrlOf(s);
    Scrape.AbsUrlRelative(s);
  }

  /** `absolutizeUrl(u)`: `String(u ?? "").trim()`, then a scheme or the site base is prefixed. */
  function Absolutize(u: Js.Value): string {
    AbsolutizeStr(StrOf(u))
  }

  /** An absolutised URL is left alone by a second pass. */
  lemma AbsolutizeIdempotent(t: string)
    ensures AbsolutizeStr(AbsolutizeStr(t)) == AbsolutizeStr(t)
  {
    var r := AbsolutizeStr(t);
    if r != "" {
      var s := Trim(t);
      Scrape.AbsoluteHead(r);
      assert r[|r| - 1] == r[|r| - |s|..][|s| - 1] == s[|s| - 1];
      TrimOfTrimmed(r);
    }
  }

  // ------------------------------------------------------------------- pick

  /** `pick(obj, keys)`: the value of the first key, in order, that is meaningful. */
  function Pick(obj: Js.Value, keys: seq<string>): (r: Js.Value)
    ensures r.Null? || Js.IsMeaningful(r)
    ensures r.Null? <==> !Js.Truthy(obj) || forall i :: 0 <= i < |keys| ==> !Js.IsMeaningful(Js.Get(obj, keys[i]))
    ensures !r.Null? ==> exists i :: 0 <= i < |keys| && r == Js.Get(obj, keys[i]) &&
                                     forall j :: 0 <= j < i ==> !Js.IsMeaningful(Js.Get(obj, keys[j]))
  {
    if Js.Truthy(obj) then FirstGood(obj, keys, Js.IsMeaningful) else Js.Null
  }

  /** The first `obj[k]`, over `keys` in order, that `good` accepts; null when there is none. */
  function FirstGood(obj: Js.Value, keys: seq<string>, good: Js.Value -> bool): (r: Js.Value)
    requires !good(Js.Null)
    ensures r.Null? || good(r)
    ensures r.Null? <==> forall i :: 0 <= i < |keys| ==> !good(Js.Get(obj, keys[i]))
    ensures !r.Null? ==> exists i :: 0 <= i < |keys| && r == Js.Get(obj, keys[i]) &&
                                     forall j :: 0 <= j < i ==> !good(Js.Get(obj, keys[j]))
  {
    if keys == [] then Js.Null
    else if good(Js.Get(obj, keys[0])) then Js.Get(obj, keys[0])
    else
      var r := FirstGood(obj, keys[1..], good);
      assert forall i :: 1 <= i < |keys| ==> keys[1..][i - 1] == keys[i];
      r
  }

  // --------------------------------------------------------- the id gates

  /** At least six characters, all decimal digits (`/^\d{6,}$/`). */
  predicate IsVehicleId(s: string) { |s| >= 6 && AllDigits(s) }

  /** `/\/VehicleDetail\/(\w+)~US/i` tried at position k: `\w` is never `~`, so the greedy run needs no backtracking. */
  function VehicleIdAt(s: string, k: nat): (m: Option<(string, nat)>)
    ensures m.Some? ==> k < m.value.1 <= |s|
  {
    if StartsAtCI(s, k, "/vehicledetail/") then
      var j := RunEnd(s, k + 15, IsWordChar);
      if j > k + 15 && StartsAtCI(s, j, "~us") then Some((s[k + 15..j], j + 3)) else None
    else None
  }

  /** Whether `s` holds a vehicle-detail link anywhere. */
  predicate IsDetailUrl(s: string) {
    exists k :: 0 <= k < |s| && VehicleIdAt(s, k).Some?
  }

  /** The position of the leftmost vehicle-detail match, if there is one. */
  function FirstDetailMatch(s: string): (r: Option<nat>)
    ensures r.None? <==> !IsDetailUrl(s)
    ensures r.Some? ==> r.value < |s| && VehicleIdAt(s, r.value).Some? &&
                        forall j :: 0 <= j < r.value ==> VehicleIdAt(s, j).None?
  {
    var at := (k: nat) => VehicleIdAt(s, k);
    var r := Matching.Leftmost(|s|, 0, at);
    assert r.Some? ==> at(r.value) == VehicleIdAt(s, r.value);
    assert forall j :: 0 <= j < |s| ==> at(j) == VehicleIdAt(s, j);
    r
  }

  /** A position where the pattern matches, with no match before it, is the leftmost one. */
  lemma FirstDetailMatchAt(s: string, k: nat)
    requires k < |s| && VehicleIdAt(s, k).Some? && forall j :: 0 <= j < k ==> VehicleIdAt(s, j).None?
    ensures FirstDetailMatch(s) == Some(k)
  {
  }

  /** `extractVehicleIdFromVehicleDetailUrl(u)`: the id of the first detail-link match, when it is numeric. */
  function ExtractVehicleId(u: Js.Value): (r: Option<string>)
    ensures r.Some? ==> IsVehicleId(r.value) && Contains(StrOf(u), r.value)
    ensures !IsDetailUrl(StrOf(u)) ==> r.None?
    ensures IsDetailUrl(StrOf(u)) ==>
      var g := VehicleIdAt(StrOf(u), FirstDetailMatch(StrOf(u)).value).value.0;
      r == if IsVehicleId(g) then Some(g) else None
  {
    var s := StrOf(u);
    match FirstDetailMatch(s)
    case None => None
    case Some(k) =>
      var g := VehicleIdAt(s, k).value.0;
      VehicleGroup(s, k);
      var id := Trim(g);
      if IsVehicleId(id) then Some(id) else None
  }

  /**
   * The scraper's own detail link for a word-character name passes the gate exactly
   * when the name is a 6+ digit id, and then yields that id.
   */
  lemma DetailLinkId(name: string)
    requires name != [] && forall i :: 0 <= i < |name| ==> IsWordChar(name[i])
    ensures ExtractVehicleId(Js.Str(Scrape.DetailLink(name))) == if IsVehicleId(name) then Some(name) else None
  {
    var s := Scrape.DetailLink(name);
    forall j | 0 <= j < 20 ensures VehicleIdAt(s, j).None? {
      NoDetailInBase(s, name, j);
    }
    DetailMatch(name);
    FirstDetailMatchAt(s, 20);
    TrimOfTrimmedWord(name);
  }

  /** The pattern matches a detail link right after the site base, capturing the name. */
  lemma DetailMatch(name: string)
    requires name != [] && forall i :: 0 <= i < |name| ==> IsWordChar(name[i])
    ensures VehicleIdAt(Scrape.DetailLink(name), 20) == Some((name, 38 + |name|))
  {
    var s := Scrape.DetailLink(name);
    var n := |name|;
    assert |s| == 38 + n;
    assert forall d :: 0 <= d < 15 ==> s[20 + d] == "/VehicleDetail/"[d];
    StartsAtCIByChars(s, 20, "/vehicledetail/");
    assert forall d :: 0 <= d < n ==> s[35 + d] == name[d];
    assert s[35 + n] == '~' && s[36 + n] == 'U' && s[37 + n] == 'S';
    RunEndAt(s, 35, 35 + n, IsWordChar);
    StartsAtCIByChars(s, 35 + n, "~us");
    assert s[35..35 + n] == name;
  }

  /** No detail-link match starts inside the site base of a detail link. */
  lemma NoDetailInBase(s: string, name: string, j: nat)
    requires s == Scrape.DetailLink(name) && j < 20
    ensures VehicleIdAt(s, j).None?
  {
    if j == 6 || j == 7 {
      StartsAtCIMismatch(s, j, "/vehicledetail/", 1);
    } else {
      StartsAtCIMismatch(s, j, "/vehicledetail/", 0);
    }
  }

  /** A string with a vehicle id in it has at least the id's six characters. */
  lemma IdNeedsText(s: string)
    ensures ExtractVehicleId(Js.Str(s)).Some? ==> |s| >= 6
  {
    if ExtractVehicleId(Js.Str(s)).Some? {
      var id := ExtractVehicleId(Js.Str(s)).value;
      assert Contains(s, id);
    }
  }

  /** A detail-link group is a run of word characters of the subject, which trimming leaves alone. */
  lemma VehicleGroup(s: string, k: nat)
    requires VehicleIdAt(s, k).Some?
    ensures Trim(VehicleIdAt(s, k).value.0) == VehicleIdAt(s, k).value.0
    ensures Contains(s, VehicleIdAt(s, k).value.0)
  {
    var g := VehicleIdAt(s, k).value.0;
    assert g == s[k + 15..|g| + k + 15];
    TrimOfTrimmedWord(g);
    assert StartsAt(s, k + 15, g);
  }

  /** A run of word characters has nothing to trim. */
  lemma TrimOfTrimmedWord(g: string)
    requires forall i :: 0 <= i < |g| ==> IsWordChar(g[i])
    ensures Trim(g) == g
  {
    if g != [] {
      assert IsWordChar(g[0]) && IsWordChar(g[|g| - 1]);
      TrimOfTrimmed(g);
    }
  }

  predicate NotAmp(c: char) { c != '&' }

  /** The greatest position in (lo, j] where `tail` starts (case-insensitively): the backtracking of a greedy run. */
  function LastTail(s: string, lo: nat, j: nat, tail: string): (r: Option<nat>)
    requires j <= |s|
    ensures r.Some? ==> lo < r.value <= j && StartsAtCI(s, r.value, tail)
    ensures r.Some? ==> forall m :: r.value < m <= j ==> !StartsAtCI(s, m, tail)
    ensures r.None? ==> forall m :: lo < m <= j ==> !StartsAtCI(s, m, tail)
    decreases j
  {
    if j <= lo then None
    else if StartsAtCI(s, j, tail) then Some(j)
    else LastTail(s, lo, j - 1, tail)
  }

  /**
   * `/imageKeys=([^&]+)~SID~I1/i` tried at position k: the group is the longest run of
   * non-`&` characters that is still followed by `~SID~I1`.
   */
  function ResizerKeyAt(s: string, k: nat): (m: Option<(string, nat)>)
    ensures m.Some? ==> k < m.value.1 <= |s|
  {
    if StartsAtCI(s, k, "imagekeys=") then
      var e := RunEnd(s, k + 10, NotAmp);
      match LastTail(s, k + 10, e, "~sid~i1")
      case None => None
      case Some(j) => Some((s[k + 10..j], j + 7))
    else None
  }

  /** Whether `s` holds a resizer image key anywhere. */
  predicate IsResizerUrl(s: string) {
    exists k :: 0 <= k < |s| && ResizerKeyAt(s, k).Some?
  }

  /** The position of the leftmost resizer-key match, if there is one. */
  function FirstResizerKey(s: string): (r: Option<nat>)
    ensures r.None? <==> !IsResizerUrl(s)
    ensures r.Some? ==> r.value < |s| && ResizerKeyAt(s, r.value).Some? &&
                        forall j :: 0 <= j < r.value ==> ResizerKeyAt(s, j).None?
  {
    var at := (k: nat) => ResizerKeyAt(s, k);
    var r := Matching.Leftmost(|s|, 0, at);
    assert r.Some? ==> at(r.value) == ResizerKeyAt(s, r.value);
    assert forall j :: 0 <= j < |s| ==> at(j) == ResizerKeyAt(s, j);
    r
  }

  /** A position where the pattern matches, with no match before it, is the leftmost one. */
  lemma FirstResizerKeyAt(s: string, k: nat)
    requires k < |s| && ResizerKeyAt(s, k).Some? && forall j :: 0 <= j < k ==> ResizerKeyAt(s, j).None?
    ensures FirstResizerKey(s) == Some(k)
  {
  }

  /** A tail that starts at m and nowhere later up to j is where the backtracking stops. */
  lemma LastTailAt(s: string, lo: nat, j: nat, m: nat, tail: string)
    requires j <= |s| && lo < m <= j && StartsAtCI(s, m, tail)
    requires forall x :: m < x <= j ==> !StartsAtCI(s, x, tail)
    ensures LastTail(s, lo, j, tail) == Some(m)
  {
  }

  /**
   * The scraper's resizer image for a name without `&` passes the gate exactly when the
   * trimmed name is a 6+ digit id.
   */
  lemma ResizerImgValid(name: string)
    requires name != [] && forall i :: 0 <= i < |name| ==> name[i] != '&'
    ensures IsValidResizer(Js.Str(Scrape.ResizerImg(name))) == IsVehicleId(Trim(name))
  {
    var s := Scrape.ResizerImg(name);
    forall j | 0 <= j < 39 ensures ResizerKeyAt(s, j).None? {
      NoResizerInImgHead(s, name, j);
    }
    ResizerMatch(name);
    FirstResizerKeyAt(s, 39);
  }

  /** No resizer-key match starts before the `imageKeys=` of a resizer image. */
  lemma NoResizerInImgHead(s: string, name: string, j: nat)
    requires s == Scrape.ResizerImg(name) && j < 39
    ensures !StartsAtCI(s, j, "imagekeys=")
  {
    ResizerHeadChars(name, j);
    if LowerChar(s[j]) != 'i' {
      StartsAtCIMismatch(s, j, "imagekeys=", 0);
    } else if LowerChar(s[j + 1]) != 'm' {
      StartsAtCIMismatch(s, j, "imagekeys=", 1);
    } else {
      StartsAtCIMismatch(s, j, "imagekeys=", 2);
    }
  }

  /** No three characters before `imageKeys=` in a resizer image read `ima`, in any case. */
  lemma ResizerHeadChars(name: string, j: nat)
    requires j < 39
    ensures var s := Scrape.ResizerImg(name);
      LowerChar(s[j]) != 'i' || LowerChar(s[j + 1]) != 'm' || LowerChar(s[j + 2]) != 'a'
  {
  }

  /** The pattern matches a resizer image at its `imageKeys=`, capturing the name. */
  lemma ResizerMatch(name: string)
    requires name != [] && forall i :: 0 <= i < |name| ==> name[i] != '&'
    ensures ResizerKeyAt(Scrape.ResizerImg(name), 39) == Some((name, 56 + |name|))
  {
    var s := Scrape.ResizerImg(name);
    var n := |name|;
    ResizerKey(name);
    ResizerName(name);
    ResizerTail(name);
    assert StartsAtCI(s, 39, "imagekeys=");
    assert RunEnd(s, 49, NotAmp) == 56 + n;
    assert LastTail(s, 49, 56 + n, "~sid~i1") == Some(49 + n);
  }

  /** A resizer image reads `imageKeys=` at 39. */
  lemma ResizerKey(name: string)
    ensures StartsAtCI(Scrape.ResizerImg(name), 39, "imagekeys=")
  {
    var s := Scrape.ResizerImg(name);
    assert forall d :: 0 <= d < 10 ==> s[39 + d] == "imageKeys="[d];
    StartsAtCIByChars(s, 39, "imagekeys=");
  }

  /** The name follows `imageKeys=` and runs up to the `&` that ends `~SID~I1&`. */
  lemma ResizerName(name: string)
    requires forall i :: 0 <= i < |name| ==> name[i] != '&'
    ensures var s := Scrape.ResizerImg(name);
      |s| > 56 + |name| && s[49..49 + |name|] == name && RunEnd(s, 49, NotAmp) == 56 + |name|
  {
    var s := Scrape.ResizerImg(name);
    var n := |name|;
    assert forall d :: 0 <= d < n ==> s[49 + d] == name[d];
    assert forall d :: 0 <= d < 8 ==> s[49 + n + d] == "~SID~I1&"[d];
    RunEndAt(s, 49, 56 + n, NotAmp);
    assert s[49..49 + n] == name;
  }

  /** Between the name and that `&`, the tail `~SID~I1` is found last right after the name. */
  lemma ResizerTail(name: string)
    requires name != []
    ensures var s := Scrape.ResizerImg(name);
      |s| > 56 + |name| && LastTail(s, 49, 56 + |name|, "~sid~i1") == Some(49 + |name|)
  {
    var s := Scrape.ResizerImg(name);
    var n := |name|;
    assert forall d :: 0 <= d < 8 ==> s[49 + n + d] == "~SID~I1&"[d];
    StartsAtCIByChars(s, 49 + n, "~sid~i1");
    forall x | 49 + n < x <= 56 + n ensures !StartsAtCI(s, x, "~sid~i1") {
      NoTailInTail(s, n, x);
    }
    LastTailAt(s, 49, 56 + n, 49 + n, "~sid~i1");
  }

  lemma NoTailInTail(s: string, n: nat, x: nat)
    requires 49 + n < x <= 56 + n < |s| && forall d :: 0 <= d < 8 ==> s[49 + n + d] == "~SID~I1&"[d]
    ensures !StartsAtCI(s, x, "~sid~i1")
  {
    var d := x - 49 - n;
    assert s[x] == "~SID~I1&"[d];
    if d == 4 {
      assert s[x + 1] == "~SID~I1&"[5];
      StartsAtCIMismatch(s, x, "~sid~i1", 1);
    } else {
      StartsAtCIMismatch(s, x, "~sid~i1", 0);
    }
  }

  /** `isValidVisResizerImage(u)`: a non-resizer string passes; a resizer URL passes only with a 6+ digit key. */
  function IsValidResizer(u: Js.Value): (r: bool)
    ensures !IsResizerUrl(StrOf(u)) ==> r
    ensures IsResizerUrl(StrOf(u)) ==>
      (r <==> IsVehicleId(Trim(ResizerKeyAt(StrOf(u), FirstResizerKey(StrOf(u)).value).value.0)))
  {
    var s := StrOf(u);
    match FirstResizerKey(s)
    case None => true
    case Some(k) => IsVehicleId(Trim(ResizerKeyAt(s, k).value.0))
  }

  /** A string that never says `imageKeys=` (in any case) is not a resizer URL. */
  lemma NoImageKeysValid(u: Js.Value)
    requires forall k :: 0 <= k < |StrOf(u)| ==> !StartsAtCI(StrOf(u), k, "imagekeys=")
    ensures IsValidResizer(u)
  {
  }

  // ------------------------------------------------------ normalizeVehicle

  const LINK_KEYS: seq<string> := ["vehicle_link", "link", "url", "href"]
  const TITLE_KEYS: seq<string> := ["title", "name", "vehicle", "vehicle_title"]
  const STOCK_KEYS: seq<string> := ["stock_id", "stockId", "stock", "stock_number"]
  const PRICE_KEYS: seq<string> := ["price", "current_bid", "bid", "buy_now"]
  const IMAGE_KEYS: seq<string> := ["image", "image_url", "imageUrl", "img", "photo"]

  /** The record `normalizeVehicle` returns; `vehicleLink` is always a string. */
  datatype Normalized = Normalized(
    vehicleLink: string,
    title: Js.Value,
    stockId: Js.Value,
    price: Js.Value,
    image: Js.Value)

  /** The link candidate: the absolutised first meaningful link, if that value is truthy. */
  function CandidateLink(v: Js.Value): string {
    var raw := Pick(v, LINK_KEYS);
    if Js.Truthy(raw) then Absolutize(raw) else ""
  }

  /** `normalizeVehicle(v)` */
  function NormalizeVehicle(v: Js.Value): (r: Normalized)
    ensures r.vehicleLink == "" || (Scrape.IsAbsolute(r.vehicleLink) && ExtractVehicleId(Js.Str(r.vehicleLink)).Some?)
    ensures r.vehicleLink != "" <==> ExtractVehicleId(Js.Str(CandidateLink(v))).Some?
    ensures r.vehicleLink != "" ==> Js.Truthy(Pick(v, LINK_KEYS)) && r.vehicleLink == Absolutize(Pick(v, LINK_KEYS))
    ensures r.title == Pick(v, TITLE_KEYS) && r.stockId == Pick(v, STOCK_KEYS) && r.price == Pick(v, PRICE_KEYS)
    ensures r.image.Null? || (r.image == Pick(v, IMAGE_KEYS) && IsValidResizer(r.image))
    ensures IsValidResizer(Pick(v, IMAGE_KEYS)) ==> r.image == Pick(v, IMAGE_KEYS)
    ensures !IsValidResizer(Pick(v, IMAGE_KEYS)) ==> r.image == Js.Null
  {
    var candidate := CandidateLink(v);
    var link := if ExtractVehicleId(Js.Str(candidate)).Some? then candidate else "";
    IdNeedsText(candidate);
    var image := Pick(v, IMAGE_KEYS);
    Normalized(link, Pick(v, TITLE_KEYS), Pick(v, STOCK_KEYS), Pick(v, PRICE_KEYS),
               if IsValidResizer(image) then image else Js.Null)
  }

  /** The object a change is mailed as: the scraped listing spread out, then `changeType` and `old_price`. */
  function ChangeValue(c: Diff.Change): Js.Value {
    var l := c.vehicle;
    Js.Obj([("title", Js.OfString(l.title)), ("vehicle_link", Js.OfString(l.vehicleLink)),
            ("stock_id", Js.OfString(l.stockId)), ("price", Js.OfString(l.price)),
            ("image", Js.OfString(l.image)),
            ("changeType", Js.Str(if c.changeType == Diff.NEW then "NEW" else "PRICE_CHANGED")),
            ("old_price", Js.OfString(c.oldPrice))])
  }

  /** Text of five or more characters with no whitespace at either end is meaningful. */
  lemma MeaningfulText(s: string)
    requires |s| >= 5 && !IsSpace(s[0]) && !IsSpace(s[|s| - 1])
    ensures Js.IsMeaningful(Js.Str(s))
  {
    TrimOfTrimmed(s);
  }

  /**
   * A listing the scraper synthesises from a bare name (the JSON, hidden-id and regex
   * strategies) is mailed with its link and image only when the name is a 6+ digit id;
   * it never has a title.
   */
  lemma MailedSynthetic(name: string, stockId: Option<string>, price: Option<string>, t: Diff.ChangeType, was: Option<string>)
    requires name != [] && forall i :: 0 <= i < |name| ==> IsWordChar(name[i])
    ensures var n := NormalizeVehicle(ChangeValue(Diff.Change(Scrape.Synthetic(name, stockId, price), t, was)));
      n.vehicleLink == (if IsVehicleId(name) then Scrape.DetailLink(name) else "") &&
      n.image == (if IsVehicleId(name) then Js.Str(Scrape.ResizerImg(name)) else Js.Null) &&
      n.title == Js.Null
  {
    var v := ChangeValue(Diff.Change(Scrape.Synthetic(name, stockId, price), t, was));
    SyntheticFields(name, stockId, price, t, was);
    NormalizeNamed(v, name);
  }

  /** The properties of a synthetic listing's mailed object that normalisation looks at. */
  lemma SyntheticFields(name: string, stockId: Option<string>, price: Option<string>, t: Diff.ChangeType, was: Option<string>)
    ensures var v := ChangeValue(Diff.Change(Scrape.Synthetic(name, stockId, price), t, was));
      v.Obj? && Js.Get(v, "vehicle_link") == Js.Str(Scrape.DetailLink(name)) &&
      Js.Get(v, "image") == Js.Str(Scrape.ResizerImg(name)) &&
      Js.Get(v, "title") == Js.Null && !Js.HasOwn(v, "name") && !Js.HasOwn(v, "vehicle") &&
      !Js.HasOwn(v, "vehicle_title")
  {
    var v := ChangeValue(Diff.Change(Scrape.Synthetic(name, stockId, price), t, was));
    Js.LookupAt(v.fields, "title", 0);
    Js.LookupAt(v.fields, "vehicle_link", 1);
    Js.LookupAt(v.fields, "image", 4);
  }

  /** Normalising an object that carries a detail link and a resizer image for `name`, and no title. */
  lemma NormalizeNamed(v: Js.Value, name: string)
    requires name != [] && forall i :: 0 <= i < |name| ==> IsWordChar(name[i])
    requires v.Obj? && Js.Get(v, "vehicle_link") == Js.Str(Scrape.DetailLink(name)) &&
             Js.Get(v, "image") == Js.Str(Scrape.ResizerImg(name)) &&
             Js.Get(v, "title") == Js.Null && !Js.HasOwn(v, "name") && !Js.HasOwn(v, "vehicle") &&
             !Js.HasOwn(v, "vehicle_title")
    ensures var n := NormalizeVehicle(v);
      n.vehicleLink == (if IsVehicleId(name) then Scrape.DetailLink(name) else "") &&
      n.image == (if IsVehicleId(name) then Js.Str(Scrape.ResizerImg(name)) else Js.Null) &&
      n.title == Js.Null
  {
    NamedLinkOut(v, name);
    NamedImageOut(v, name);
    NamedNoTitle(v);
  }

  lemma NamedLinkOut(v: Js.Value, name: string)
    requires name != [] && forall i :: 0 <= i < |name| ==> IsWordChar(name[i])
    requires v.Obj? && Js.Get(v, "vehicle_link") == Js.Str(Scrape.DetailLink(name))
    ensures NormalizeVehicle(v).vehicleLink == (if IsVehicleId(name) then Scrape.DetailLink(name) else "")
  {
    var link := Scrape.DetailLink(name);
    Scrape.DetailLinkAbsolute(name);
    assert link[|link| - 1] == 'S';
    NamedLink(v, link);
    DetailLinkId(name);
  }

  lemma NamedImageOut(v: Js.Value, name: string)
    requires name != [] && forall i :: 0 <= i < |name| ==> IsWordChar(name[i])
    requires v.Obj? && Js.Get(v, "image") == Js.Str(Scrape.ResizerImg(name))
    ensures NormalizeVehicle(v).image == (if IsVehicleId(name) then Js.Str(Scrape.ResizerImg(name)) else Js.Null)
  {
    var img := Scrape.ResizerImg(name);
    assert img[0] == '<' && img[|img| - 1] == '>';
    TextPicked(v, IMAGE_KEYS, img);
    TrimOfTrimmedWord(name);
    WordNoAmp(name);
    ResizerImgValid(name);
  }

  lemma WordNoAmp(s: string)
    requires forall i :: 0 <= i < |s| ==> IsWordChar(s[i])
    ensures forall i :: 0 <= i < |s| ==> s[i] != '&'
  {
  }

  /** An absolute link under the first link key is the link candidate. */
  lemma NamedLink(v: Js.Value, link: string)
    requires v.Obj? && Js.Get(v, "vehicle_link") == Js.Str(link)
    requires Scrape.IsAbsolute(link) && link[|link| - 1] == 'S'
    ensures CandidateLink(v) == link
  {
    Scrape.AbsoluteHead(link);
    TextPicked(v, LINK_KEYS, link);
    TrimOfTrimmed(link);
  }

  /** Trimmed text of five or more characters under the first key is what `pick` returns. */
  lemma TextPicked(v: Js.Value, keys: seq<string>, text: string)
    requires v.Obj? && keys != [] && Js.Get(v, keys[0]) == Js.Str(text)
    requires |text| >= 5 && !IsSpace(text[0]) && !IsSpace(text[|text| - 1])
    ensures Pick(v, keys) == Js.Str(text)
  {
    MeaningfulText(text);
    PickFirst(v, keys);
  }

  lemma NamedNoTitle(v: Js.Value)
    requires Js.Get(v, "title") == Js.Null && !Js.HasOwn(v, "name") && !Js.HasOwn(v, "vehicle") &&
             !Js.HasOwn(v, "vehicle_title")
    ensures Pick(v, TITLE_KEYS) == Js.Null
  {
    forall i | 0 <= i < |TITLE_KEYS| ensures Js.Get(v, TITLE_KEYS[i]).IsNullish() {
      if i > 0 {
        assert !Js.HasOwn(v, TITLE_KEYS[i]);
      }
    }
    PickAllNullish(v, TITLE_KEYS);
  }

  /** Keys that all read null or undefined give null. */
  lemma PickAllNullish(obj: Js.Value, keys: seq<string>)
    requires forall i :: 0 <= i < |keys| ==> Js.Get(obj, keys[i]).IsNullish()
    ensures Pick(obj, keys) == Js.Null
  {
    forall i | 0 <= i < |keys| ensures !Js.IsMeaningful(Js.Get(obj, keys[i])) {
    }
  }

  /** When the first key's value is meaningful, `pick` returns it. */
  lemma PickFirst(obj: Js.Value, keys: seq<string>)
    requires keys != [] && Js.Truthy(obj) && Js.IsMeaningful(Js.Get(obj, keys[0]))
    ensures Pick(obj, keys) == Js.Get(obj, keys[0])
  {
  }

  // ------------------------------------------------------- buildImageHtml

  /** `/<name>\s*=/` matched case-sensitively at position k. */
  predicate AttrAt(h: string, k: nat, name: string) {
    StartsAt(h, k, name) && var a := RunEnd(h, k + |name|, IsSpace); a < |h| && h[a] == '='
  }

  predicate HasAttr(h: string, name: string) {
    exists k :: 0 <= k < |h| && AttrAt(h, k, name)
  }

  /** Every `data-src=` contains a `src=`, so the data-src rewrite of the tag branch never fires. */
  lemma DataSrcImpliesSrc(h: string)
    ensures HasAttr(h, "data-src") ==> HasAttr(h, "src")
  {
    if HasAttr(h, "data-src") {
      var k :| 0 <= k < |h| && AttrAt(h, k, "data-src");
      assert h[k + 5..k + 8] == h[k..k + 8][5..8];
      assert AttrAt(h, k + 5, "src");
    }
  }

  predicate NotSrcChar(c: char) { c != '"' && c != '\'' && !IsSpace(c) && c != '>' }

  predicate IsQuote(c: char) { c == '"' || c == '\'' }

  predicate NotQuote(c: char) { !IsQuote(c) }

  /** `/src=([^"'\s>]+)/i` at k. */
  function BareSrcAt(h: string, k: nat): (m: Option<(string, nat)>)
    ensures m.Some? ==> k < m.value.1 <= |h|
  {
    if StartsAtCI(h, k, "src=") then
      var e := RunEnd(h, k + 4, NotSrcChar);
      if e > k + 4 then Some((h[k + 4..e], e)) else None
    else None
  }

  /** `/src\s*=\s*["']([^"']+)["']/i` at k. */
  function QuotedSrcAt(h: string, k: nat): (m: Option<(string, nat)>)
    ensures m.Some? ==> k < m.value.1 <= |h|
  {
    if StartsAtCI(h, k, "src") then
      var a := RunEnd(h, k + 3, IsSpace);
      if a < |h| && h[a] == '=' then
        var b := RunEnd(h, a + 1, IsSpace);
        if b < |h| && IsQuote(h[b]) then
          var c := RunEnd(h, b + 1, NotQuote);
          if b + 1 < c < |h| then Some((h[b + 1..c], c + 1)) else None
        else None
      else None
    else None
  }

  /** `/<img/i` at k. */
  function ImgAt(h: string, k: nat): (m: Option<(string, nat)>)
    ensures m.Some? ==> k < m.value.1 <= |h|
  {
    if StartsAtCI(h, k, "<img") then Some(("", k + 4)) else None
  }

  const IMG_STYLE: string := "style=\"max-width:400px;height:auto;display:block;\""

  /** Quote a bare `src=` value. */
  function QuoteSrc(h: string): string {
    Matching.ReplaceFirst(h, (k: nat) => BareSrcAt(h, k), g => "src=\"" + g + "\"")
  }

  /** Absolutise and escape the first quoted `src` value. */
  function AbsolutizeSrc(h: string): string {
    var at := (k: nat) => QuotedSrcAt(h, k);
    assert Matching.Matcher(|h|, at) by {
      forall k | 0 <= k < |h| && at(k).Some? ensures k < at(k).value.1 <= |h| {
        assert at(k) == QuotedSrcAt(h, k);
      }
    }
    Matching.ReplaceFirst(h, at, g => "src=\"" + Escape(AbsolutizeStr(g)) + "\"")
  }

  /** Give the first `<img` the fixed sizing when the tag has no `style=` at all. */
  function AddStyle(h: string): string {
    if HasAttr(h, "style") then h
    else Matching.ReplaceFirst(h, (k: nat) => ImgAt(h, k), g => "<img " + IMG_STYLE)
  }

  /** The tag the plain-URL branch builds around an escaped absolute URL. */
  function PlainImg(escaped: string): string {
    "<img src=\"" + escaped + "\" " + IMG_STYLE + " width=\"400\" />"
  }

  /** `buildImageHtml(v)`: an `<img>` tag given by the scraper is repaired, a plain URL is wrapped in one. */
  function BuildImageHtml(v: Js.Value): (r: string)
    ensures !Js.Truthy(v) ==> r == ""
    ensures Js.Truthy(v) && !Contains(ToLower(Trim(Js.ToStr(v))), "<img") ==>
      (r == "" <==> IsBlank(Js.ToStr(v))) &&
      (r != "" ==> r == PlainImg(Escape(AbsolutizeStr(Js.ToStr(v)))))
  {
    if !Js.Truthy(v) then ""
    else
      var raw := Trim(Js.ToStr(v));
      if Contains(ToLower(raw), "<img") then
        assert !(!HasAttr(raw, "src") && HasAttr(raw, "data-src")) by { DataSrcImpliesSrc(raw); }
        AddStyle(AbsolutizeSrc(QuoteSrc(raw)))
      else
        var abs := AbsolutizeStr(raw);
        TrimIdempotent(Js.ToStr(v));
        if abs == "" then "" else PlainImg(Escape(abs))
  }

  /** A plain image URL reaches the reader intact: the `src` value decodes to the absolute URL. */
  lemma PlainImageSrc(v: Js.Value)
    requires Js.Truthy(v) && !Contains(ToLower(Trim(Js.ToStr(v))), "<img") && !IsBlank(Js.ToStr(v))
    ensures exists e :: BuildImageHtml(v) == PlainImg(e) && (forall i :: 0 <= i < |e| ==> !Unsafe(e[i])) &&
                        Unescape(e) == AbsolutizeStr(Js.ToStr(v)) && Scrape.IsAbsolute(Unescape(e))
  {
    var e := Escape(AbsolutizeStr(Js.ToStr(v)));
    UnescapeEscape(AbsolutizeStr(Js.ToStr(v)));
    assert BuildImageHtml(v) == PlainImg(e);
  }

  // -------------------------------------------------------- vehiclesToHtml

  function StockText(n: Normalized): string { if Js.Truthy(n.stockId) then Esc(n.stockId) else "N/A" }

  function PriceText(n: Normalized): string { if Js.Truthy(n.price) then Esc(n.price) else "N/A" }

  /** The link cell: an anchor labelled by the title (or the link itself), or "N/A" without a link. */
  function LinkText(n: Normalized): string {
    var href := n.vehicleLink;
    var caption := if Js.Truthy(n.title) then Esc(n.title) else if href != "" then Escape(href) else "N/A";
    if href != "" then "<a href=\"" + Escape(href) + "\" target=\"_blank\" rel=\"noopener noreferrer\">" + caption + "</a>"
    else "N/A"
  }

  function ImageText(n: Normalized): string {
    var img := BuildImageHtml(n.image);
    if img != "" then img else "<em>Image not available</em>"
  }

  /** The card of one vehicle, with the template's own line breaks and indentation. */
  function Card(stock: string, price: string, link: string, image: string): string {
    "\n" + "        <div style=\"border:1px solid #e5e7eb; border-radius:10px; padding:12px; margin:12px 0; font-family: Arial, sans-serif;\">\n" +
    "          <div style=\"margin:0 0 6px 0;\"><strong>Stock Id:</strong> " + stock + "</div>\n" +
    "          <div style=\"margin:0 0 6px 0;\"><strong>Price:</strong> " + price + "</div>\n" +
    "          <div style=\"margin:0 0 10px 0;\">\n" +
    "            <strong>Link:</strong>\n" +
    "            " + link + "\n" +
    "          </div>\n" +
    "          <div style=\"margin:0;\">\n" +
    "            " + image + "\n" +
    "          </div>\n" +
    "        </div>\n" +
    "      "
  }

  function ItemHtml(n: Normalized): string {
    Card(StockText(n), PriceText(n), LinkText(n), ImageText(n))
  }

  function ItemsHtml(ns: seq<Normalized>): string {
    if ns == [] then "" else ItemHtml(ns[0]) + ItemsHtml(ns[1..])
  }

  const NO_VEHICLES: string := "<div>No vehicles.</div>"

  function PageHead(count: nat): string {
    "\n    <div style=\"font-family: Arial, sans-serif;\">\n" +
    "      <h3 style=\"margin:0 0 8px 0;\">IAAI Updates</h3>\n" +
    "      <div style=\"margin:0 0 12px 0;\">Found " + NatToString(count) + " update(s).</div>\n" +
    "      "
  }

  const PAGE_TAIL: string := "\n    </div>\n  "

  /** `vehicles || []` as the list `vehiclesToHtml` maps over. */
  function VehicleList(vehicles: Js.Value): seq<Js.Value>
    requires vehicles.Arr? || !Js.Truthy(vehicles)
  {
    if vehicles.Arr? then vehicles.items else []
  }

  /** `vehiclesToHtml(vehicles)`; anything but an array or a falsy value makes `.map` throw. */
  function VehiclesToHtml(vehicles: Js.Value): (r: string)
    requires vehicles.Arr? || !Js.Truthy(vehicles)
    ensures exists body :: r == PageHead(|VehicleList(vehicles)|) + body + PAGE_TAIL &&
                           (body == NO_VEHICLES <==> VehicleList(vehicles) == []) &&
                           (VehicleList(vehicles) != [] ==> body == ItemsHtml(Normalize(VehicleList(vehicles))))
  {
    var vs := VehicleList(vehicles);
    var items := ItemsHtml(Normalize(vs));
    ItemsHead(Normalize(vs));
    PageHead(|vs|) + (if items != "" then items else NO_VEHICLES) + PAGE_TAIL
  }

  function Normalize(vs: seq<Js.Value>): (r: seq<Normalized>)
    ensures |r| == |vs| && forall i :: 0 <= i < |vs| ==> r[i] == NormalizeVehicle(vs[i])
  {
    seq(|vs|, i requires 0 <= i < |vs| => NormalizeVehicle(vs[i]))
  }

  /** Every card starts with a line break, so the cards are never empty and never read "No vehicles." */
  lemma ItemsHead(ns: seq<Normalized>)
    ensures ns == [] <==> ItemsHtml(ns) == ""
    ensures ns != [] ==> ItemsHtml(ns)[0] == '\n' && ItemsHtml(ns) != NO_VEHICLES
  {
    if ns != [] {
      var n := ns[0];
      CardHead(StockText(n), PriceText(n), LinkText(n), ImageText(n));
      assert NO_VEHICLES[0] == '<';
    }
  }

  lemma CardHead(stock: string, price: string, link: string, image: string)
    ensures |Card(stock, price, link, image)| > 0 && Card(stock, price, link, image)[0] == '\n'
  {
    var rest := Card(stock, price, link, image)[1..];
    assert Card(stock, price, link, image) == "\n" + rest;
  }

  /** A cell reads "N/A" exactly when the vehicle has no truthy stock id. */
  lemma StockNA(v: Js.Value)
    ensures StockText(NormalizeVehicle(v)) == "N/A" <==> !Js.Truthy(NormalizeVehicle(v).stockId)
  {
    MeaningfulNotNA(NormalizeVehicle(v).stockId);
  }

  /** A cell reads "N/A" exactly when the vehicle has no truthy price. */
  lemma PriceNA(v: Js.Value)
    ensures PriceText(NormalizeVehicle(v)) == "N/A" <==> !Js.Truthy(NormalizeVehicle(v).price)
  {
    MeaningfulNotNA(NormalizeVehicle(v).price);
  }

  /** The link cell reads "N/A" exactly when normalisation dropped the link. */
  lemma LinkNA(v: Js.Value)
    ensures LinkText(NormalizeVehicle(v)) == "N/A" <==> NormalizeVehicle(v).vehicleLink == ""
  {
    var n := NormalizeVehicle(v);
    if n.vehicleLink != "" {
      assert LinkText(n)[0] == '<';
    }
  }

  /** A picked value or null never escapes to the placeholder "N/A". */
  lemma MeaningfulNotNA(x: Js.Value)
    requires x.Null? || Js.IsMeaningful(x)
    ensures Js.Truthy(x) ==> Esc(x) != "N/A"
  {
    if Js.Truthy(x) && Esc(x) == "N/A" {
      EscapesToNA(StrOf(x));
    }
  }

  /** Only the text "N/A" itself escapes to "N/A", and it is a placeholder spelling. */
  lemma EscapesToNA(s: string)
    requires Escape(s) == "N/A"
    ensures ToLower(Trim(s)) == "n/a"
  {
    EscapedNA(s);
    var t := "N/A";
    assert !IsSpace(t[0]) && !IsSpace(t[|t| - 1]);
    TrimOfTrimmed(t);
    assert ToLower(t) == "n/a";
  }

  lemma EscapedNA(s: string)
    requires Escape(s) == "N/A"
    ensures s == "N/A"
  {
    var e := Escape(s);
    assert e[0] != '&' && e[1] != '&' && e[2] != '&';
    assert '&' !in e;
  }

  // ---------------------------------------------------- unsubscribeFooterHtml

  /** `getAppBaseUrl()`, with APP_BASE_URL, PUBLIC_BASE_URL, PUBLIC_URL and PORT given as parameters. */
  function AppBaseUrl(candidates: seq<Option<string>>, port: Option<string>): (r: string)
    ensures FirstSet(candidates).Some? && Trim(FirstSet(candidates).value) != "" ==>
      StartsWith(Trim(FirstSet(candidates).value), r) && |Trim(FirstSet(candidates).value)| - |r| <= 1
    ensures FirstSet(candidates).Some? && Trim(FirstSet(candidates).value) != "" ==>
      var t := Trim(FirstSet(candidates).value);
      (t[|t| - 1] == '/' ==> r + "/" == t) && (t[|t| - 1] != '/' ==> r == t)
    ensures FirstSet(candidates).None? || Trim(FirstSet(candidates).value) == "" ==>
      r == "http://127.0.0.1:" + (if port.Some? && port.value != "" then port.value else "5174")
  {
    var raw := Trim(FirstSet(candidates).GetOr(""));
    if raw != "" then
      if raw[|raw| - 1] == '/' then raw[..|raw| - 1] else raw
    else
      "http://127.0.0.1:" + (if port.Some? && port.value != "" then port.value else "5174")
  }

  /** `candidates.filter(Boolean)[0]`: the first variable that is set to a non-empty value. */
  function FirstSet(candidates: seq<Option<string>>): (r: Option<string>)
    ensures r.Some? ==> r.value != ""
  {
    if candidates == [] then None
    else if candidates[0].Some? && candidates[0].value != "" then candidates[0]
    else FirstSet(candidates[1..])
  }

  function Footer(safeHref: string, safeAppBase: string): string {
    "\n    <hr style=\"border:none;border-top:1px solid #e5e7eb;margin:18px 0;\" />\n" +
    "    <div style=\"color:#6b7280;font-size:12px;line-height:1.4;font-family: Arial, sans-serif;\">\n" +
    "      <div style=\"margin:0 0 6px 0;\">You are receiving this email because you enabled IAAI update notifications.</div>\n" +
    "      <div style=\"margin:0 0 6px 0;\">To stop receiving these update emails, <a href=\"" + safeHref +
    "\" target=\"_blank\" rel=\"noopener noreferrer\">unsubscribe</a>.</div>\n" +
    "      <div style=\"margin:0;\">If the link doesn't work, copy/paste this URL into your browser: " + safeHref + "</div>\n" +
    "      <div style=\"margin:8px 0 0 0;\">Service URL: " + safeAppBase + "</div>\n" +
    "    </div>\n  "
  }

  /** `unsubscribeFooterHtml(url)`: nothing for a missing or blank URL, else the escaped link and service URL. */
  function UnsubscribeFooter(url: Js.Value, appBase: string): (r: string)
    ensures r == "" <==> !Js.Truthy(url) || IsBlank(Js.ToStr(url))
    ensures r != "" ==> r == Footer(Escape(Trim(Js.ToStr(url))), Escape(appBase))
  {
    var href := Trim(if Js.Truthy(url) then Js.ToStr(url) else "");
    if href == "" then "" else Footer(Escape(href), Escape(appBase))
  }
}

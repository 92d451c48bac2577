/**
 * The upstream search request built from a user's stored filter row: whether any
 * filter is set, the numeric coercion of stored values, the `Searches` entries
 * (one facet per value, one entry per long range) and the fixed paging and sort
 * fields around them. The filter row is a loosely-typed value (a database row).
 */
module Payload {
  import opened Wrappers
  import opened Text
  import Js
  import Lists

  // -------------------------------------------------------- hasAnyFiltersSet

  /** `Array.isArray(x) ? x.join(",") : null` */
  function JoinedOrNull(x: Js.Value): Js.Value {
    if x.Arr? then Js.Str(Js.ToStr(x)) else Js.Null
  }

  /** The twelve values whose presence means "some filter is saved", in source order. */
  function FilterValues(u: Js.Value): seq<Js.Value> {
    [Js.Get(u, "filter_name"), Js.Get(u, "year_from"), Js.Get(u, "year_to"),
     Js.Get(u, "auction_type"), Js.Get(u, "inventory_type"), JoinedOrNull(Js.Get(u, "inventory_types")),
     Js.Get(u, "fuel_type"), JoinedOrNull(Js.Get(u, "fuel_types")),
     Js.Get(u, "min_bid"), Js.Get(u, "max_bid"), Js.Get(u, "odo_from"), Js.Get(u, "odo_to")]
  }

  /** `v !== null && v !== undefined && String(v).trim() !== ""` */
  predicate IsSet(v: Js.Value) {
    !v.IsNullish() && Trim(Js.ToStr(v)) != ""
  }

  function AnySet(vs: seq<Js.Value>): (r: bool)
    ensures r <==> exists i :: 0 <= i < |vs| && IsSet(vs[i])
  {
    if vs == [] then false
    else if IsSet(vs[0]) then true
    else
      var r := AnySet(vs[1..]);
      assert forall i :: 0 < i < |vs| ==> vs[i] == vs[1..][i - 1];
      r
  }

  /** `hasAnyFiltersSet(u)`: a present row with at least one of the twelve values set. */
  function HasAnyFiltersSet(u: Js.Value): (r: bool)
    ensures r <==> Js.Truthy(u) && exists i :: 0 <= i < 12 && IsSet(FilterValues(u)[i])
  {
    Js.Truthy(u) && AnySet(FilterValues(u))
  }

  /** No row, or a row without any value, has no filters. */
  lemma NoRowNoFilters()
    ensures !HasAnyFiltersSet(Js.Null)
    ensures !HasAnyFiltersSet(Js.Obj([]))
  {
    var vs := FilterValues(Js.Obj([]));
    assert forall i :: 0 <= i < 12 ==> vs[i] == Js.Undefined || vs[i] == Js.Null;
  }

  /** A list column of two nulls joins to ",", which counts as a saved filter. */
  lemma NullListCounts(u: Js.Value)
    requires Js.Get(u, "fuel_types") == Js.Arr([Js.Null, Js.Null])
    ensures HasAnyFiltersSet(u)
  {
    var vs := FilterValues(u);
    assert vs[7] == JoinedOrNull(Js.Get(u, "fuel_types"));
    NullsJoinToComma();
    CommaIsSet();
    assert IsSet(vs[7]);
  }

  lemma NullsJoinToComma()
    ensures JoinedOrNull(Js.Arr([Js.Null, Js.Null])) == Js.Str(",")
  {
    var items := [Js.Null, Js.Null];
    var parts := seq(2, i requires 0 <= i < 2 => if items[i].IsNullish() then "" else Js.ToStr(items[i]));
    assert parts == ["", ""];
    assert Js.Join(parts, ",") == ",";
  }

  lemma CommaIsSet()
    ensures IsSet(Js.Str(","))
  {
    TrimOfTrimmed(",");
  }

  // ---------------------------------------------------------- toNumberOrNull

  /**
   * `toNumberOrNull(v)`: null for "", null and undefined; otherwise `Number(v)`
   * when finite. The model's numbers are integers, so a fractional value is null too.
   */
  function ToNumberOrNull(v: Js.Value): (r: Option<int>)
    ensures v == Js.Str("") || v.IsNullish() ==> r.None?
    ensures v.Num? ==> r == Some(v.n)
    ensures v.Bool? ==> r == Some(if v.b then 1 else 0)
    ensures v.Str? && v.s != "" ==> r == Js.StringToNumber(v.s)
    ensures v.Obj? ==> r.None?
  {
    if v == Js.Str("") || v.IsNullish() then None else Js.ToNumber(v)
  }

  /** A rendered integer read back from the database as text is that integer. */
  lemma ToNumberOrNullRoundTrip(n: int)
    ensures ToNumberOrNull(Js.Str(IntToString(n))) == Some(n)
  {
    Js.StringToNumberRoundTrip(n);
  }

  /** A number or null, as the payload builder passes the year bounds on. */
  function OfInt(o: Option<int>): (v: Js.Value)
    ensures ToNumberOrNull(v) == o
  {
    match o
    case None => Js.Null
    case Some(n) => Js.Num(n)
  }

  // ------------------------------------------------------------ Searches

  datatype Facet = Facet(group: string, value: string, forAnalytics: Option<bool>)
  datatype LongRange = LongRange(from: int, name: string, to: int)

  /** One element of `Searches`: a single facet, or a single long range. */
  datatype Search = FacetSearch(facet: Facet) | RangeSearch(range: LongRange)

  /** `{ Facets, FullSearch: null, LongRanges }` as sent upstream. */
  function SearchValue(s: Search): Js.Value {
    match s
    case FacetSearch(f) =>
      var fields := [("Group", Js.Str(f.group)), ("Value", Js.Str(f.value))] +
        (if f.forAnalytics.Some? then [("ForAnalytics", Js.Bool(f.forAnalytics.value))] else []);
      Js.Obj([("Facets", Js.Arr([Js.Obj(fields)])), ("FullSearch", Js.Null), ("LongRanges", Js.Null)])
    case RangeSearch(r) =>
      Js.Obj([("Facets", Js.Null), ("FullSearch", Js.Null),
              ("LongRanges", Js.Arr([Js.Obj([("From", Js.Num(r.from)), ("Name", Js.Str(r.name)), ("To", Js.Num(r.to))])]))])
  }

  /**
   * What `pushLongRange(Searches, name, from, to)` appends: nothing when both
   * bounds are null; a missing From is 0, a missing To is From (or 0).
   */
  function LongRangeEntry(name: string, from: Js.Value, to: Js.Value): (r: seq<Search>)
    ensures ToNumberOrNull(from).None? && ToNumberOrNull(to).None? ==> r == []
    ensures ToNumberOrNull(from).Some? && ToNumberOrNull(to).Some? ==>
      r == [RangeSearch(LongRange(ToNumberOrNull(from).value, name, ToNumberOrNull(to).value))]
    ensures ToNumberOrNull(from).Some? && ToNumberOrNull(to).None? ==>
      r == [RangeSearch(LongRange(ToNumberOrNull(from).value, name, ToNumberOrNull(from).value))]
    ensures ToNumberOrNull(from).None? && ToNumberOrNull(to).Some? ==>
      r == [RangeSearch(LongRange(0, name, ToNumberOrNull(to).value))]
  {
    var lo, hi := ToNumberOrNull(from), ToNumberOrNull(to);
    if lo.None? && hi.None? then []
    else
      var f := lo.GetOr(0);
      var t := if hi.Some? then hi.value else lo.GetOr(0);
      [RangeSearch(LongRange(f, name, t))]
  }

  /**
   * What `pushFacet(Searches, group, value, forAnalytics)` appends: nothing for a
   * null, undefined or blank value; `ForAnalytics` only when that argument is given.
   */
  function FacetEntry(group: string, value: Js.Value, forAnalytics: Js.Value): (r: seq<Search>)
    ensures r == [] <==> value.IsNullish() || Trim(Js.ToStr(value)) == ""
    ensures r != [] ==> |r| == 1 && r[0].FacetSearch? && r[0].facet.group == group && r[0].facet.value == Js.ToStr(value)
    ensures r != [] ==> (r[0].facet.forAnalytics.Some? <==> !forAnalytics.Undefined?)
    ensures r != [] && !forAnalytics.Undefined? ==> r[0].facet.forAnalytics == Some(Js.Truthy(forAnalytics))
  {
    if value.IsNullish() || Trim(Js.ToStr(value)) == "" then []
    else
      var fa := if forAnalytics.Undefined? then None else Some(Js.Truthy(forAnalytics));
      [FacetSearch(Facet(group, Js.ToStr(value), fa))]
  }

  /** The `Searches` array as it is filled in place. */
  class SearchList {
    var searches: seq<Search>

    constructor ()
      ensures searches == []
    {
      searches := [];
    }

    /** `pushLongRange(Searches, name, from, to)` */
    method PushLongRange(name: string, from: Js.Value, to: Js.Value)
      modifies this
      ensures searches == old(searches) + LongRangeEntry(name, from, to)
    {
      var lo := ToNumberOrNull(from);
      var hi := ToNumberOrNull(to);
      if lo.None? && hi.None? {
        return;
      }
      var t := if hi.Some? then hi.value else lo.GetOr(0);
      searches := searches + [RangeSearch(LongRange(lo.GetOr(0), name, t))];
    }

    /** `pushFacet(Searches, group, value, forAnalytics)` */
    method PushFacet(group: string, value: Js.Value, forAnalytics: Js.Value)
      modifies this
      ensures searches == old(searches) + FacetEntry(group, value, forAnalytics)
    {
      if value.IsNullish() || Trim(Js.ToStr(value)) == "" {
        return;
      }
      var fa := if forAnalytics.Undefined? then None else Some(Js.Truthy(forAnalytics));
      searches := searches + [FacetSearch(Facet(group, Js.ToStr(value), fa))];
    }

    /** `for (const v of values) pushFacet(Searches, group, v)` */
    method PushFacets(group: string, values: seq<string>)
      modifies this
      ensures searches == old(searches) + FacetsFor(group, values)
    {
      for i := 0 to |values|
        invariant searches == old(searches) + FacetsFor(group, values[..i])
      {
        FacetsForSnoc(group, values, i);
        PushFacet(group, Js.Str(values[i]), Js.Undefined);
      }
      assert values[..|values|] == values;
    }
  }

  // ------------------------------------------- buildIaaiPayloadFromUserFilters

  const FUEL_ORDER: seq<string> := ["Electric", "Other"]
  const INVENTORY_ORDER: seq<string> := ["Automobiles", "Motorcycles"]

  /** A non-empty array column, else the truthy legacy single column as a one-element list, else nothing. */
  function ChosenTypes(u: Js.Value, arrayKey: string, legacyKey: string): (r: seq<Js.Value>)
    ensures Js.Get(u, arrayKey).Arr? && Js.Get(u, arrayKey).items != [] ==> r == Js.Get(u, arrayKey).items
    ensures !(Js.Get(u, arrayKey).Arr? && Js.Get(u, arrayKey).items != []) ==>
      r == (if Js.Truthy(Js.Get(u, legacyKey)) then [Js.Get(u, legacyKey)] else [])
  {
    var a := Js.Get(u, arrayKey);
    if a.Arr? && |a.items| > 0 then a.items
    else
      var l := Js.Get(u, legacyKey);
      if Js.Truthy(l) then [l] else []
  }

  /** `order.filter(v => chosen.includes(v))` */
  function Ordered(order: seq<string>, chosen: seq<Js.Value>): seq<string> {
    Lists.Filter(order, (s: string) => Js.Str(s) in chosen)
  }

  /** One facet of `group` per value. */
  function FacetsFor(group: string, values: seq<string>): seq<Search> {
    Lists.FlatMap(values, (v: string) => FacetEntry(group, Js.Str(v), Js.Undefined))
  }

  /** The Year range: 1900 to 2027 when neither bound is set, else the bounds as given. */
  function YearEntry(u: Js.Value): seq<Search> {
    var yf, yt := ToNumberOrNull(Js.Get(u, "year_from")), ToNumberOrNull(Js.Get(u, "year_to"));
    if yf.None? && yt.None? then LongRangeEntry("Year", Js.Num(1900), Js.Num(2027))
    else LongRangeEntry("Year", OfInt(yf), OfInt(yt))
  }

  /** The whole `Searches` array, in the order it is filled. */
  function BuildSearches(u: Js.Value): seq<Search> {
    FacetsFor("FuelTypeDesc", Ordered(FUEL_ORDER, ChosenTypes(u, "fuel_types", "fuel_type")))
    + LongRangeEntry("ODOValue", Js.Get(u, "odo_from"), Js.Get(u, "odo_to"))
    + FacetEntry("AuctionType", Js.Str("Buy Now"), Js.Undefined)
    + LongRangeEntry("MinimumBidAmount", Js.Get(u, "min_bid"), Js.Get(u, "max_bid"))
    + YearEntry(u)
    + FacetsFor("InventoryTypes", Ordered(INVENTORY_ORDER, ChosenTypes(u, "inventory_types", "inventory_type")))
  }

  /** The request body: the searches and the fixed paging, sort and status fields. */
  function PayloadValue(searches: seq<Search>): (r: Js.Value)
    ensures r.Obj?
  {
    Js.Obj([
      ("Searches", Js.Arr(seq(|searches|, i requires 0 <= i < |searches| => SearchValue(searches[i])))),
      ("ZipCode", Js.Str("")),
      ("miles", Js.Num(0)),
      ("PageSize", Js.Num(100)),
      ("CurrentPage", Js.Num(1)),
      ("Sort", Js.Arr([Js.Obj([("IsGeoSort", Js.Bool(false)), ("SortField", Js.Str("AuctionDateTime")),
                               ("IsDescending", Js.Bool(false))])])),
      ("ShowRecommendations", Js.Bool(false)),
      ("SaleStatusFilters", Js.Arr([Js.Obj([("SaleStatus", Js.Num(1)), ("IsSelected", Js.Bool(true))])])),
      ("BidStatusFilters", Js.Arr([Js.Obj([("BidStatus", Js.Num(6)), ("IsSelected", Js.Bool(true))])]))
    ])
  }

  lemma FacetsForSnoc(group: string, values: seq<string>, i: nat)
    requires i < |values|
    ensures FacetsFor(group, values[..i + 1]) == FacetsFor(group, values[..i]) + FacetEntry(group, Js.Str(values[i]), Js.Undefined)
  {
    assert values[..i + 1][..i] == values[..i];
  }

  lemma BuildSearchesParts(u: Js.Value, fuel: seq<string>, inventory: seq<string>,
                           p1: seq<Search>, p2: seq<Search>, p3: seq<Search>, p4: seq<Search>, p5: seq<Search>, p6: seq<Search>)
    requires fuel == Ordered(FUEL_ORDER, ChosenTypes(u, "fuel_types", "fuel_type"))
    requires inventory == Ordered(INVENTORY_ORDER, ChosenTypes(u, "inventory_types", "inventory_type"))
    requires p1 == FacetsFor("FuelTypeDesc", fuel)
    requires p2 == p1 + LongRangeEntry("ODOValue", Js.Get(u, "odo_from"), Js.Get(u, "odo_to"))
    requires p3 == p2 + FacetEntry("AuctionType", Js.Str("Buy Now"), Js.Undefined)
    requires p4 == p3 + LongRangeEntry("MinimumBidAmount", Js.Get(u, "min_bid"), Js.Get(u, "max_bid"))
    requires p5 == p4 + YearEntry(u)
    requires p6 == p5 + FacetsFor("InventoryTypes", inventory)
    ensures p6 == BuildSearches(u)
  {
  }

  /** `buildIaaiPayloadFromUserFilters(u)` */
  method BuildIaaiPayload(u: Js.Value) returns (payload: Js.Value)
    ensures payload == PayloadValue(BuildSearches(u))
  {
    var list := new SearchList();
    var fuel := Ordered(FUEL_ORDER, ChosenTypes(u, "fuel_types", "fuel_type"));
    var inventory := Ordered(INVENTORY_ORDER, ChosenTypes(u, "inventory_types", "inventory_type"));
    list.PushFacets("FuelTypeDesc", fuel);
    ghost var p1 := list.searches;
    list.PushLongRange("ODOValue", Js.Get(u, "odo_from"), Js.Get(u, "odo_to"));
    ghost var p2 := list.searches;
    list.PushFacet("AuctionType", Js.Str("Buy Now"), Js.Undefined);
    ghost var p3 := list.searches;
    list.PushLongRange("MinimumBidAmount", Js.Get(u, "min_bid"), Js.Get(u, "max_bid"));
    ghost var p4 := list.searches;
    var yearFrom := ToNumberOrNull(Js.Get(u, "year_from"));
    var yearTo := ToNumberOrNull(Js.Get(u, "year_to"));
    if yearFrom.None? && yearTo.None? {
      list.PushLongRange("Year", Js.Num(1900), Js.Num(2027));
    } else {
      list.PushLongRange("Year", OfInt(yearFrom), OfInt(yearTo));
    }
    ghost var p5 := list.searches;
    assert p5 == p4 + YearEntry(u);
    list.PushFacets("InventoryTypes", inventory);
    assert list.searches == BuildSearches(u) by {
      BuildSearchesParts(u, fuel, inventory, p1, p2, p3, p4, p5, list.searches);
    }
    payload := PayloadValue(list.searches);
  }

  // ----------------------------------------------------------- properties

  /** Facets for non-blank values: one `group` facet per value, in order, without `ForAnalytics`. */
  lemma FacetsForShape(group: string, values: seq<string>)
    requires forall i :: 0 <= i < |values| ==> Trim(values[i]) != ""
    ensures |FacetsFor(group, values)| == |values|
    ensures forall i :: 0 <= i < |values| ==> FacetsFor(group, values)[i] == FacetSearch(Facet(group, values[i], None))
  {
    var f := (v: string) => FacetEntry(group, Js.Str(v), Js.Undefined);
    var keep := (v: string) => Trim(v) != "";
    var g := (v: string) => FacetSearch(Facet(group, v, None));
    forall v ensures f(v) == if keep(v) then [g(v)] else [] {
      FacetOfString(group, v);
    }
    Lists.FlatMapFilter(values, f, keep, g);
    Lists.FilterAll(values, keep);
  }

  lemma FacetOfString(group: string, v: string)
    ensures FacetEntry(group, Js.Str(v), Js.Undefined) ==
      if Trim(v) != "" then [FacetSearch(Facet(group, v, None))] else []
  {
  }

  /**
   * The facet values come out in the canonical order, each at most once, and a
   * canonical value is present exactly when the chosen list contains it.
   */
  lemma OrderedCanonical(order: seq<string>, chosen: seq<Js.Value>)
    requires Lists.Distinct(order)
    ensures Lists.Distinct(Ordered(order, chosen))
    ensures forall s :: s in Ordered(order, chosen) <==> s in order && Js.Str(s) in chosen
  {
    Lists.FilterDistinct(order, (s: string) => Js.Str(s) in chosen);
  }

  /** Neither the order of the chosen values nor their repetition changes the facets. */
  lemma OrderedIgnoresOrder(order: seq<string>, c1: seq<Js.Value>, c2: seq<Js.Value>)
    requires forall x :: x in c1 <==> x in c2
    ensures Ordered(order, c1) == Ordered(order, c2)
  {
    Lists.FilterSame(order, (s: string) => Js.Str(s) in c1, (s: string) => Js.Str(s) in c2);
  }

  /** Every payload carries exactly one AuctionType facet, and it is "Buy Now" without `ForAnalytics`. */
  lemma AuctionTypeIsBuyNow(u: Js.Value)
    ensures FacetSearch(Facet("AuctionType", "Buy Now", None)) in BuildSearches(u)
    ensures forall s :: s in BuildSearches(u) && s.FacetSearch? && s.facet.group == "AuctionType" ==>
      s.facet == Facet("AuctionType", "Buy Now", None)
  {
    var fuel := Ordered(FUEL_ORDER, ChosenTypes(u, "fuel_types", "fuel_type"));
    var inventory := Ordered(INVENTORY_ORDER, ChosenTypes(u, "inventory_types", "inventory_type"));
    CanonicalNonBlank(FUEL_ORDER, ChosenTypes(u, "fuel_types", "fuel_type"));
    CanonicalNonBlank(INVENTORY_ORDER, ChosenTypes(u, "inventory_types", "inventory_type"));
    FacetsGroup("FuelTypeDesc", fuel);
    FacetsGroup("InventoryTypes", inventory);
    RangesOnly("ODOValue", Js.Get(u, "odo_from"), Js.Get(u, "odo_to"));
    RangesOnly("MinimumBidAmount", Js.Get(u, "min_bid"), Js.Get(u, "max_bid"));
    YearRangesOnly(u);
    BuyNowFacet();
    OnlyMiddleFacet(
      FacetsFor("FuelTypeDesc", fuel), LongRangeEntry("ODOValue", Js.Get(u, "odo_from"), Js.Get(u, "odo_to")),
      FacetEntry("AuctionType", Js.Str("Buy Now"), Js.Undefined),
      LongRangeEntry("MinimumBidAmount", Js.Get(u, "min_bid"), Js.Get(u, "max_bid")),
      YearEntry(u), FacetsFor("InventoryTypes", inventory));
  }

  lemma OnlyMiddleFacet(a1: seq<Search>, a2: seq<Search>, a3: seq<Search>, a4: seq<Search>, a5: seq<Search>, a6: seq<Search>)
    requires forall s :: s in a1 ==> s.FacetSearch? && s.facet.group == "FuelTypeDesc"
    requires forall s :: s in a6 ==> s.FacetSearch? && s.facet.group == "InventoryTypes"
    requires forall s :: s in a2 ==> s.RangeSearch?
    requires forall s :: s in a4 ==> s.RangeSearch?
    requires forall s :: s in a5 ==> s.RangeSearch?
    requires a3 == [FacetSearch(Facet("AuctionType", "Buy Now", None))]
    ensures FacetSearch(Facet("AuctionType", "Buy Now", None)) in a1 + a2 + a3 + a4 + a5 + a6
    ensures forall s :: s in a1 + a2 + a3 + a4 + a5 + a6 && s.FacetSearch? && s.facet.group == "AuctionType" ==>
      s.facet == Facet("AuctionType", "Buy Now", None)
  {
  }

  lemma BuyNowFacet()
    ensures FacetEntry("AuctionType", Js.Str("Buy Now"), Js.Undefined) == [FacetSearch(Facet("AuctionType", "Buy Now", None))]
  {
    var b := "Buy Now";
    assert Trim(b) == b by { TrimOfTrimmed(b); }
    assert Js.ToStr(Js.Str(b)) == b;
  }

  lemma RangesOnly(name: string, from: Js.Value, to: Js.Value)
    ensures forall s :: s in LongRangeEntry(name, from, to) ==> s.RangeSearch?
  {
  }

  lemma YearRangesOnly(u: Js.Value)
    ensures forall s :: s in YearEntry(u) ==> s.RangeSearch?
  {
  }

  lemma FacetsGroup(group: string, values: seq<string>)
    requires forall i :: 0 <= i < |values| ==> Trim(values[i]) != ""
    ensures forall s :: s in FacetsFor(group, values) ==> s.FacetSearch? && s.facet.group == group
  {
    FacetsForShape(group, values);
    forall s | s in FacetsFor(group, values) ensures s.FacetSearch? && s.facet.group == group {
      var i :| 0 <= i < |FacetsFor(group, values)| && FacetsFor(group, values)[i] == s;
    }
  }

  lemma CanonicalNonBlank(order: seq<string>, chosen: seq<Js.Value>)
    requires order == FUEL_ORDER || order == INVENTORY_ORDER
    ensures forall i :: 0 <= i < |Ordered(order, chosen)| ==> Trim(Ordered(order, chosen)[i]) != ""
  {
    OrdersNonBlank(order);
    Lists.FilterKeeps(order, (s: string) => Js.Str(s) in chosen, (w: string) => Trim(w) != "");
  }

  lemma OrdersNonBlank(order: seq<string>)
    requires order == FUEL_ORDER || order == INVENTORY_ORDER
    ensures forall i :: 0 <= i < |order| ==> Trim(order[i]) != ""
  {
    if order == FUEL_ORDER {
      NonBlankWord("Electric");
      NonBlankWord("Other");
    } else {
      NonBlankWord("Automobiles");
      NonBlankWord("Motorcycles");
    }
  }

  lemma NonBlankWord(w: string)
    requires w != [] && !IsSpace(w[0])
    ensures Trim(w) != ""
  {
    assert !IsBlank(w);
  }

  /** With neither year bound set, the Year range is 1900 to 2027. */
  lemma YearDefault(u: Js.Value)
    requires ToNumberOrNull(Js.Get(u, "year_from")).None? && ToNumberOrNull(Js.Get(u, "year_to")).None?
    ensures YearEntry(u) == [RangeSearch(LongRange(1900, "Year", 2027))]
    ensures RangeSearch(LongRange(1900, "Year", 2027)) in BuildSearches(u)
  {
  }

  /** The paging fields are constant: 100 results per page, first page. */
  lemma PagingConstant(searches: seq<Search>)
    ensures Js.Get(PayloadValue(searches), "PageSize") == Js.Num(100)
    ensures Js.Get(PayloadValue(searches), "CurrentPage") == Js.Num(1)
  {
    var fields := PayloadValue(searches).fields;
    Js.LookupAt(fields, "PageSize", 3);
    Js.LookupAt(fields, "CurrentPage", 4);
  }
}

/**
 * The server side of saving a user's filter (`POST /api/filters`): every field of
 * the request body is normalised before it is written to the user's row. Auction
 * type, inventory type and fuel type are small enumerations; the two type lists
 * accept a list or a single value, keep the allowed values once each in the order
 * they first appear, and store null instead of an empty list.
 */
module Filters {
  import opened Wrappers
  import opened Text
  import Js
  import Lists
  import Payload

  const BUY_NOW := "Buy Now"

  /** The two enumerations a type list may hold. */
  datatype Kind = Inventory | Fuel

  function Allowed(k: Kind): (r: seq<string>)
    ensures "" !in r
  {
    match k
    case Inventory => ["Automobiles", "Motorcycles"]
    case Fuel => ["Electric", "Other"]
  }

  /** `v === null || v === undefined || v === ""` */
  predicate IsUnset(v: Js.Value) {
    v.IsNullish() || v == Js.Str("")
  }

  /** `normalizeAuctionType`: only "Buy Now" survives. */
  function NormalizeAuctionType(v: Js.Value): (r: Option<string>)
    ensures r.Some? <==> v == Js.Str(BUY_NOW)
    ensures r.Some? ==> r.value == BUY_NOW
  {
    if IsUnset(v) then None else if v == Js.Str(BUY_NOW) then Some(BUY_NOW) else None
  }

  /** `normalizeInventoryType` and `normalizeFuelType`: the value itself when it is one of the allowed strings. */
  function NormalizeOne(v: Js.Value, k: Kind): (r: Option<string>)
    ensures r.Some? <==> v.Str? && v.s in Allowed(k)
    ensures r.Some? ==> v == Js.Str(r.value) && r.value != ""
  {
    if IsUnset(v) then None else if v.Str? && v.s in Allowed(k) then Some(v.s) else None
  }

  /** `Array.isArray(v) ? v : [v]` */
  function AsList(v: Js.Value): seq<Js.Value> {
    if v.Arr? then v.items else [v]
  }

  /** The allowed strings among `items`, in order and with repeats: what the loop offers to `push`. */
  function Accepted(items: seq<Js.Value>, k: Kind): (r: seq<string>)
    ensures forall x :: x in r <==> x in Allowed(k) && Js.Str(x) in items
  {
    if items == [] then []
    else
      var p := items[..|items| - 1];
      var last := items[|items| - 1];
      assert items == p + [last];
      var d := Accepted(p, k);
      match NormalizeOne(last, k)
      case Some(x) => d + [x]
      case None => d
  }

  /** `normalizeInventoryTypes` / `normalizeFuelTypes`, as a value. */
  function NormalizedTypes(v: Js.Value, k: Kind): (r: Option<seq<string>>)
    ensures r.Some? ==> r.value != []
  {
    if IsUnset(v) then None
    else
      var d := Lists.Dedup(Accepted(AsList(v), k));
      if d == [] then None else Some(d)
  }

  /** `normalizeInventoryTypes` / `normalizeFuelTypes`: the loop that pushes each new allowed value. */
  method NormalizeTypes(v: Js.Value, k: Kind) returns (r: Option<seq<string>>)
    ensures r == NormalizedTypes(v, k)
  {
    if IsUnset(v) {
      return None;
    }
    var arr := AsList(v);
    var normalized: seq<string> := [];
    var i := 0;
    while i < |arr|
      invariant 0 <= i <= |arr|
      invariant normalized == Lists.Dedup(Accepted(arr[..i], k))
    {
      NormalizeStep(arr, i, k);
      var one := NormalizeOne(arr[i], k);
      match one {
        case None =>
        case Some(x) =>
          if x !in normalized {
            normalized := normalized + [x];
          }
      }
      i := i + 1;
    }
    assert arr[..|arr|] == arr;
    r := if |normalized| > 0 then Some(normalized) else None;
  }

  /** One iteration of the loop in `NormalizeTypes`. */
  lemma NormalizeStep(arr: seq<Js.Value>, i: nat, k: Kind)
    requires i < |arr|
    ensures var d := Lists.Dedup(Accepted(arr[..i], k));
      var one := NormalizeOne(arr[i], k);
      Lists.Dedup(Accepted(arr[..i + 1], k)) == if one.Some? && one.value !in d then d + [one.value] else d
  {
    assert arr[..i + 1] == arr[..i] + [arr[i]];
    DedupAcceptedSnoc(arr[..i], arr[i], k);
  }

  /** Accepted values keep the relative order of their first occurrences in the input. */
  lemma {:induction false} AcceptedOrder(items: seq<Js.Value>, k: Kind, x: string, y: string)
    requires x in Accepted(items, k) && y in Accepted(items, k)
    requires Lists.FirstIndex(Accepted(items, k), x) < Lists.FirstIndex(Accepted(items, k), y)
    ensures Js.Str(x) in items && Js.Str(y) in items
    ensures Lists.FirstIndex(items, Js.Str(x)) < Lists.FirstIndex(items, Js.Str(y))
  {
    var p, last := items[..|items| - 1], items[|items| - 1];
    assert items == p + [last];
    var d := Accepted(p, k);
    if x in d && y in d {
      if NormalizeOne(last, k).Some? {
        Lists.FirstIndexPrefix(d, NormalizeOne(last, k).value, x);
        Lists.FirstIndexPrefix(d, NormalizeOne(last, k).value, y);
      }
      AcceptedOrder(p, k, x, y);
      Lists.FirstIndexPrefix(p, last, Js.Str(x));
      Lists.FirstIndexPrefix(p, last, Js.Str(y));
    } else if x in d {
      Lists.FirstIndexLast(d, y);
      assert Js.Str(y) !in p;
      Lists.FirstIndexLast(p, Js.Str(y));
      Lists.FirstIndexPrefix(p, last, Js.Str(x));
    } else {
      Lists.FirstIndexLast(d, x);
      if y in d {
        Lists.FirstIndexPrefix(d, x, y);
      }
    }
  }

  /**
   * A normalised list is non-empty, holds allowed values only, each once, and
   * exactly the allowed strings the input holds.
   */
  lemma NormalizedTypesMembers(v: Js.Value, k: Kind)
    ensures var r := NormalizedTypes(v, k);
      r.Some? ==> (r.value != [] && Lists.Distinct(r.value) &&
                   forall x :: x in r.value <==> x in Allowed(k) && Js.Str(x) in AsList(v))
    ensures NormalizedTypes(v, k).None? <==>
      IsUnset(v) || forall x :: x in Allowed(k) ==> Js.Str(x) !in AsList(v)
  {
    var acc := Accepted(AsList(v), k);
    var d := Lists.Dedup(acc);
    NormalizedTypesCases(v, k);
    Lists.DedupElements(acc);
    Lists.DedupDistinct(acc);
    AcceptedEmpty(AsList(v), k);
  }

  lemma NormalizedTypesCases(v: Js.Value, k: Kind)
    ensures var acc := Accepted(AsList(v), k);
      NormalizedTypes(v, k) == if IsUnset(v) || acc == [] then None else Some(Lists.Dedup(acc))
  {
    var acc := Accepted(AsList(v), k);
    if acc != [] {
      Lists.DedupElements(acc);
      assert acc[0] in Lists.Dedup(acc);
    }
  }

  /** Nothing is accepted exactly when the input holds none of the allowed strings. */
  lemma AcceptedEmpty(items: seq<Js.Value>, k: Kind)
    ensures Accepted(items, k) == [] <==> forall x :: x in Allowed(k) ==> Js.Str(x) !in items
  {
    var acc := Accepted(items, k);
    if acc != [] {
      assert acc[0] in acc;
    }
  }

  /** The normalised list follows the order in which its values first appear in the input. */
  lemma NormalizedTypesOrder(v: Js.Value, k: Kind)
    ensures var r := NormalizedTypes(v, k);
      r.Some? ==> forall i, j :: 0 <= i < j < |r.value| ==>
        Js.Str(r.value[i]) in AsList(v) && Js.Str(r.value[j]) in AsList(v) &&
        Lists.FirstIndex(AsList(v), Js.Str(r.value[i])) < Lists.FirstIndex(AsList(v), Js.Str(r.value[j]))
  {
    var acc := Accepted(AsList(v), k);
    var r := NormalizedTypes(v, k);
    if r.Some? {
      Lists.DedupOrder(acc);
      forall i, j | 0 <= i < j < |r.value|
        ensures Js.Str(r.value[i]) in AsList(v) && Js.Str(r.value[j]) in AsList(v) &&
          Lists.FirstIndex(AsList(v), Js.Str(r.value[i])) < Lists.FirstIndex(AsList(v), Js.Str(r.value[j]))
      {
        AcceptedOrder(AsList(v), k, r.value[i], r.value[j]);
      }
    }
  }

  /** A single value is treated as a list of one. */
  lemma NormalizedScalar(s: string, k: Kind)
    ensures NormalizedTypes(Js.Str(s), k) == if s in Allowed(k) then Some([s]) else None
  {
    var v := Js.Str(s);
    assert AsList(v) == [] + [v];
    AcceptedSnoc([], v, k);
    if s in Allowed(k) {
      assert Accepted(AsList(v), k) == [s];
      Lists.DedupOfDistinct([s]);
    } else {
      assert Accepted(AsList(v), k) == [];
    }
  }

  function StrItems(xs: seq<string>): (r: seq<Js.Value>)
    ensures |r| == |xs| && forall i :: 0 <= i < |xs| ==> r[i] == Js.Str(xs[i])
  {
    seq(|xs|, i requires 0 <= i < |xs| => Js.Str(xs[i]))
  }

  lemma {:induction false} AcceptedOfAllowed(xs: seq<string>, k: Kind)
    requires forall x :: x in xs ==> x in Allowed(k)
    ensures Accepted(StrItems(xs), k) == xs
  {
    if xs != [] {
      var p, last := xs[..|xs| - 1], xs[|xs| - 1];
      StrItemsSnoc(xs);
      AcceptedSnoc(StrItems(p), Js.Str(last), k);
      AcceptedOfAllowed(p, k);
      assert xs == p + [last];
    }
  }

  lemma StrItemsSnoc(xs: seq<string>)
    requires xs != []
    ensures StrItems(xs) == StrItems(xs[..|xs| - 1]) + [Js.Str(xs[|xs| - 1])]
  {
  }

  /** One step of either normalising loop: the next item is pushed when it is allowed and new. */
  lemma DedupAcceptedSnoc(items: seq<Js.Value>, z: Js.Value, k: Kind)
    ensures var d := Lists.Dedup(Accepted(items, k));
      Lists.Dedup(Accepted(items + [z], k)) ==
        if z.Str? && z.s in Allowed(k) && z.s !in d then d + [z.s] else d
  {
    AcceptedSnoc(items, z, k);
    var a := Accepted(items, k);
    if z.Str? && z.s in Allowed(k) {
      assert Accepted(items + [z], k) == a + [z.s];
      assert (a + [z.s])[..|a|] == a;
    } else {
      assert Accepted(items + [z], k) == a;
    }
  }

  lemma AcceptedSnoc(items: seq<Js.Value>, z: Js.Value, k: Kind)
    ensures Accepted(items + [z], k) == Accepted(items, k) + ToSeq(NormalizeOne(z, k))
  {
    assert (items + [z])[..|items|] == items;
  }

  /** A list that is already normalised is stored unchanged when it is sent again. */
  lemma NormalizedStable(xs: seq<string>, k: Kind)
    requires xs != [] && Lists.Distinct(xs) && forall x :: x in xs ==> x in Allowed(k)
    ensures NormalizedTypes(Js.Arr(StrItems(xs)), k) == Some(xs)
  {
    var v := Js.Arr(StrItems(xs));
    AcceptedOfAllowed(xs, k);
    Lists.DedupOfDistinct(xs);
    assert !IsUnset(v) && AsList(v) == StrItems(xs);
    assert Lists.Dedup(Accepted(AsList(v), k)) == xs;
  }

  /** `normalizeFullSearch`: the trimmed text, or null when there is none. */
  function NormalizeFullSearch(v: Js.Value): (r: Option<string>)
    ensures r.None? <==> v.IsNullish() || IsBlank(Js.ToStr(v))
    ensures r.Some? ==> r.value != "" && !IsSpace(r.value[0]) && !IsSpace(r.value[|r.value| - 1])
    ensures r.Some? ==> exists i, j :: 0 <= i <= j <= |Js.ToStr(v)| && r.value == Js.ToStr(v)[i..j]
    ensures r.Some? ==> r.value == Trim(Js.ToStr(v))
  {
    if v.IsNullish() then None
    else
      var s := Trim(Js.ToStr(v));
      if s != "" then Some(s) else None
  }

  /** Normalising a saved search text again changes nothing. */
  lemma FullSearchIdempotent(v: Js.Value)
    requires NormalizeFullSearch(v).Some?
    ensures NormalizeFullSearch(Js.Str(NormalizeFullSearch(v).value)) == NormalizeFullSearch(v)
  {
    var t := Trim(Js.ToStr(v));
    assert NormalizeFullSearch(v) == Some(t);
    TrimIdempotent(Js.ToStr(v));
    assert Js.ToStr(Js.Str(t)) == t;
  }

  // ------------------------------------------------------------ POST handler

  /** The columns the handler writes, in the order of the UPDATE statement. */
  datatype Saved = Saved(
    filterName: Js.Value,
    fullSearch: Option<string>,
    yearFrom: Option<int>,
    yearTo: Option<int>,
    auctionType: Option<string>,
    inventoryType: Option<string>,
    inventoryTypes: Option<seq<string>>,
    fuelType: Option<string>,
    fuelTypes: Option<seq<string>>,
    minBid: Option<int>,
    maxBid: Option<int>,
    odoFrom: Option<int>,
    odoTo: Option<int>)

  /** `v ?? null` */
  function OrNull(v: Js.Value): (r: Js.Value)
    ensures r.IsNullish() <==> v.IsNullish()
    ensures r != Js.Undefined
  {
    if v.IsNullish() then Js.Null else v
  }

  /** `req.body || {}` */
  function BodyOf(body: Js.Value): Js.Value {
    if Js.Truthy(body) then body else Js.Obj([])
  }

  /** The multi-select field when it is present at all (even as null), the legacy single field otherwise. */
  function TypesInput(f: Js.Value, k: Kind): Js.Value {
    var (listKey, legacyKey) := if k == Inventory then ("inventory_types", "inventory_type") else ("fuel_types", "fuel_type");
    if Js.Get(f, listKey) != Js.Undefined then Js.Get(f, listKey) else OrNull(Js.Get(f, legacyKey))
  }

  /** The legacy `inventory_type` column: the normalised single value, else the first of the normalised list. */
  function LegacyInventory(f: Js.Value, types: Option<seq<string>>): Option<string>
    requires types.Some? ==> types.value != []
  {
    match NormalizeOne(OrNull(Js.Get(f, "inventory_type")), Inventory)
    case Some(x) => Some(x)
    case None => if types.Some? then Some(types.value[0]) else None
  }

  /** What the handler writes for a request body. */
  function SavedOf(body: Js.Value): Saved {
    var f := BodyOf(body);
    var inventoryTypes := NormalizedTypes(TypesInput(f, Inventory), Inventory);
    NormalizedTypesMembers(TypesInput(f, Inventory), Inventory);
    Saved(
      OrNull(Js.Get(f, "filter_name")),
      NormalizeFullSearch(OrNull(Js.Get(f, "full_search"))),
      Payload.ToNumberOrNull(Js.Get(f, "year_from")),
      Payload.ToNumberOrNull(Js.Get(f, "year_to")),
      NormalizeAuctionType(OrNull(Js.Get(f, "auction_type"))),
      LegacyInventory(f, inventoryTypes),
      inventoryTypes,
      NormalizeOne(OrNull(Js.Get(f, "fuel_type")), Fuel),
      NormalizedTypes(TypesInput(f, Fuel), Fuel),
      Payload.ToNumberOrNull(Js.Get(f, "min_bid")),
      Payload.ToNumberOrNull(Js.Get(f, "max_bid")),
      Payload.ToNumberOrNull(Js.Get(f, "odo_from")),
      Payload.ToNumberOrNull(Js.Get(f, "odo_to")))
  }

  /** The POST handler's normalisation step, up to the UPDATE statement. */
  method SaveFilter(body: Js.Value) returns (s: Saved)
    ensures s == SavedOf(body)
  {
    var f := if Js.Truthy(body) then body else Js.Obj([]);
    var inventoryTypesInput := if Js.Get(f, "inventory_types") != Js.Undefined then Js.Get(f, "inventory_types")
                               else OrNull(Js.Get(f, "inventory_type"));
    var fuelTypesInput := if Js.Get(f, "fuel_types") != Js.Undefined then Js.Get(f, "fuel_types")
                          else OrNull(Js.Get(f, "fuel_type"));
    assert inventoryTypesInput == TypesInput(f, Inventory) && fuelTypesInput == TypesInput(f, Fuel);
    var normalizedInventoryTypes := NormalizeTypes(inventoryTypesInput, Inventory);
    var legacyInventoryType := NormalizeOne(OrNull(Js.Get(f, "inventory_type")), Inventory);
    if legacyInventoryType.None? && normalizedInventoryTypes.Some? {
      legacyInventoryType := Some(normalizedInventoryTypes.value[0]);
    }
    var fuelTypes := NormalizeTypes(fuelTypesInput, Fuel);
    s := Saved(
      OrNull(Js.Get(f, "filter_name")),
      NormalizeFullSearch(OrNull(Js.Get(f, "full_search"))),
      Payload.ToNumberOrNull(Js.Get(f, "year_from")),
      Payload.ToNumberOrNull(Js.Get(f, "year_to")),
      NormalizeAuctionType(OrNull(Js.Get(f, "auction_type"))),
      legacyInventoryType,
      normalizedInventoryTypes,
      NormalizeOne(OrNull(Js.Get(f, "fuel_type")), Fuel),
      fuelTypes,
      Payload.ToNumberOrNull(Js.Get(f, "min_bid")),
      Payload.ToNumberOrNull(Js.Get(f, "max_bid")),
      Payload.ToNumberOrNull(Js.Get(f, "odo_from")),
      Payload.ToNumberOrNull(Js.Get(f, "odo_to")));
  }

  /**
   * The multi-select field wins whenever it is present, even as an explicit null
   * (which stores null without looking at the legacy field); otherwise the legacy
   * single value is normalised as a list of one.
   */
  lemma SavedTypesSource(body: Js.Value, k: Kind)
    ensures var f := BodyOf(body);
      var listKey := if k == Inventory then "inventory_types" else "fuel_types";
      var legacyKey := if k == Inventory then "inventory_type" else "fuel_type";
      var saved := if k == Inventory then SavedOf(body).inventoryTypes else SavedOf(body).fuelTypes;
      (Js.Get(f, listKey) != Js.Undefined ==> saved == NormalizedTypes(Js.Get(f, listKey), k)) &&
      (Js.Get(f, listKey) == Js.Null ==> saved.None?) &&
      (Js.Get(f, listKey) == Js.Undefined && Js.Get(f, legacyKey).Str? ==>
        saved == if Js.Get(f, legacyKey).s in Allowed(k) then Some([Js.Get(f, legacyKey).s]) else None)
  {
    var f := BodyOf(body);
    var legacyKey := if k == Inventory then "inventory_type" else "fuel_type";
    if Js.Get(f, legacyKey).Str? {
      NormalizedScalar(Js.Get(f, legacyKey).s, k);
    }
  }

  /**
   * The legacy inventory column holds an allowed value; it is set whenever the list
   * is, and it is the legacy field's own value when that is allowed, else the first
   * element of the list.
   */
  lemma SavedLegacyInventory(body: Js.Value)
    ensures var s := SavedOf(body);
      var legacy := Js.Get(BodyOf(body), "inventory_type");
      (s.inventoryType.Some? ==> s.inventoryType.value in Allowed(Inventory)) &&
      (s.inventoryTypes.Some? ==> s.inventoryType.Some?) &&
      (legacy.Str? && legacy.s in Allowed(Inventory) ==> s.inventoryType == Some(legacy.s)) &&
      (!(legacy.Str? && legacy.s in Allowed(Inventory)) ==>
        s.inventoryType == if s.inventoryTypes.Some? then Some(s.inventoryTypes.value[0]) else None)
  {
    var f := BodyOf(body);
    NormalizedTypesMembers(TypesInput(f, Inventory), Inventory);
  }

  /** A client that sends only the legacy inventory field gets both columns set consistently. */
  lemma SavedLegacyOnly(body: Js.Value, t: string)
    requires body.Obj? && Js.Get(body, "inventory_types") == Js.Undefined && Js.Get(body, "inventory_type") == Js.Str(t)
    ensures t in Allowed(Inventory) ==>
      SavedOf(body).inventoryType == Some(t) && SavedOf(body).inventoryTypes == Some([t])
    ensures t !in Allowed(Inventory) ==>
      SavedOf(body).inventoryType.None? && SavedOf(body).inventoryTypes.None?
  {
    NormalizedScalar(t, Inventory);
  }

  // ------------------------------------------------------------ GET handler

  function OfTypes(o: Option<seq<string>>): Js.Value {
    match o
    case None => Js.Null
    case Some(xs) => Js.Arr(StrItems(xs))
  }

  /**
   * The row the SELECT after the UPDATE returns, column by column as the handler
   * wrote it (text arrays come back as arrays of strings).
   */
  function RowOf(s: Saved): Js.Value {
    Js.Object(ROW_KEYS, RowValues(s))
  }

  const ROW_KEYS := ["filter_name", "full_search", "year_from", "year_to", "auction_type",
                     "inventory_type", "inventory_types", "fuel_type", "fuel_types",
                     "min_bid", "max_bid", "odo_from", "odo_to"]

  function RowValues(s: Saved): (r: seq<Js.Value>)
    ensures |r| == |ROW_KEYS| && forall i :: 0 <= i < |r| ==> r[i] == RowValue(s, i)
  {
    seq(|ROW_KEYS|, i requires 0 <= i < |ROW_KEYS| => RowValue(s, i))
  }

  /** The column `ROW_KEYS[i]` of the stored row. */
  function RowValue(s: Saved, i: nat): Js.Value {
    if i == 0 then s.filterName
    else if i == 1 then Js.OfString(s.fullSearch)
    else if i == 2 then Payload.OfInt(s.yearFrom)
    else if i == 3 then Payload.OfInt(s.yearTo)
    else if i == 4 then Js.OfString(s.auctionType)
    else if i == 5 then Js.OfString(s.inventoryType)
    else if i == 6 then OfTypes(s.inventoryTypes)
    else if i == 7 then Js.OfString(s.fuelType)
    else if i == 8 then OfTypes(s.fuelTypes)
    else if i == 9 then Payload.OfInt(s.minBid)
    else if i == 10 then Payload.OfInt(s.maxBid)
    else if i == 11 then Payload.OfInt(s.odoFrom)
    else Payload.OfInt(s.odoTo)
  }

  lemma RowGet(vals: seq<Js.Value>, i: nat)
    requires |vals| == |ROW_KEYS| && i < |ROW_KEYS|
    ensures Js.Get(Js.Object(ROW_KEYS, vals), ROW_KEYS[i]) == vals[i]
  {
    Js.ObjectGet(ROW_KEYS, vals, i);
  }

  /** The column named `key` of the stored row, when `key` is `ROW_KEYS[i]`. */
  lemma RowField(s: Saved, i: nat, key: string)
    requires i < |ROW_KEYS| && ROW_KEYS[i] == key
    ensures Js.Get(RowOf(s), key) == RowValue(s, i)
  {
    RowGet(RowValues(s), i);
  }
}

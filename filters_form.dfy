/**
 * The filter form of the web client: the stored filter row is turned into form
 * fields (`fromApiFilter`), the type checkboxes toggle set membership, and
 * submitting or resetting posts a payload in which blank fields take their
 * defaults and empty lists are sent as null.
 */
module FiltersForm {
  import opened Wrappers
  import opened Text
  import Js
  import Lists
  import Payload
  import Filters

  const DEFAULT_YEAR_FROM := "1900"
  const DEFAULT_YEAR_TO := "2027"
  const DEFAULT_MIN_BID := "0"
  const DEFAULT_MAX_BID := "150000"
  const DEFAULT_ODO_FROM := "0"
  const DEFAULT_ODO_TO := "150000"
  const SELECT_TYPE := "Select type"

  /** The form's state: text inputs as strings, the checkbox groups as lists of values. */
  datatype Form = Form(
    filterName: string,
    yearFrom: string,
    yearTo: string,
    auctionType: string,
    inventoryTypes: seq<string>,
    fuelTypes: seq<string>,
    minBid: string,
    maxBid: string,
    odoFrom: string,
    odoTo: string)

  /** The state before anything is loaded. */
  const EMPTY := Form("", DEFAULT_YEAR_FROM, DEFAULT_YEAR_TO, "", [], [], "", "", "", "")

  /** What Reset shows at once, before the server answers. */
  const RESET_FORM := Form("", DEFAULT_YEAR_FROM, DEFAULT_YEAR_TO, "", [], [],
                           DEFAULT_MIN_BID, DEFAULT_MAX_BID, DEFAULT_ODO_FROM, DEFAULT_ODO_TO)

  /** `toInputValue`: null and undefined show as an empty input, anything else as its string. */
  function ToInputValue(v: Js.Value): (r: string)
    ensures v.IsNullish() ==> r == ""
    ensures v.Str? ==> r == v.s
    ensures v.Num? ==> Payload.ToNumberOrNull(Js.Str(r)) == Some(v.n)
  {
    if v.Num? then Payload.ToNumberOrNullRoundTrip(v.n); Js.ToStr(v)
    else if v.IsNullish() then "" else Js.ToStr(v)
  }

  // ------------------------------------------------------------ fromApiFilter

  /** `Array.isArray(v) ? v : v ? [v] : []` */
  function FormList(v: Js.Value): seq<Js.Value> {
    if v.Arr? then v.items else if Js.Truthy(v) then [v] else []
  }

  /** The inner `normalizeInventoryTypes` / `normalizeFuelTypes` of `fromApiFilter`, as a value. */
  function FormTypes(v: Js.Value, k: Filters.Kind): seq<string> {
    Lists.Dedup(Filters.Accepted(FormList(v), k))
  }

  /** The inner normaliser's loop: push each allowed value not pushed before. */
  method NormalizeFormTypes(v: Js.Value, k: Filters.Kind) returns (out: seq<string>)
    ensures out == FormTypes(v, k)
  {
    var arr := FormList(v);
    out := [];
    var i := 0;
    while i < |arr|
      invariant 0 <= i <= |arr|
      invariant out == Lists.Dedup(Filters.Accepted(arr[..i], k))
    {
      var raw := arr[i];
      Filters.NormalizeStep(arr, i, k);
      if raw.Str? && raw.s in Filters.Allowed(k) {
        if raw.s !in out {
          out := out + [raw.s];
        }
      }
      i := i + 1;
    }
    assert arr[..|arr|] == arr;
  }

  /** "Bid" is no longer offered: anything but "Buy Now" shows as unset. */
  function FormAuctionType(s: string): (r: string)
    ensures r == Filters.BUY_NOW || r == ""
    ensures r != "" <==> s == Filters.BUY_NOW
  {
    if s == Filters.BUY_NOW then s else ""
  }

  /** `f || {}` */
  function Row(f: Js.Value): Js.Value {
    if Js.Truthy(f) then f else Js.Obj([])
  }

  /** The year range falls back to its defaults only when both bounds are missing. */
  predicate UseDefaultYears(x: Js.Value) {
    Filters.IsUnset(Js.Get(x, "year_from")) && Filters.IsUnset(Js.Get(x, "year_to"))
  }

  /** The array field when it is an array, the legacy single field otherwise. */
  function TypesSource(x: Js.Value, k: Filters.Kind): Js.Value {
    var (listKey, legacyKey) := if k == Filters.Inventory then ("inventory_types", "inventory_type") else ("fuel_types", "fuel_type");
    if Js.Get(x, listKey).Arr? then Js.Get(x, listKey) else Js.Get(x, legacyKey)
  }

  /** The two year inputs `fromApiFilter` derives from a row. */
  function YearInputs(x: Js.Value): (string, string) {
    if UseDefaultYears(x) then (DEFAULT_YEAR_FROM, DEFAULT_YEAR_TO)
    else (ToInputValue(Js.Get(x, "year_from")), ToInputValue(Js.Get(x, "year_to")))
  }

  /** `fromApiFilter(f)` */
  function FormOf(f: Js.Value): (r: Form)
    ensures r.auctionType == Filters.BUY_NOW || r.auctionType == ""
    ensures r.auctionType != "" <==> ToInputValue(Js.Get(Row(f), "auction_type")) == Filters.BUY_NOW
    ensures r.filterName == ToInputValue(Js.Get(Row(f), "filter_name"))
    ensures r.minBid == ToInputValue(Js.Get(Row(f), "min_bid")) && r.maxBid == ToInputValue(Js.Get(Row(f), "max_bid"))
    ensures r.odoFrom == ToInputValue(Js.Get(Row(f), "odo_from")) && r.odoTo == ToInputValue(Js.Get(Row(f), "odo_to"))
    ensures Normalized(r.inventoryTypes, Filters.Inventory) && Normalized(r.fuelTypes, Filters.Fuel)
    ensures UseDefaultYears(Row(f)) ==> r.yearFrom == DEFAULT_YEAR_FROM && r.yearTo == DEFAULT_YEAR_TO
    ensures !UseDefaultYears(Row(f)) ==>
      r.yearFrom == ToInputValue(Js.Get(Row(f), "year_from")) && r.yearTo == ToInputValue(Js.Get(Row(f), "year_to"))
  {
    var x := Row(f);
    var (yearFrom, yearTo) := YearInputs(x);
    FormTypesMembers(TypesSource(x, Filters.Inventory), Filters.Inventory);
    FormTypesMembers(TypesSource(x, Filters.Fuel), Filters.Fuel);
    Form(
      ToInputValue(Js.Get(x, "filter_name")),
      yearFrom,
      yearTo,
      FormAuctionType(ToInputValue(Js.Get(x, "auction_type"))),
      FormTypes(TypesSource(x, Filters.Inventory), Filters.Inventory),
      FormTypes(TypesSource(x, Filters.Fuel), Filters.Fuel),
      ToInputValue(Js.Get(x, "min_bid")),
      ToInputValue(Js.Get(x, "max_bid")),
      ToInputValue(Js.Get(x, "odo_from")),
      ToInputValue(Js.Get(x, "odo_to")))
  }

  /**
   * The defaults 1900 and 2027 appear only when both stored bounds are missing;
   * a single missing bound shows as an empty input while the other keeps its value.
   */
  lemma FormYears(x: Js.Value)
    ensures var from, to := Js.Get(x, "year_from"), Js.Get(x, "year_to");
      (Filters.IsUnset(from) && Filters.IsUnset(to) ==> YearInputs(x) == (DEFAULT_YEAR_FROM, DEFAULT_YEAR_TO)) &&
      (from.Num? ==> Payload.ToNumberOrNull(Js.Str(YearInputs(x).0)) == Some(from.n)) &&
      (to.Num? ==> Payload.ToNumberOrNull(Js.Str(YearInputs(x).1)) == Some(to.n)) &&
      (from.Num? && to.IsNullish() ==> YearInputs(x).1 == "") &&
      (to.Num? && from.IsNullish() ==> YearInputs(x).0 == "")
  {
    var from, to := Js.Get(x, "year_from"), Js.Get(x, "year_to");
    if from.Num? {
      assert YearInputs(x).0 == ToInputValue(from);
    }
    if to.Num? {
      assert YearInputs(x).1 == ToInputValue(to);
    }
  }

  /**
   * A checkbox group loaded from a row holds allowed values only, each once, in
   * the order they first appear, and exactly the allowed strings of its source.
   */
  lemma FormTypesMembers(v: Js.Value, k: Filters.Kind)
    ensures var r := FormTypes(v, k);
      Lists.Distinct(r) &&
      (forall x :: x in r <==> x in Filters.Allowed(k) && Js.Str(x) in FormList(v)) &&
      (forall i, j :: 0 <= i < j < |r| ==>
        Lists.FirstIndex(FormList(v), Js.Str(r[i])) < Lists.FirstIndex(FormList(v), Js.Str(r[j])))
  {
    var acc := Filters.Accepted(FormList(v), k);
    Lists.DedupElements(acc);
    Lists.DedupDistinct(acc);
    Lists.DedupOrder(acc);
    var r := FormTypes(v, k);
    forall i, j | 0 <= i < j < |r|
      ensures Lists.FirstIndex(FormList(v), Js.Str(r[i])) < Lists.FirstIndex(FormList(v), Js.Str(r[j]))
    {
      Filters.AcceptedOrder(FormList(v), k, r[i], r[j]);
    }
  }

  /** The client keeps the same values from a stored list as the server's normaliser, with [] for null. */
  lemma FormAgreesWithServer(v: Js.Value, k: Filters.Kind)
    requires v.Arr? || v.Str?
    ensures Filters.NormalizedTypes(v, k) == if FormTypes(v, k) == [] then None else Some(FormTypes(v, k))
  {
    if v.Str? && v.s == "" {
      assert Filters.Accepted([v], k) == Filters.Accepted([], k) + ToSeq(Filters.NormalizeOne(v, k)) by {
        Filters.AcceptedSnoc([], v, k);
      }
    }
  }

  /** The checkbox group of kind `k` in a form. */
  function TypesOf(form: Form, k: Filters.Kind): seq<string> {
    if k == Filters.Inventory then form.inventoryTypes else form.fuelTypes
  }

  /** The stored list column of kind `k`. */
  function SavedList(s: Filters.Saved, k: Filters.Kind): Option<seq<string>> {
    if k == Filters.Inventory then s.inventoryTypes else s.fuelTypes
  }

  /** The stored legacy single-value column of kind `k`. */
  function SavedSingle(s: Filters.Saved, k: Filters.Kind): Option<string> {
    if k == Filters.Inventory then s.inventoryType else s.fuelType
  }

  /** Allowed values only, each once. */
  predicate Normalized(xs: seq<string>, k: Filters.Kind) {
    Lists.Distinct(xs) && forall x :: x in xs ==> x in Filters.Allowed(k)
  }

  /**
   * A stored row loads its list column back unchanged; only when that column is
   * null does the checkbox group fall back to the legacy single column.
   */
  lemma LoadedTypes(s: Filters.Saved, k: Filters.Kind)
    requires SavedList(s, k).Some? ==> Normalized(SavedList(s, k).value, k)
    requires SavedSingle(s, k).Some? ==> SavedSingle(s, k).value in Filters.Allowed(k)
    ensures TypesOf(FormOf(Filters.RowOf(s)), k) ==
      match SavedList(s, k)
      case Some(xs) => xs
      case None => ToSeq(SavedSingle(s, k))
  {
    var x := Filters.RowOf(s);
    assert Row(x) == x;
    if k == Filters.Inventory {
      Filters.RowField(s, 6, "inventory_types");
      Filters.RowField(s, 5, "inventory_type");
    } else {
      Filters.RowField(s, 8, "fuel_types");
      Filters.RowField(s, 7, "fuel_type");
    }
    var src := TypesSource(x, k);
    match SavedList(s, k)
    case Some(xs) =>
      assert src == Js.Arr(Filters.StrItems(xs));
      if xs == [] {
        assert FormList(src) == [];
      } else {
        Filters.NormalizedStable(xs, k);
        FormAgreesWithServer(src, k);
      }
    case None =>
      assert src == Js.OfString(SavedSingle(s, k));
      if SavedSingle(s, k).Some? {
        Filters.NormalizedScalar(SavedSingle(s, k).value, k);
        FormAgreesWithServer(src, k);
      } else {
        assert FormList(src) == [];
      }
  }

  // ------------------------------------------------------------ validation

  function InventoryTypeError(form: Form): string {
    if |form.inventoryTypes| > 0 then "" else SELECT_TYPE
  }

  function FuelTypeError(form: Form): string {
    if |form.fuelTypes| > 0 then "" else SELECT_TYPE
  }

  /** `Boolean(inventoryTypeError || fuelTypeError)` */
  predicate HasTypeErrors(form: Form)
    ensures HasTypeErrors(form) <==> form.inventoryTypes == [] || form.fuelTypes == []
  {
    InventoryTypeError(form) != "" || FuelTypeError(form) != ""
  }

  /**
   * A stored filter loads into a submittable form exactly when its inventory source
   * and its fuel source each hold at least one allowed value.
   */
  lemma LoadedTypeErrors(f: Js.Value)
    ensures !HasTypeErrors(FormOf(f)) <==>
      (exists x :: x in Filters.Allowed(Filters.Inventory) && Js.Str(x) in FormList(TypesSource(Row(f), Filters.Inventory))) &&
      (exists x :: x in Filters.Allowed(Filters.Fuel) && Js.Str(x) in FormList(TypesSource(Row(f), Filters.Fuel)))
  {
    var x := Row(f);
    var inv := TypesSource(x, Filters.Inventory);
    var fuel := TypesSource(x, Filters.Fuel);
    FormOfTypes(f);
    FormTypesEmpty(inv, Filters.Inventory);
    FormTypesEmpty(fuel, Filters.Fuel);
  }

  lemma FormOfTypes(f: Js.Value)
    ensures FormOf(f).inventoryTypes == FormTypes(TypesSource(Row(f), Filters.Inventory), Filters.Inventory)
    ensures FormOf(f).fuelTypes == FormTypes(TypesSource(Row(f), Filters.Fuel), Filters.Fuel)
  {
  }

  /** A checkbox group loads empty exactly when its source holds none of the allowed strings. */
  lemma FormTypesEmpty(v: Js.Value, k: Filters.Kind)
    ensures FormTypes(v, k) == [] <==> forall x :: x in Filters.Allowed(k) ==> Js.Str(x) !in FormList(v)
  {
    var acc := Filters.Accepted(FormList(v), k);
    Filters.AcceptedEmpty(FormList(v), k);
    if acc != [] {
      Lists.DedupElements(acc);
      assert acc[0] in Lists.Dedup(acc);
    }
  }

  /** The reset form always fails validation: no type is selected. */
  lemma ResetHasTypeErrors()
    ensures HasTypeErrors(RESET_FORM) && HasTypeErrors(EMPTY)
  {
  }

  // ------------------------------------------------------------ toggles

  /** `Array.from(s)` after `s.delete(v)` */
  function Remove(xs: seq<string>, v: string): (r: seq<string>)
    ensures forall x :: x in r <==> x in xs && x != v
    ensures Lists.Distinct(xs) ==> Lists.Distinct(r)
  {
    if xs == [] then []
    else if xs[0] == v then Remove(xs[1..], v)
    else
      assert Lists.Distinct(xs) ==> Lists.Distinct(xs[1..]) && xs[0] !in xs[1..];
      [xs[0]] + Remove(xs[1..], v)
  }

  /** `new Set(xs)`, then `add(value)` when checked or `delete(value)` when not, read back as an array. */
  function Toggled(xs: seq<string>, value: string, checked: bool): seq<string> {
    var d := Lists.Dedup(xs);
    if checked then (if value in d then d else d + [value]) else Remove(d, value)
  }

  /**
   * A toggle never produces duplicates; the toggled value is present exactly when
   * checked; every other value keeps its membership; a newly checked value goes last.
   */
  lemma ToggledSet(xs: seq<string>, value: string, checked: bool)
    ensures var r := Toggled(xs, value, checked);
      Lists.Distinct(r) &&
      (value in r <==> checked) &&
      (forall x :: x != value ==> (x in r <==> x in xs)) &&
      (checked && value !in xs ==> r == Lists.Dedup(xs) + [value]) &&
      (checked && value in xs ==> r == Lists.Dedup(xs))
  {
    Lists.DedupElements(xs);
    Lists.DedupDistinct(xs);
  }

  /** Toggling a list that is already a set leaves the other values in their order. */
  lemma ToggledOnSet(xs: seq<string>, value: string)
    requires Lists.Distinct(xs) && value !in xs
    ensures Toggled(xs, value, true) == xs + [value]
    ensures Toggled(xs + [value], value, false) == xs
  {
    Lists.DedupOfDistinct(xs);
    assert Lists.Distinct(xs + [value]);
    Lists.DedupOfDistinct(xs + [value]);
    RemoveAbsent(xs, value);
    RemoveLast(xs, value);
  }

  lemma {:induction false} RemoveAbsent(xs: seq<string>, v: string)
    requires v !in xs
    ensures Remove(xs, v) == xs
  {
    if xs != [] {
      RemoveAbsent(xs[1..], v);
    }
  }

  lemma {:induction false} RemoveLast(xs: seq<string>, v: string)
    requires v !in xs
    ensures Remove(xs + [v], v) == xs
  {
    if xs == [] {
      assert Remove([v], v) == Remove([], v);
    } else {
      assert (xs + [v])[1..] == xs[1..] + [v];
      RemoveLast(xs[1..], v);
    }
  }

  // ------------------------------------------------------------ submit and reset

  /** `String(s || "").trim()`, or the default when that is blank. */
  function Defaulted(s: string, default: string): (r: string)
    ensures IsBlank(s) ==> r == default
    ensures !IsBlank(s) ==> r == Trim(s) && r != ""
  {
    var t := Trim(s);
    if t == "" then default else t
  }

  /** `toNumberOrNull(s)` as it lands in the JSON payload. */
  function NumberField(s: string): Js.Value {
    Payload.OfInt(Payload.ToNumberOrNull(Js.Str(s)))
  }

  /** `s || null` */
  function TextOrNull(s: string): Js.Value {
    if s != "" then Js.Str(s) else Js.Null
  }

  /** `xs.length ? xs : null` */
  function ListOrNull(xs: seq<string>): Js.Value {
    if |xs| > 0 then Js.Arr(Filters.StrItems(xs)) else Js.Null
  }

  /** `xs?.[0] || null` */
  function FirstOrNull(xs: seq<string>): Js.Value {
    if |xs| > 0 && xs[0] != "" then Js.Str(xs[0]) else Js.Null
  }

  const SUBMIT_KEYS := ["filter_name", "year_from", "year_to", "auction_type", "inventory_type",
                        "inventory_types", "fuel_types", "min_bid", "max_bid", "odo_from", "odo_to"]

  /** The payload `onSubmit` posts for the current form. */
  function SubmitBody(form: Form): Js.Value {
    Js.Object(SUBMIT_KEYS, SubmitValues(form))
  }

  function SubmitValues(form: Form): (r: seq<Js.Value>)
    ensures |r| == |SUBMIT_KEYS| && forall i :: 0 <= i < |r| ==> r[i] == SubmitValue(form, i)
  {
    seq(|SUBMIT_KEYS|, i requires 0 <= i < |SUBMIT_KEYS| => SubmitValue(form, i))
  }

  /** Positions in `SUBMIT_KEYS` of the numeric inputs. */
  predicate IsNumericKey(i: nat) {
    i == 1 || i == 2 || i == 7 || i == 8 || i == 9 || i == 10
  }

  /** The text typed into the numeric input posted under `SUBMIT_KEYS[i]`. */
  function NumericInput(form: Form, i: nat): string {
    if i == 1 then form.yearFrom
    else if i == 2 then form.yearTo
    else if i == 7 then form.minBid
    else if i == 8 then form.maxBid
    else if i == 9 then form.odoFrom
    else form.odoTo
  }

  /** The default restored into the numeric input posted under `SUBMIT_KEYS[i]`. */
  function NumericDefault(i: nat): string {
    if i == 1 then DEFAULT_YEAR_FROM
    else if i == 2 then DEFAULT_YEAR_TO
    else if i == 7 then DEFAULT_MIN_BID
    else if i == 8 then DEFAULT_MAX_BID
    else if i == 9 then DEFAULT_ODO_FROM
    else DEFAULT_ODO_TO
  }

  /** The value posted under `SUBMIT_KEYS[i]`. */
  function SubmitValue(form: Form, i: nat): Js.Value {
    if IsNumericKey(i) then NumberField(Defaulted(NumericInput(form, i), NumericDefault(i)))
    else if i == 0 then TextOrNull(form.filterName)
    else if i == 3 then TextOrNull(form.auctionType)
    else if i == 4 then FirstOrNull(form.inventoryTypes)
    else if i == 5 then ListOrNull(form.inventoryTypes)
    else ListOrNull(form.fuelTypes)
  }

  /** The payload `onReset` posts. */
  function ResetBody(): Js.Value {
    Js.Object(SUBMIT_KEYS, ResetValues())
  }

  function ResetValues(): (r: seq<Js.Value>)
    ensures |r| == |SUBMIT_KEYS| && forall i :: 0 <= i < |r| ==> r[i] == ResetValue(i)
  {
    seq(|SUBMIT_KEYS|, i requires 0 <= i < |SUBMIT_KEYS| => ResetValue(i))
  }

  /** The value `onReset` posts under `SUBMIT_KEYS[i]`: each default read as a number, null elsewhere. */
  function ResetValue(i: nat): Js.Value {
    if IsNumericKey(i) then NumberField(NumericDefault(i)) else Js.Null
  }

  /** `onReset` posts exactly what submitting the form it shows would post. */
  lemma ResetSendsResetForm()
    ensures ResetBody() == SubmitBody(RESET_FORM)
  {
    forall i | 0 <= i < |SUBMIT_KEYS|
      ensures SubmitValue(RESET_FORM, i) == ResetValue(i)
    {
      if IsNumericKey(i) {
        var d := NumericDefault(i);
        assert NumericInput(RESET_FORM, i) == d;
        assert d != [] && !IsSpace(d[0]) && !IsSpace(d[|d| - 1]);
        TrimOfTrimmed(d);
      }
    }
    assert SubmitValues(RESET_FORM) == ResetValues();
  }

  lemma SubmitGet(vals: seq<Js.Value>, i: nat)
    requires |vals| == |SUBMIT_KEYS| && i < |SUBMIT_KEYS|
    ensures Js.Get(Js.Object(SUBMIT_KEYS, vals), SUBMIT_KEYS[i]) == vals[i]
  {
    Js.ObjectGet(SUBMIT_KEYS, vals, i);
  }

  /**
   * A blank numeric input is sent as its default, and a filled one as its
   * trimmed text read as a number.
   */
  lemma SubmitNumeric(form: Form, i: nat)
    requires IsNumericKey(i)
    ensures IsBlank(NumericInput(form, i)) ==> Js.Get(SubmitBody(form), SUBMIT_KEYS[i]) == NumberField(NumericDefault(i))
    ensures !IsBlank(NumericInput(form, i)) ==> Js.Get(SubmitBody(form), SUBMIT_KEYS[i]) == NumberField(Trim(NumericInput(form, i)))
  {
    SubmitGet(SubmitValues(form), i);
  }

  /**
   * Submitting a form whose inventory group holds allowed values, each once, stores
   * the group as sent (null when empty) and its first type in the legacy column.
   */
  lemma SubmitSavesInventory(form: Form)
    requires Normalized(form.inventoryTypes, Filters.Inventory)
    ensures var s, xs := Filters.SavedOf(SubmitBody(form)), form.inventoryTypes;
      s.inventoryTypes == (if xs == [] then None else Some(xs)) &&
      s.inventoryType == (if xs == [] then None else Some(xs[0]))
  {
    var b := SubmitBody(form);
    var xs := form.inventoryTypes;
    SubmitInventoryInputs(form);
    var t := Filters.TypesInput(b, Filters.Inventory);
    var types := Filters.NormalizedTypes(t, Filters.Inventory);
    if xs != [] {
      Filters.NormalizedStable(xs, Filters.Inventory);
    }
    assert types == if xs == [] then None else Some(xs);
    if xs != [] {
      assert xs[0] in xs;
    }
    assert Filters.LegacyInventory(b, types) == if xs == [] then None else Some(xs[0]);
  }

  /** The two inventory fields the form posts. */
  lemma SubmitInventoryInputs(form: Form)
    ensures Filters.BodyOf(SubmitBody(form)) == SubmitBody(form)
    ensures Filters.TypesInput(SubmitBody(form), Filters.Inventory) == ListOrNull(form.inventoryTypes)
    ensures Filters.OrNull(Js.Get(SubmitBody(form), "inventory_type")) == FirstOrNull(form.inventoryTypes)
  {
    SubmitField(form, 5, "inventory_types");
    SubmitField(form, 4, "inventory_type");
  }

  /** Submitting a form whose fuel group holds allowed values, each once, stores it as sent (null when empty). */
  lemma SubmitSavesFuel(form: Form)
    requires Normalized(form.fuelTypes, Filters.Fuel)
    ensures var xs := form.fuelTypes;
      Filters.SavedOf(SubmitBody(form)).fuelTypes == if xs == [] then None else Some(xs)
  {
    var b := SubmitBody(form);
    var xs := form.fuelTypes;
    assert Filters.BodyOf(b) == b;
    SubmitField(form, 6, "fuel_types");
    var t := Filters.TypesInput(b, Filters.Fuel);
    assert t == ListOrNull(xs);
    assert Filters.SavedOf(b).fuelTypes == Filters.NormalizedTypes(t, Filters.Fuel);
    if xs != [] {
      Filters.NormalizedStable(xs, Filters.Fuel);
    }
  }

  /** The form never sends `fuel_type` or `full_search`, so saving from it clears both. */
  lemma SubmitClearsUnsent(form: Form)
    ensures Js.Get(SubmitBody(form), "fuel_type") == Js.Undefined
    ensures Js.Get(SubmitBody(form), "full_search") == Js.Undefined
    ensures Filters.SavedOf(SubmitBody(form)).fuelType.None?
    ensures Filters.SavedOf(SubmitBody(form)).fullSearch.None?
  {
    Js.ObjectAbsent(SUBMIT_KEYS, SubmitValues(form), "fuel_type");
    Js.ObjectAbsent(SUBMIT_KEYS, SubmitValues(form), "full_search");
    assert Filters.BodyOf(SubmitBody(form)) == SubmitBody(form);
  }

  /**
   * Saving a form and loading the stored row gives back the checkbox groups as
   * they were submitted.
   */
  lemma SubmitThenLoad(form: Form, k: Filters.Kind)
    requires Normalized(TypesOf(form, k), k)
    ensures TypesOf(FormOf(Filters.RowOf(Filters.SavedOf(SubmitBody(form)))), k) == TypesOf(form, k)
  {
    var s := Filters.SavedOf(SubmitBody(form));
    var xs := TypesOf(form, k);
    if k == Filters.Fuel {
      SubmitSavesFuel(form);
      SubmitClearsUnsent(form);
    } else {
      SubmitSavesInventory(form);
      if xs != [] {
        assert xs[0] in xs;
      }
    }
    LoadedTypes(s, k);
  }

  /** The form posts its auction type as text, and the handler keeps it only when it is "Buy Now". */
  lemma SubmitSavesAuctionType(form: Form)
    ensures Filters.SavedOf(SubmitBody(form)).auctionType ==
      if form.auctionType == Filters.BUY_NOW then Some(Filters.BUY_NOW) else None
  {
    var b := SubmitBody(form);
    assert Filters.BodyOf(b) == b;
    SubmitField(form, 3, "auction_type");
  }

  /** A loaded row shows "Buy Now" exactly when that is the stored auction type. */
  lemma LoadedAuctionType(s: Filters.Saved)
    ensures FormOf(Filters.RowOf(s)).auctionType ==
      if s.auctionType == Some(Filters.BUY_NOW) then Filters.BUY_NOW else ""
  {
    var x := Filters.RowOf(s);
    assert Row(x) == x;
    Filters.RowField(s, 4, "auction_type");
  }

  /** Saving a form and loading the stored row shows the auction type the form held. */
  lemma SubmitThenLoadAuctionType(form: Form)
    requires form.auctionType == Filters.BUY_NOW || form.auctionType == ""
    ensures FormOf(Filters.RowOf(Filters.SavedOf(SubmitBody(form)))).auctionType == form.auctionType
  {
    SubmitSavesAuctionType(form);
    LoadedAuctionType(Filters.SavedOf(SubmitBody(form)));
  }

  lemma SubmitField(form: Form, i: nat, key: string)
    requires i < |SUBMIT_KEYS| && SUBMIT_KEYS[i] == key
    ensures Js.Get(SubmitBody(form), key) == SubmitValue(form, i)
  {
    SubmitGet(SubmitValues(form), i);
  }

  /** Example: the default lower year is sent as the number it spells. */
  lemma DefaultYearFrom()
    ensures NumberField(DEFAULT_YEAR_FROM) == Js.Num(1900)
  {
    assert NatToString(1900) == "1900" by {
      assert NatToString(19) == "19";
      assert NatToString(190) == "190";
    }
    Payload.ToNumberOrNullRoundTrip(1900);
  }

  /** Example: the default upper year is sent as the number it spells. */
  lemma DefaultYearTo()
    ensures NumberField(DEFAULT_YEAR_TO) == Js.Num(2027)
  {
    assert NatToString(2027) == "2027" by {
      assert NatToString(20) == "20";
      assert NatToString(202) == "202";
    }
    Payload.ToNumberOrNullRoundTrip(2027);
  }

  /** Example: the default lower bid and odometer are sent as 0. */
  lemma DefaultZero()
    ensures NumberField(DEFAULT_MIN_BID) == Js.Num(0) && NumberField(DEFAULT_ODO_FROM) == Js.Num(0)
  {
    assert NatToString(0) == "0";
    Payload.ToNumberOrNullRoundTrip(0);
  }

  /** Example: the default upper bid and odometer are sent as 150000. */
  lemma DefaultUpper()
    ensures NumberField(DEFAULT_MAX_BID) == Js.Num(150000) && NumberField(DEFAULT_ODO_TO) == Js.Num(150000)
  {
    assert NatToString(150000) == "150000" by {
      assert NatToString(15) == "15";
      assert NatToString(150) == "150";
      assert NatToString(1500) == "1500";
      assert NatToString(15000) == "15000";
    }
    Payload.ToNumberOrNullRoundTrip(150000);
  }

  /** A typed integer is sent as that number. */
  lemma SubmitTypedNumber(s: string, default: string, n: int)
    requires Trim(s) == IntToString(n)
    ensures NumberField(Defaulted(s, default)) == Js.Num(n)
  {
    Payload.ToNumberOrNullRoundTrip(n);
  }
}

/**
 * Change detection between two polls: the canonical price of a listing, the
 * identity key of a listing, and the diff of the current listings against the
 * `lastSeen` map of the previous poll (key -> canonical price or null).
 */
module Diff {
  import opened Wrappers
  import opened Text
  import Js
  import Scrape
  import Lists

  type Listing = Scrape.Listing

  // ------------------------------------------------------------ normPrice

  /**
   * `normPrice(p)`: null for a missing or blank price; otherwise the first
   * `$[\d,]+(.dd)?` token with everything but digits and dots removed, or failing
   * that the digits and dots of the trimmed price, or failing that the trimmed price.
   */
  function NormPrice(p: Option<string>): (r: Option<string>)
    ensures r.None? <==> p.None? || IsBlank(p.value)
    ensures r.Some? && MoneyToken(Trim(p.value)).Some? ==>
      r.value == KeepOnly(MoneyToken(Trim(p.value)).value, IsDigitOrDot)
    ensures r.Some? && MoneyToken(Trim(p.value)).None? ==> r.value != ""
    ensures r.Some? && MoneyToken(Trim(p.value)).None? && KeepOnly(Trim(p.value), IsDigitOrDot) != [] ==>
      r.value == KeepOnly(Trim(p.value), IsDigitOrDot)
    ensures r.Some? && MoneyToken(Trim(p.value)).None? && KeepOnly(Trim(p.value), IsDigitOrDot) == [] ==>
      r.value == Trim(p.value)
  {
    match p
    case None => None
    case Some(raw) =>
      var s := Trim(raw);
      if s == "" then None
      else match MoneyToken(s)
        case Some(m) => Some(KeepOnly(m, IsDigitOrDot))
        case None =>
          var digits := KeepOnly(s, IsDigitOrDot);
          if digits != "" then Some(digits) else Some(s)
  }

  /** The three spellings the source documents all normalise to "1400". */
  lemma NormPriceExamples()
    ensures NormPrice(Some("$1,400 USD")) == Some("1400")
    ensures NormPrice(Some("$1400")) == Some("1400")
    ensures NormPrice(Some("1400")) == Some("1400")
  {
    NormPriceWithUnit();
    NormPriceDollar();
    NormPricePlain();
  }

  lemma NormPricePlain()
    ensures NormPrice(Some("1400")) == Some("1400")
  {
    var c := "1400";
    TrimOfTrimmed(c);
    NoDollarNoMoney(c, 0);
    KeepOnlyAll(c, IsDigitOrDot);
    assert MoneyToken(Trim(c)).None?;
  }

  lemma NormPriceWithUnit()
    ensures NormPrice(Some("$1,400 USD")) == Some("1400")
  {
    var a := "$1,400 USD";
    TrimOfTrimmed(a);
    assert Trim(a) == a;
    MoneyTokenOfUnit();
    KeepOfUnit();
  }

  /** Example: the money token of `"$1,400 USD"` is `"$1,400"`. */
  lemma MoneyTokenOfUnit()
    ensures MoneyToken("$1,400 USD") == Some("$1,400")
  {
    MoneyOfUnit();
  }

  /** Example: one evaluation of the money match on `"$1,400 USD"`. */
  lemma MoneyOfUnit()
    ensures MoneyAt("$1,400 USD", 0) == Some("$1,400")
  {
    var a := "$1,400 USD";
    assert RunEnd(a, 6, IsDigitOrComma) == 6;
    assert RunEnd(a, 5, IsDigitOrComma) == 6;
    assert RunEnd(a, 4, IsDigitOrComma) == 6;
    assert RunEnd(a, 3, IsDigitOrComma) == 6;
    assert RunEnd(a, 2, IsDigitOrComma) == 6;
    assert RunEnd(a, 1, IsDigitOrComma) == 6;
    assert a[0..6] == "$1,400";
  }

  /** Example: stripping `"$1,400"` to digits and dots. */
  lemma KeepOfUnit()
    ensures KeepOnly("$1,400", IsDigitOrDot) == "1400"
  {
    var m := "$1,400";
    assert KeepOnly(m[5..], IsDigitOrDot) == "0";
    assert KeepOnly(m[4..], IsDigitOrDot) == "00";
    assert KeepOnly(m[3..], IsDigitOrDot) == "400";
    assert KeepOnly(m[2..], IsDigitOrDot) == "400";
    assert KeepOnly(m[1..], IsDigitOrDot) == "1400";
  }

  /** Example: `"$1400"` normalises to `"1400"`. */
  lemma NormPriceDollar()
    ensures NormPrice(Some("$1400")) == Some("1400")
  {
    var b := "$1400";
    MoneyOfDollar();
    TrimOfTrimmed(b);
    KeepOfDollar();
    assert MoneyToken(Trim(b)) == Some(b);
  }

  /** Example: one evaluation of the money match on `"$1400"`. */
  lemma MoneyOfDollar()
    ensures MoneyAt("$1400", 0) == Some("$1400")
  {
    var b := "$1400";
    assert RunEnd(b, 5, IsDigitOrComma) == 5;
    assert RunEnd(b, 4, IsDigitOrComma) == 5;
    assert RunEnd(b, 3, IsDigitOrComma) == 5;
    assert RunEnd(b, 2, IsDigitOrComma) == 5;
    assert RunEnd(b, 1, IsDigitOrComma) == 5;
    assert b[0..5] == b;
  }

  /** Example: stripping `"$1400"` to digits and dots. */
  lemma KeepOfDollar()
    ensures KeepOnly("$1400", IsDigitOrDot) == "1400"
  {
    var b := "$1400";
    assert KeepOnly(b[4..], IsDigitOrDot) == "0";
    assert KeepOnly(b[3..], IsDigitOrDot) == "00";
    assert KeepOnly(b[2..], IsDigitOrDot) == "400";
    assert KeepOnly(b[1..], IsDigitOrDot) == "1400";
    assert KeepOnly(b, IsDigitOrDot) == "1400";
  }

  /** A non-empty canonical price is its own canonical price. */
  lemma NormPriceIdempotent(p: Option<string>)
    ensures NormPrice(p).Some? && NormPrice(p).value != "" ==> NormPrice(NormPrice(p)) == NormPrice(p)
  {
    if NormPrice(p).Some? && NormPrice(p).value != "" {
      var r := NormPrice(p).value;
      if forall i :: 0 <= i < |r| ==> IsDigitOrDot(r[i]) {
        DigitsFixed(r);
      } else {
        var s := Trim(p.value);
        TrimIdempotent(p.value);
        assert r == s && MoneyToken(s).None? && KeepOnly(s, IsDigitOrDot) == "";
      }
    }
  }

  /** A non-empty run of digits and dots is already canonical. */
  lemma DigitsFixed(r: string)
    requires r != "" && forall i :: 0 <= i < |r| ==> IsDigitOrDot(r[i])
    ensures NormPrice(Some(r)) == Some(r)
  {
    assert !IsSpace(r[0]) && !IsSpace(r[|r| - 1]);
    TrimOfTrimmed(r);
    NoDollarNoMoney(r, 0);
    KeepOnlyAll(r, IsDigitOrDot);
  }

  /** A money token of only separators normalises to the empty string, which is not null. */
  lemma NormPriceSeparatorsOnly()
    ensures NormPrice(Some("$,")) == Some("")
  {
    var s := "$,";
    assert Trim(s) == s by { TrimOfTrimmed(s); }
    assert RunEnd(s, 1, IsDigitOrComma) == 2;
    assert MoneyAt(s, 0) == Some(s);
  }

  // -------------------------------------------------------------- makeKey

  /**
   * `makeKey(v)`: the trimmed stock id when it is meaningful, else the trimmed
   * link when that is meaningful, else null.
   */
  function MakeKey(v: Listing): (r: Option<string>)
    ensures Js.IsMeaningful(Js.OfString(v.stockId)) ==> r == Some(Trim(v.stockId.value))
    ensures !Js.IsMeaningful(Js.OfString(v.stockId)) && Js.IsMeaningful(Js.OfString(v.vehicleLink)) ==>
      r == Some(Trim(v.vehicleLink.value))
    ensures !Js.IsMeaningful(Js.OfString(v.stockId)) && !Js.IsMeaningful(Js.OfString(v.vehicleLink)) ==> r.None?
    ensures r.Some? ==> r.value != "" && Trim(r.value) == r.value
  {
    var stock := if Js.IsMeaningful(Js.OfString(v.stockId)) then Some(Trim(Js.ToStr(Js.OfString(v.stockId)))) else None;
    if stock.Some? && stock.value != "" then
      TrimIdempotent(v.stockId.value);
      stock
    else
      var link := if Js.IsMeaningful(Js.OfString(v.vehicleLink)) then Some(Trim(Js.ToStr(Js.OfString(v.vehicleLink)))) else None;
      if link.Some? && link.value != "" then
        TrimIdempotent(v.vehicleLink.value);
        link
      else None
  }

  // --------------------------------------------------------- diffVehicles

  datatype ChangeType = NEW | PRICE_CHANGED

  /** `{ ...v, changeType, old_price }` */
  datatype Change = Change(vehicle: Listing, changeType: ChangeType, oldPrice: Option<string>)

  /** The change one listing contributes against `prev`, if any. */
  function ChangeFor(prev: map<string, Option<string>>, v: Listing): (r: seq<Change>)
    ensures |r| <= 1
  {
    match MakeKey(v)
    case None => []
    case Some(k) =>
      if k !in prev then [Change(v, NEW, None)]
      else
        var price := NormPrice(v.price);
        if price.Some? && prev[k] != price then [Change(v, PRICE_CHANGED, prev[k])] else []
  }

  /** The `changes` array: each listing's change, in input order. */
  function Changes(prev: map<string, Option<string>>, vs: seq<Listing>): seq<Change> {
    Lists.FlatMap(vs, (v: Listing) => ChangeFor(prev, v))
  }

  function PriceOf(v: Listing): Option<string> { NormPrice(v.price) }

  /** The `nextSeen` object: every keyed listing's canonical price, later listings overwriting earlier ones. */
  function NextSeen(vs: seq<Listing>): map<string, Option<string>> {
    Lists.FoldKeys(vs, MakeKey, PriceOf)
  }

  /** `diffVehicles(prevSeen, currentVehicles)` */
  method DiffVehicles(prevSeen: map<string, Option<string>>, current: seq<Listing>)
    returns (changes: seq<Change>, nextSeen: map<string, Option<string>>)
    ensures changes == Changes(prevSeen, current)
    ensures nextSeen == NextSeen(current)
  {
    changes := [];
    nextSeen := map[];
    for i := 0 to |current|
      invariant changes == Changes(prevSeen, current[..i])
      invariant nextSeen == NextSeen(current[..i])
    {
      assert current[..i + 1][..i] == current[..i];
      var v := current[i];
      var key := MakeKey(v);
      if key.None? {
        continue;
      }
      var price := NormPrice(v.price);
      nextSeen := nextSeen[key.value := price];
      if key.value !in prevSeen {
        changes := changes + [Change(v, NEW, None)];
        continue;
      }
      var prevPrice := prevSeen[key.value];
      if price.Some? && prevPrice != price {
        changes := changes + [Change(v, PRICE_CHANGED, prevPrice)];
      }
    }
    assert current[..|current|] == current;
  }

  // ----------------------------------------------------------- properties

  /**
   * One listing's change: none without a key; NEW with a null old price exactly
   * when the key is absent from `prev` (a stored null counts as present);
   * otherwise PRICE_CHANGED with the stored price exactly when the current
   * canonical price is non-null and differs from it.
   */
  lemma ChangeForCases(prev: map<string, Option<string>>, v: Listing)
    ensures MakeKey(v).None? ==> ChangeFor(prev, v) == []
    ensures MakeKey(v).Some? && MakeKey(v).value !in prev ==> ChangeFor(prev, v) == [Change(v, NEW, None)]
    ensures MakeKey(v).Some? && MakeKey(v).value in prev ==>
      (ChangeFor(prev, v) != [] <==> NormPrice(v.price).Some? && NormPrice(v.price) != prev[MakeKey(v).value])
    ensures MakeKey(v).Some? && MakeKey(v).value in prev && ChangeFor(prev, v) != [] ==>
      ChangeFor(prev, v) == [Change(v, PRICE_CHANGED, prev[MakeKey(v).value])]
  {
  }

  /**
   * Every change comes from a keyed listing of the input, and is NEW exactly when
   * that listing's key is absent from `prev`.
   */
  lemma ChangesSound(prev: map<string, Option<string>>, vs: seq<Listing>)
    ensures forall c :: c in Changes(prev, vs) ==>
      c.vehicle in vs && MakeKey(c.vehicle).Some? &&
      (c.changeType == NEW <==> MakeKey(c.vehicle).value !in prev) &&
      (c.changeType == NEW ==> c.oldPrice.None?) &&
      (c.changeType == PRICE_CHANGED ==>
        c.oldPrice == prev[MakeKey(c.vehicle).value] &&
        NormPrice(c.vehicle.price).Some? && NormPrice(c.vehicle.price) != c.oldPrice)
  {
    var f := (v: Listing) => ChangeFor(prev, v);
    Lists.FlatMapFrom(vs, f);
    forall c | c in Changes(prev, vs)
      ensures c.vehicle in vs && MakeKey(c.vehicle).Some? &&
        (c.changeType == NEW <==> MakeKey(c.vehicle).value !in prev) &&
        (c.changeType == NEW ==> c.oldPrice.None?) &&
        (c.changeType == PRICE_CHANGED ==>
          c.oldPrice == prev[MakeKey(c.vehicle).value] &&
          NormPrice(c.vehicle.price).Some? && NormPrice(c.vehicle.price) != c.oldPrice)
    {
      var i :| 0 <= i < |vs| && c in f(vs[i]);
      ChangeForCases(prev, vs[i]);
    }
  }

  /** Listing i's change sits between the changes of the listings before it and after it. */
  lemma ChangesSplit(prev: map<string, Option<string>>, vs: seq<Listing>, i: nat)
    requires i < |vs|
    ensures Changes(prev, vs) == Changes(prev, vs[..i]) + ChangeFor(prev, vs[i]) + Changes(prev, vs[i + 1..])
  {
    Lists.FlatMapSplit(vs, i, (v: Listing) => ChangeFor(prev, v));
  }

  /** A keyed listing that is new, or whose canonical price is non-null and differs, yields its change. */
  lemma ChangesComplete(prev: map<string, Option<string>>, vs: seq<Listing>, i: nat)
    requires i < |vs| && MakeKey(vs[i]).Some?
    ensures MakeKey(vs[i]).value !in prev ==> Change(vs[i], NEW, None) in Changes(prev, vs)
    ensures MakeKey(vs[i]).value in prev && NormPrice(vs[i].price).Some? &&
            NormPrice(vs[i].price) != prev[MakeKey(vs[i]).value] ==>
      Change(vs[i], PRICE_CHANGED, prev[MakeKey(vs[i]).value]) in Changes(prev, vs)
  {
    ChangesSplit(prev, vs, i);
    ChangeForCases(prev, vs[i]);
  }

  /** A listing without a key contributes nothing. */
  lemma KeylessIgnored(prev: map<string, Option<string>>, vs: seq<Listing>, i: nat)
    requires i < |vs| && MakeKey(vs[i]).None?
    ensures Changes(prev, vs) == Changes(prev, vs[..i]) + Changes(prev, vs[i + 1..])
  {
    ChangesSplit(prev, vs, i);
    ChangeForCases(prev, vs[i]);
    Lists.ConcatEmpty(Changes(prev, vs[..i]), ChangeFor(prev, vs[i]), Changes(prev, vs[i + 1..]));
  }

  /**
   * `nextSeen` holds exactly the keys of the keyed listings (nothing of `prev`
   * carries over), each mapped to the canonical price of the last listing with that key.
   */
  lemma NextSeenKeys(vs: seq<Listing>)
    ensures forall k :: k in NextSeen(vs) <==> exists i :: 0 <= i < |vs| && MakeKey(vs[i]) == Some(k)
    ensures forall k :: k in NextSeen(vs) ==>
      exists i :: 0 <= i < |vs| && MakeKey(vs[i]) == Some(k) && NextSeen(vs)[k] == NormPrice(vs[i].price) &&
                  (forall j :: i < j < |vs| ==> MakeKey(vs[j]) != Some(k))
  {
    Lists.FoldKeysLastWins(vs, MakeKey, PriceOf);
  }

  predicate Keyed(v: Listing) { MakeKey(v).Some? }

  /** Against an empty `lastSeen` (the first poll) every keyed listing is NEW, in order, each once. */
  lemma FirstPollAllNew(vs: seq<Listing>)
    ensures |Changes(map[], vs)| == |Lists.Filter(vs, Keyed)|
    ensures forall i :: 0 <= i < |Changes(map[], vs)| ==>
      Changes(map[], vs)[i] == Change(Lists.Filter(vs, Keyed)[i], NEW, None)
  {
    var f := (v: Listing) => ChangeFor(map[], v);
    var g := (v: Listing) => Change(v, NEW, None);
    forall v ensures f(v) == if Keyed(v) then [g(v)] else [] {
      ChangeForCases(map[], v);
    }
    Lists.FlatMapFilter(vs, f, Keyed, g);
  }
}

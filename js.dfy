/**
 * The loosely-typed values the JavaScript code passes around (database rows,
 * request bodies, parsed JSON documents) and the language's own conversions
 * on them: `String(v)`, truthiness, `Number(v)`, `typeof` and `JSON.stringify`.
 * Numbers are integers: see README for what that leaves out.
 */
module Js {
  import opened Wrappers
  import opened Text

  /** An object is its own properties in `Object.keys` order. */
  datatype Value =
    | Undefined
    | Null
    | Bool(b: bool)
    | Num(n: int)
    | Str(s: string)
    | Arr(items: seq<Value>)
    | Obj(fields: seq<(string, Value)>)
  {
    /** `v == null`, i.e. `v === null || v === undefined` */
    predicate IsNullish() { Undefined? || Null? }
  }

  function OfString(o: Option<string>): (v: Value)
    ensures o.None? <==> v == Null
    ensures o.Some? ==> v == Str(o.value)
  {
    match o
    case None => Null
    case Some(s) => Str(s)
  }

  /** `Boolean(v)` (NaN does not occur: numbers are integers). */
  predicate Truthy(v: Value) {
    match v
    case Undefined => false
    case Null => false
    case Bool(b) => b
    case Num(n) => n != 0
    case Str(s) => s != ""
    case Arr(_) => true
    case Obj(_) => true
  }

  function TypeOf(v: Value): string {
    match v
    case Undefined => "undefined"
    case Null => "object"
    case Bool(_) => "boolean"
    case Num(_) => "number"
    case Str(_) => "string"
    case Arr(_) => "object"
    case Obj(_) => "object"
  }

  /** `parts.join(sep)` */
  function Join(parts: seq<string>, sep: string): string {
    if parts == [] then "" else if |parts| == 1 then parts[0] else parts[0] + sep + Join(parts[1..], sep)
  }

  /** `String(v)`; an array converts through `join(",")`, which renders null and undefined elements as "". */
  function ToStr(v: Value): string {
    match v
    case Undefined => "undefined"
    case Null => "null"
    case Bool(b) => if b then "true" else "false"
    case Num(n) => IntToString(n)
    case Str(s) => s
    case Arr(items) =>
      Join(seq(|items|, i requires 0 <= i < |items| => if items[i].IsNullish() then "" else ToStr(items[i])), ",")
    case Obj(_) => "[object Object]"
  }

  /** `obj[key]` for an own property; `undefined` when absent or when `obj` is not an object. */
  function Get(obj: Value, key: string): (r: Value)
    ensures !HasOwn(obj, key) ==> r == Undefined
  {
    if obj.Obj? then
      if HasKey(obj.fields, key) then Lookup(obj.fields, key)
      else LookupAbsent(obj.fields, key); Lookup(obj.fields, key)
    else Undefined
  }

  function Lookup(fields: seq<(string, Value)>, key: string): Value {
    if fields == [] then Undefined
    else if fields[0].0 == key then fields[0].1
    else Lookup(fields[1..], key)
  }

  predicate HasKey(fields: seq<(string, Value)>, key: string) {
    exists i :: 0 <= i < |fields| && fields[i].0 == key
  }

  /** `Object.prototype.hasOwnProperty.call(obj, key)` */
  predicate HasOwn(obj: Value, key: string) {
    obj.Obj? && HasKey(obj.fields, key)
  }

  lemma {:induction false} LookupAbsent(fields: seq<(string, Value)>, key: string)
    requires !HasKey(fields, key)
    ensures Lookup(fields, key) == Undefined
  {
    if fields != [] {
      assert !HasKey(fields[1..], key) by {
        forall i | 0 <= i < |fields[1..]| ensures fields[1..][i].0 != key {
          assert fields[1..][i] == fields[i + 1];
        }
      }
      LookupAbsent(fields[1..], key);
    }
  }

  /** The value of the first property named `key`, found at position `i`. */
  lemma {:induction false} LookupAt(fields: seq<(string, Value)>, key: string, i: nat)
    requires i < |fields| && fields[i].0 == key && forall j :: 0 <= j < i ==> fields[j].0 != key
    ensures HasKey(fields, key) && Lookup(fields, key) == fields[i].1
  {
    if i > 0 {
      LookupAt(fields[1..], key, i - 1);
    }
  }

  /** The object literal `{keys[0]: vals[0], keys[1]: vals[1], ...}`. */
  function Object(keys: seq<string>, vals: seq<Value>): (r: Value)
    requires |keys| == |vals|
    ensures r.Obj? && |r.fields| == |keys| && forall i :: 0 <= i < |keys| ==> r.fields[i] == (keys[i], vals[i])
  {
    Obj(seq(|keys|, i requires 0 <= i < |keys| => (keys[i], vals[i])))
  }

  /** Reading a property of an object literal whose earlier keys are different. */
  lemma ObjectGet(keys: seq<string>, vals: seq<Value>, i: nat)
    requires |keys| == |vals| && i < |keys| && forall j :: 0 <= j < i ==> keys[j] != keys[i]
    ensures Get(Object(keys, vals), keys[i]) == vals[i]
  {
    LookupAt(Object(keys, vals).fields, keys[i], i);
  }

  lemma ObjectAbsent(keys: seq<string>, vals: seq<Value>, key: string)
    requires |keys| == |vals| && key !in keys
    ensures Get(Object(keys, vals), key) == Undefined
  {
    var o := Object(keys, vals);
    forall i | 0 <= i < |o.fields| ensures o.fields[i].0 != key {
      assert o.fields[i].0 == keys[i];
    }
  }

  /** `Object.keys(v)`: property names of an object, indices of an array. */
  function Keys(v: Value): seq<string> {
    match v
    case Obj(fields) => seq(|fields|, i requires 0 <= i < |fields| => fields[i].0)
    case Arr(items) => seq(|items|, i requires 0 <= i < |items| => NatToString(i))
    case _ => []
  }

  /** `obj[k]` of every own property, in key order (`Object.keys(node).map(k => node[k])`). */
  function Values(v: Value): (r: seq<Value>)
    ensures v.Obj? ==> |r| == |v.fields| && forall i :: 0 <= i < |r| ==> r[i] == v.fields[i].1
    ensures v.Arr? ==> r == v.items
  {
    match v
    case Obj(fields) => seq(|fields|, i requires 0 <= i < |fields| => fields[i].1)
    case Arr(items) => items
    case _ => []
  }

  // ------------------------------------------------------------ isMeaningful

  /** Present and not one of the placeholder spellings "n/a", "na", "null" (any case). */
  predicate IsMeaningful(v: Value) {
    !v.IsNullish() &&
    var s := Trim(ToStr(v));
    s != "" && ToLower(s) != "n/a" && ToLower(s) != "na" && ToLower(s) != "null"
  }

  // ------------------------------------------------------------ Number(v)

  /** The integer value of a decimal literal `digits[.digits]` or `.digits`; None when it is not an integer. */
  function UnsignedDecimal(s: string): Option<int> {
    var i := RunEnd(s, 0, IsDigit);
    if i == |s| then (if i == 0 then None else Some(ParseDigits(s)))
    else if s[i] != '.' then None
    else
      var j := RunEnd(s, i + 1, IsDigit);
      if j != |s| || (i == 0 && j == 1) then None
      else if !(forall k :: i + 1 <= k < j ==> s[k] == '0') then None
      else Some(if i == 0 then 0 else ParseDigits(s[..i]))
  }

  /**
   * `Number(s)` for a string: whitespace-only is 0, an optional sign followed by a
   * decimal literal is its value; anything else (and every non-integer) is None.
   */
  function StringToNumber(s: string): (r: Option<int>) {
    var t := Trim(s);
    if t == "" then Some(0)
    else if t[0] == '-' then
      match UnsignedDecimal(t[1..])
      case Some(n) => Some(-n)
      case None => None
    else if t[0] == '+' then UnsignedDecimal(t[1..])
    else UnsignedDecimal(t)
  }

  /** `Number(v)`; None stands for NaN and for values the integer model cannot hold. */
  function ToNumber(v: Value): Option<int> {
    match v
    case Undefined => None
    case Null => Some(0)
    case Bool(b) => Some(if b then 1 else 0)
    case Num(n) => Some(n)
    case Str(s) => StringToNumber(s)
    case Arr(_) => StringToNumber(ToStr(v))
    case Obj(_) => None
  }

  lemma {:induction false} ParseDigitsNatToString(n: nat)
    ensures UnsignedDecimal(NatToString(n)) == Some(n)
  {
    ParseNatToString(n);
  }

  /** A rendered integer parses back to itself. */
  lemma StringToNumberRoundTrip(n: int)
    ensures StringToNumber(IntToString(n)) == Some(n)
  {
    var r := IntToString(n);
    var d := NatToString(if n < 0 then -n else n);
    TrimOfTrimmed(r);
    ParseDigitsNatToString(if n < 0 then -n else n);
    if n < 0 {
      assert r[1..] == d;
    } else {
      assert r[0] != '-' && r[0] != '+';
    }
  }

  // ------------------------------------------------------------ JSON.stringify

  function HexDigit(d: nat): char
    requires d < 16
  {
    if d < 10 then DigitChar(d) else ('a' as int + d - 10) as char
  }

  /** One character of a JSON string literal. */
  function EscapeChar(c: char): string {
    if c == '"' then "\\\""
    else if c == '\\' then "\\\\"
    else if c == '\U{0008}' then "\\b"
    else if c == '\U{000C}' then "\\f"
    else if c == '\n' then "\\n"
    else if c == '\r' then "\\r"
    else if c == '\t' then "\\t"
    else if (c as int) < 0x20 then "\\u00" + [HexDigit(c as int / 16), HexDigit(c as int % 16)]
    else [c]
  }

  function EscapeString(s: string): string {
    if s == [] then "" else EscapeChar(s[0]) + EscapeString(s[1..])
  }

  /** Every character is written as at least one character. */
  lemma EscapeCharNonEmpty(c: char)
    ensures EscapeChar(c) != []
  {
  }

  /**
   * The escapes form a prefix-free code: the character written first can be read
   * back from the text, whatever follows it.
   */
  lemma EscapeCharPrefixFree(c: char, d: char, x: string, y: string)
    requires EscapeChar(c) + x == EscapeChar(d) + y
    ensures c == d && x == y
  {
    var ec, ed := EscapeChar(c), EscapeChar(d);
    assert (ec + x)[0] == ec[0] && (ed + y)[0] == ed[0];
    if |ec| > 1 && |ed| > 1 {
      assert (ec + x)[1] == ec[1] && (ed + y)[1] == ed[1];
      if ec[1] == 'u' {
        assert (ec + x)[4] == ec[4] && (ed + y)[4] == ed[4];
        assert (ec + x)[5] == ec[5] && (ed + y)[5] == ed[5];
      }
    }
    assert ec == ed;
    assert x == (ec + x)[|ec|..];
    assert y == (ed + y)[|ed|..];
  }

  /** Different texts escape to different JSON string bodies. */
  lemma {:induction false} EscapeStringInjective(a: string, b: string)
    requires EscapeString(a) == EscapeString(b)
    ensures a == b
  {
    if a == [] || b == [] {
      if a != [] { EscapeCharNonEmpty(a[0]); }
      if b != [] { EscapeCharNonEmpty(b[0]); }
    } else {
      EscapeCharPrefixFree(a[0], b[0], EscapeString(a[1..]), EscapeString(b[1..]));
      EscapeStringInjective(a[1..], b[1..]);
    }
  }

  /** `JSON.stringify` of a string determines the string: different texts never share a serialisation. */
  lemma QuoteInjective(a: string, b: string)
    requires Quote(a) == Quote(b)
    ensures a == b
  {
    var qa, qb := Quote(a), Quote(b);
    assert EscapeString(a) == qa[1..|qa| - 1];
    assert EscapeString(b) == qb[1..|qb| - 1];
    EscapeStringInjective(a, b);
  }

  /** `JSON.stringify(s)` of a string. */
  function Quote(s: string): (r: string)
    ensures |r| >= 2 && r[0] == '"' && r[|r| - 1] == '"'
  {
    "\"" + EscapeString(s) + "\""
  }

  /**
   * `JSON.stringify(v)` for a value that is not `undefined` itself: nullish is
   * `null`, and strings, arrays and objects are delimited by their brackets.
   */
  function Stringify(v: Value): (r: string)
    ensures r != []
    ensures v.Null? || v.Undefined? ==> r == "null"
    ensures v.Str? ==> r[0] == '"' && r[|r| - 1] == '"'
    ensures v.Arr? ==> r[0] == '[' && r[|r| - 1] == ']'
    ensures v.Obj? ==> r[0] == '{' && r[|r| - 1] == '}'
  {
    match v
    case Undefined => "null"
    case Null => "null"
    case Bool(b) => if b then "true" else "false"
    case Num(n) => IntToString(n)
    case Str(s) => Quote(s)
    case Arr(items) =>
      "[" + Join(seq(|items|, i requires 0 <= i < |items| => Stringify(items[i])), ",") + "]"
    case Obj(fields) =>
      "{" + Join(FieldStrings(v, fields), ",") + "}"
  }

  /** The `"key":value` members of an object, skipping properties whose value is `undefined`. */
  function FieldStrings(v: Value, fields: seq<(string, Value)>): seq<string>
    requires v.Obj? && forall i :: 0 <= i < |fields| ==> fields[i] in v.fields
    decreases v, |fields|
  {
    if fields == [] then []
    else
      var rest := FieldStrings(v, fields[1..]);
      if fields[0].1.Undefined? then rest
      else [Quote(fields[0].0) + ":" + Stringify(fields[0].1)] + rest
  }
}

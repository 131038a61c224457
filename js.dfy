/**
 * The slice of JavaScript's value semantics that the plugin relies on:
 * primitive values, plain objects as ordered property lists (own keys keep
 * insertion order), truthiness and `== null`, property get/put, object spread,
 * `String(v)`, `parseInt(v, 10)`, `Array.prototype.join` and `JSON.stringify`.
 * Numbers are integers (or NaN); floating point is not modelled.
 */
module Js {

  import opened Wrappers

  datatype JsValue =
    | Undefined
    | Null
    | Bool(b: bool)
    | Num(n: int)
    | NaN
    | Str(s: string)
    | Object(props: seq<Prop>)

  /** One own property of a plain object. */
  datatype Prop = Prop(key: string, value: JsValue)

  /** `v == null` (loose equality): true for `null` and `undefined` only. */
  predicate Nullish(v: JsValue) {
    v.Undefined? || v.Null?
  }

  /** JavaScript truthiness (`if (v)`, `v || w`, `v && w`). */
  predicate Truthy(v: JsValue) {
    match v
    case Undefined => false
    case Null => false
    case NaN => false
    case Bool(b) => b
    case Num(n) => n != 0
    case Str(s) => s != ""
    case Object(_) => true
  }

  // ---------------------------------------------------------------------------
  // Objects as ordered property lists

  function Keys(props: seq<Prop>): (ks: seq<string>)
    ensures |ks| == |props|
    ensures forall i :: 0 <= i < |props| ==> ks[i] == props[i].key
  {
    if props == [] then [] else [props[0].key] + Keys(props[1..])
  }

  predicate HasKey(props: seq<Prop>, k: string) {
    k in Keys(props)
  }

  /** Own keys are distinct: true of every object the source builds. */
  predicate UniqueKeys(props: seq<Prop>) {
    forall i, j :: 0 <= i < j < |props| ==> props[i].key != props[j].key
  }

  /** The position of the last occurrence of `k` in `ks`, or -1. */
  function LastIndexOf(ks: seq<string>, k: string): (i: int)
    ensures -1 <= i < |ks|
    ensures i >= 0 ==> ks[i] == k && forall j :: i < j < |ks| ==> ks[j] != k
    ensures i < 0 ==> k !in ks
  {
    if ks == [] then -1
    else if ks[|ks| - 1] == k then |ks| - 1
    else LastIndexOf(ks[..|ks| - 1], k)
  }

  /** `obj[k]`: the value of the property named `k` (the last one, should a list repeat a key),
      `undefined` when there is none. */
  function Get(props: seq<Prop>, k: string): (v: JsValue)
    ensures !HasKey(props, k) ==> v == Undefined
    ensures HasKey(props, k) ==> exists i :: 0 <= i < |props| && props[i].key == k && props[i].value == v
  {
    var i := LastIndexOf(Keys(props), k);
    if i < 0 then Undefined else props[i].value
  }

  /** `obj[k] = v`: overwrites the property named `k` in place, or appends a new one. */
  function Put(props: seq<Prop>, k: string, v: JsValue): (r: seq<Prop>)
    ensures Get(r, k) == v
    ensures forall k' :: k' != k ==> Get(r, k') == Get(props, k')
    ensures forall k' :: HasKey(r, k') <==> HasKey(props, k') || k' == k
    ensures HasKey(props, k) ==> Keys(r) == Keys(props)
    ensures !HasKey(props, k) ==> r == props + [Prop(k, v)] && Keys(r) == Keys(props) + [k]
  {
    if HasKey(props, k) then
      var r := seq(|props|, i requires 0 <= i < |props| => if props[i].key == k then Prop(k, v) else props[i]);
      PutInPlace(props, k, v, r);
      r
    else
      GetSnoc(props, Prop(k, v));
      props + [Prop(k, v)]
  }

  /** Overwriting the properties named `k` keeps the key list, so every read but that of `k`
      finds the same property. */
  lemma PutInPlace(props: seq<Prop>, k: string, v: JsValue, r: seq<Prop>)
    requires |r| == |props|
    requires forall i :: 0 <= i < |props| ==> r[i] == if props[i].key == k then Prop(k, v) else props[i]
    ensures Keys(r) == Keys(props)
    ensures HasKey(props, k) ==> Get(r, k) == v
    ensures forall k' :: k' != k ==> Get(r, k') == Get(props, k')
  {
    assert Keys(r) == Keys(props);
    forall k' | k' != k
      ensures Get(r, k') == Get(props, k')
    {
      var i := LastIndexOf(Keys(props), k');
      if i >= 0 {
        assert r[i] == props[i];
      }
    }
  }

  lemma GetSnoc(front: seq<Prop>, p: Prop)
    ensures Keys(front + [p]) == Keys(front) + [p.key]
    ensures forall k :: Get(front + [p], k) == if k == p.key then p.value else Get(front, k)
  {
    assert Keys(front + [p]) == Keys(front) + [p.key];
    assert (Keys(front) + [p.key])[..|front|] == Keys(front);
  }

  /** `Object.assign(target, source)`, and object spread `{...target, ...source}`: put every
      property of `source`, in order, into `target`. */
  function Assign(target: seq<Prop>, source: seq<Prop>): (r: seq<Prop>)
    ensures forall k :: Get(r, k) == if HasKey(source, k) then Get(source, k) else Get(target, k)
    ensures forall k :: HasKey(r, k) <==> HasKey(target, k) || HasKey(source, k)
    decreases |source|
  {
    if source == [] then target
    else
      var last := source[|source| - 1];
      var front := source[..|source| - 1];
      assert source == front + [last];
      GetSnoc(front, last);
      Put(Assign(target, front), last.key, last.value)
  }

  /** Spreading an object with distinct keys into a target that has none of them appends its
      properties unchanged and in order. */
  lemma {:induction false} AssignDisjoint(target: seq<Prop>, source: seq<Prop>)
    requires UniqueKeys(source)
    requires forall i :: 0 <= i < |source| ==> !HasKey(target, source[i].key)
    ensures Assign(target, source) == target + source
    decreases |source|
  {
    if source != [] {
      var last := source[|source| - 1];
      var front := source[..|source| - 1];
      assert source == front + [last];
      assert UniqueKeys(front);
      assert forall i :: 0 <= i < |front| ==> !HasKey(target, front[i].key);
      AssignDisjoint(target, front);
      var acc := Assign(target, front);
      assert acc == target + front;
      KeysConcat(target, front);
      assert last.key !in Keys(front) by {
        forall i | 0 <= i < |front| ensures Keys(front)[i] != last.key {
          assert front[i] == source[i];
        }
      }
      assert !HasKey(target, last.key);
      assert !HasKey(acc, last.key);
      assert Assign(target, source) == Put(acc, last.key, last.value);
      assert Put(acc, last.key, last.value) == acc + [last];
      SnocAssoc(target, front, last);
    }
  }

  lemma SnocAssoc<T>(a: seq<T>, b: seq<T>, x: T)
    ensures a + (b + [x]) == (a + b) + [x]
  {
  }

  lemma KeysConcat(a: seq<Prop>, b: seq<Prop>)
    ensures Keys(a + b) == Keys(a) + Keys(b)
  {
    assert Keys(a + b) == Keys(a) + Keys(b);
  }

  // ---------------------------------------------------------------------------
  // Decimal numbers

  predicate IsDigit(c: char) {
    '0' <= c <= '9'
  }

  function DigitChar(d: nat): (c: char)
    requires d < 10
    ensures IsDigit(c) && c as int - '0' as int == d
  {
    (48 + d) as char
  }

  /** The decimal digits of `n`, without leading zeros: `String(n)` for a non-negative integer
      below 10^21. From 10^21 on JavaScript prints exponent notation (`"1e+21"`), which this
      function does not model. */
  function NatToString(n: nat): (s: string)
    ensures |s| > 0 && forall i :: 0 <= i < |s| ==> IsDigit(s[i])
  {
    if n < 10 then [DigitChar(n)] else NatToString(n / 10) + [DigitChar(n % 10)]
  }

  /** `String(n)` for an integer with `|n| < 10^21`; see `NatToString`. */
  function IntToString(n: int): string {
    if n < 0 then "-" + NatToString(-n) else NatToString(n)
  }

  /** The value of a string of decimal digits. */
  function DigitsValue(ds: string): nat
    requires forall i :: 0 <= i < |ds| ==> IsDigit(ds[i])
  {
    if ds == [] then 0
    else
      var d := ds[|ds| - 1];
      assert IsDigit(d);
      DigitsValue(ds[..|ds| - 1]) * 10 + (d as int - '0' as int)
  }

  /** The longest prefix of `s` made of decimal digits. */
  function DigitPrefix(s: string): (p: string)
    ensures p <= s
    ensures forall i :: 0 <= i < |p| ==> IsDigit(p[i])
    ensures |p| < |s| ==> !IsDigit(s[|p|])
  {
    if s == [] || !IsDigit(s[0]) then [] else [s[0]] + DigitPrefix(s[1..])
  }

  /** `StrWhiteSpaceChar` of ECMAScript: white space and line terminators. */
  predicate IsWhiteSpace(c: char) {
    c == '\t' || c == '\n' || c == '\U{000B}' || c == '\U{000C}' || c == '\r' || c == ' '
    || c == '\U{00A0}' || c == '\U{1680}' || ('\U{2000}' <= c <= '\U{200A}')
    || c == '\U{2028}' || c == '\U{2029}' || c == '\U{202F}' || c == '\U{205F}'
    || c == '\U{3000}' || c == '\U{FEFF}'
  }

  function TrimStart(s: string): (t: string)
    ensures |t| <= |s| && t == s[|s| - |t|..]
    ensures t != [] ==> !IsWhiteSpace(t[0])
  {
    if s != [] && IsWhiteSpace(s[0]) then TrimStart(s[1..]) else s
  }

  /** `parseInt(s, 10)`: skip leading white space, read an optional sign and the longest run of
      decimal digits; `NaN` when there are none. */
  function ParseInt(s: string): JsValue {
    var t := TrimStart(s);
    var negative := |t| > 0 && t[0] == '-';
    var u := if |t| > 0 && (t[0] == '-' || t[0] == '+') then t[1..] else t;
    var ds := DigitPrefix(u);
    if ds == [] then NaN
    else if negative then Num(-(DigitsValue(ds) as int))
    else Num(DigitsValue(ds))
  }

  /** `String(v)`. */
  function ToString(v: JsValue): string {
    match v
    case Undefined => "undefined"
    case Null => "null"
    case Bool(b) => if b then "true" else "false"
    case Num(n) => IntToString(n)
    case NaN => "NaN"
    case Str(s) => s
    case Object(_) => "[object Object]"
  }

  /** Reading the digits of `n` back gives `n`. */
  lemma {:induction false} DigitsValueOfNatToString(n: nat)
    ensures DigitsValue(NatToString(n)) == n
  {
    if n >= 10 {
      var s := NatToString(n);
      assert s[..|s| - 1] == NatToString(n / 10);
      DigitsValueOfNatToString(n / 10);
    }
  }

  /** `parseInt(String(n), 10) === n` for the model's `String`, that is for every integer with
      `|n| < 10^21`; JavaScript's exponent notation beyond that bound is not modelled. */
  lemma ParseIntOfIntToString(n: int)
    ensures ParseInt(IntToString(n)) == Num(n)
  {
    if n < 0 {
      var ds := NatToString(-n);
      assert IntToString(n) == "-" + ds;
      ParseIntNeg(ds);
      DigitsValueOfNatToString(-n);
    } else {
      var ds := NatToString(n);
      assert IntToString(n) == ds;
      ParseIntPos(ds);
      DigitsValueOfNatToString(n);
    }
  }

  lemma ParseIntNeg(ds: string)
    requires ds != [] && forall i :: 0 <= i < |ds| ==> IsDigit(ds[i])
    ensures ParseInt("-" + ds) == Num(-(DigitsValue(ds) as int))
  {
    var t := "-" + ds;
    assert t[0] == '-' && t[1..] == ds;
    NoLeadingSpace(t);
    DigitPrefixOfDigits(t[1..]);
  }

  lemma ParseIntPos(ds: string)
    requires ds != [] && forall i :: 0 <= i < |ds| ==> IsDigit(ds[i])
    ensures ParseInt(ds) == Num(DigitsValue(ds))
  {
    DigitPrefixOfDigits(ds);
    NoLeadingSpace(ds);
    assert !(ds[0] == '-' || ds[0] == '+');
  }

  lemma NoLeadingSpace(t: string)
    requires t != [] && (t[0] == '-' || IsDigit(t[0]))
    ensures TrimStart(t) == t
  {
    assert !IsWhiteSpace(t[0]);
  }

  lemma {:induction false} DigitPrefixOfDigits(ds: string)
    requires forall i :: 0 <= i < |ds| ==> IsDigit(ds[i])
    ensures DigitPrefix(ds) == ds
  {
    if ds != [] {
      DigitPrefixOfDigits(ds[1..]);
    }
  }

  // ---------------------------------------------------------------------------
  // Array.prototype.join over strings

  function Join(xs: seq<string>, sep: string): (r: string)
    ensures xs == [] ==> r == ""
    ensures |xs| == 1 ==> r == xs[0]
  {
    if xs == [] then ""
    else if |xs| == 1 then xs[0]
    else xs[0] + sep + Join(xs[1..], sep)
  }

  /** Appending a string to a non-empty list puts one separator before it. */
  lemma {:induction false} JoinSnoc(xs: seq<string>, x: string, sep: string)
    requires xs != []
    ensures Join(xs + [x], sep) == Join(xs, sep) + sep + x
    decreases |xs|
  {
    assert (xs + [x])[0] == xs[0];
    if |xs| == 1 {
      assert (xs + [x])[1..] == [x];
    } else {
      assert (xs + [x])[1..] == xs[1..] + [x];
      JoinSnoc(xs[1..], x, sep);
    }
  }

  /** With a one-character separator that no string contains, the joined text determines the
      (non-empty) list: splitting it at the separator gives the strings back. */
  lemma {:induction false} JoinInjective(xs: seq<string>, ys: seq<string>, c: char)
    requires xs != [] && ys != []
    requires forall i :: 0 <= i < |xs| ==> c !in xs[i]
    requires forall i :: 0 <= i < |ys| ==> c !in ys[i]
    ensures Join(xs, [c]) == Join(ys, [c]) <==> xs == ys
    decreases |xs|
  {
    if Join(xs, [c]) == Join(ys, [c]) {
      if |xs| > 1 && |ys| > 1 {
        SplitAtSeparator(xs[0], Join(xs[1..], [c]), ys[0], Join(ys[1..], [c]), c);
        JoinInjective(xs[1..], ys[1..], c);
        assert xs == [xs[0]] + xs[1..] && ys == [ys[0]] + ys[1..];
      }
    }
  }

  lemma SeparatorAt(a: string, r: string, c: char)
    ensures |a| < |a + [c] + r| && (a + [c] + r)[|a|] == c
  {
  }

  /** The first separator splits a joined text at the same place, whichever list it came from. */
  lemma SplitAtSeparator(a: string, r: string, b: string, t: string, c: char)
    requires c !in a && c !in b
    requires a + [c] + r == b + [c] + t
    ensures a == b && r == t
  {
    if |a| < |b| {
      assert (b + [c] + t)[|a|] == b[|a|];
      SeparatorAt(a, r, c);
    } else if |b| < |a| {
      assert (a + [c] + r)[|b|] == a[|b|];
      SeparatorAt(b, t, c);
    } else {
      assert a == (a + [c] + r)[..|a|];
      assert b == (b + [c] + t)[..|b|];
      assert r == (a + [c] + r)[|a| + 1..];
      assert t == (b + [c] + t)[|b| + 1..];
    }
  }

  // ---------------------------------------------------------------------------
  // JSON.stringify

  function HexDigit(d: nat): char
    requires d < 16
  {
    if d < 10 then DigitChar(d) else (87 + d) as char
  }

  /** The escaped form of one character inside a JSON string literal. */
  function JsonChar(c: char): string {
    if c == '"' then "\\\""
    else if c == '\\' then "\\\\"
    else if c == '\U{0008}' then "\\b"
    else if c == '\t' then "\\t"
    else if c == '\n' then "\\n"
    else if c == '\U{000C}' then "\\f"
    else if c == '\r' then "\\r"
    else if c < ' ' then "\\u00" + [HexDigit(c as nat / 16), HexDigit(c as nat % 16)]
    else [c]
  }

  function JsonEscape(s: string): string {
    if s == [] then "" else JsonChar(s[0]) + JsonEscape(s[1..])
  }

  function JsonQuote(s: string): string {
    "\"" + JsonEscape(s) + "\""
  }

  /** `JSON.stringify(v)`; `None` where it returns `undefined`. */
  function JsonStringify(v: JsValue): Option<string> {
    match v
    case Undefined => None
    case Null => Some("null")
    case NaN => Some("null")
    case Bool(b) => Some(if b then "true" else "false")
    case Num(n) => Some(IntToString(n))
    case Str(s) => Some(JsonQuote(s))
    case Object(props) => Some("{" + Join(JsonMembers(props), ",") + "}")
  }

  /** The `"key":value` members of an object, leaving out properties whose value is `undefined`. */
  function JsonMembers(props: seq<Prop>): seq<string> {
    if props == [] then []
    else
      match JsonStringify(props[0].value)
      case None => JsonMembers(props[1..])
      case Some(text) => [JsonQuote(props[0].key) + ":" + text] + JsonMembers(props[1..])
  }

}

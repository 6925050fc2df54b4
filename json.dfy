/**
 * The JSON values the webhook body parses to, seen as the Python objects
 * that `request.get_json` hands to the handler: `null` is `None`, an object
 * is a `dict`. Also Python's truth value of such an object, dict lookup, and
 * the `str()` coercion the handler applies to a camera id.
 */
module JsonValue {
  import opened Wrappers

  /**
   * An object keeps its members in document order, duplicates included. As
   * a Python dict, the last value given for a key wins and the key keeps the
   * position where it first appeared (what `json.loads` builds).
   */
  datatype Json =
    | JNull
    | JBool(b: bool)
    | JInt(i: int)
    | JStr(s: string)
    | JArr(items: seq<Json>)
    | JObj(members: seq<(string, Json)>)

  /** `bool(v)`: None, False, 0, "", [] and {} are falsy. */
  predicate Truthy(v: Json)
    ensures !Truthy(v) <==> v in {JNull, JBool(false), JInt(0), JStr(""), JArr([]), JObj([])}
  {
    match v
    case JNull => false
    case JBool(b) => b
    case JInt(i) => i != 0
    case JStr(s) => s != ""
    case JArr(items) => items != []
    case JObj(members) => members != []
  }

  predicate HasKey(members: seq<(string, Json)>, key: string) {
    exists i :: 0 <= i < |members| && members[i].0 == key
  }

  /** The position of the member that supplies the dict's value for `key`. */
  function LastIndexOf(members: seq<(string, Json)>, key: string): (k: nat)
    requires HasKey(members, key)
    ensures k < |members| && members[k].0 == key
    ensures forall j :: k < j < |members| ==> members[j].0 != key
  {
    var n := |members| - 1;
    if members[n].0 == key then n
    else
      assert HasKey(members[..n], key) by {
        var i :| 0 <= i < |members| && members[i].0 == key;
        assert members[..n][i].0 == key;
      }
      LastIndexOf(members[..n], key)
  }

  /** The position of the first member with `key`: where the key sits in the dict. */
  function FirstIndexOf(members: seq<(string, Json)>, key: string): (k: nat)
    requires HasKey(members, key)
    ensures k < |members| && members[k].0 == key
    ensures forall j :: 0 <= j < k ==> members[j].0 != key
  {
    if members[0].0 == key then 0
    else
      assert HasKey(members[1..], key) by {
        var i :| 0 <= i < |members| && members[i].0 == key;
        assert members[1..][i - 1].0 == key;
      }
      1 + FirstIndexOf(members[1..], key)
  }

  /** A key already present in a prefix keeps its first position when members are appended. */
  lemma FirstIndexOfPrefix(members: seq<(string, Json)>, n: nat, key: string)
    requires n <= |members| && HasKey(members[..n], key)
    ensures HasKey(members, key) && FirstIndexOf(members[..n], key) == FirstIndexOf(members, key)
  {
    var k := FirstIndexOf(members[..n], key);
    assert members[k].0 == key;
    assert forall j :: 0 <= j < k ==> members[j].0 == members[..n][j].0;
  }

  /** `d.get(key)` on the dict built from `members`, None when the key is absent. */
  function Lookup(members: seq<(string, Json)>, key: string): (r: Option<Json>)
    ensures r.None? <==> forall i :: 0 <= i < |members| ==> members[i].0 != key
    ensures r.Some? ==> exists i :: 0 <= i < |members| && members[i] == (key, r.value)
                                     && forall j :: i < j < |members| ==> members[j].0 != key
  {
    if HasKey(members, key) then Some(members[LastIndexOf(members, key)].1) else None
  }

  /** The dict's keys in insertion order: each key once, where it first appeared. */
  function DictKeys(members: seq<(string, Json)>): (ks: seq<string>)
    ensures forall a, b :: 0 <= a < b < |ks| ==> ks[a] != ks[b]
    ensures forall k :: k in ks <==> HasKey(members, k)
  {
    if members == [] then []
    else
      var n := |members| - 1;
      var front := DictKeys(members[..n]);
      KeysOfPrefix(members, n);
      if members[n].0 in front then front else front + [members[n].0]
  }

  /** The keys of all members are those of the first `n` and the key of member `n`. */
  lemma KeysOfPrefix(members: seq<(string, Json)>, n: nat)
    requires n == |members| - 1
    ensures forall k :: HasKey(members, k) <==> HasKey(members[..n], k) || members[n].0 == k
  {
    forall k | HasKey(members, k) && members[n].0 != k ensures HasKey(members[..n], k) {
      var i :| 0 <= i < |members| && members[i].0 == k;
      assert members[..n][i].0 == k;
    }
    forall k | HasKey(members[..n], k) ensures HasKey(members, k) {
      var i :| 0 <= i < n && members[..n][i].0 == k;
      assert members[i].0 == k;
    }
  }

  /** `ks` lists keys of `members` in the order of their first appearance. */
  predicate InFirstAppearanceOrder(members: seq<(string, Json)>, ks: seq<string>)
    requires forall k :: k in ks ==> HasKey(members, k)
  {
    forall a, b :: 0 <= a < b < |ks| ==> FirstIndexOf(members, ks[a]) < FirstIndexOf(members, ks[b])
  }

  /** The dict's keys come in the order of their first appearance among the members. */
  lemma {:induction false} DictKeysInFirstOrder(members: seq<(string, Json)>)
    ensures InFirstAppearanceOrder(members, DictKeys(members))
  {
    if members != [] {
      var n := |members| - 1;
      var front := DictKeys(members[..n]);
      DictKeysInFirstOrder(members[..n]);
      KeysOfPrefix(members, n);
      forall a | 0 <= a < |front|
        ensures FirstIndexOf(members[..n], front[a]) == FirstIndexOf(members, front[a]) < n
      {
        FirstIndexOfPrefix(members, n, front[a]);
      }
      var ks := DictKeys(members);
      assert InFirstAppearanceOrder(members[..n], front);
      if members[n].0 in front {
        assert ks == front;
      } else {
        assert ks == front + [members[n].0];
        assert !HasKey(members[..n], members[n].0);
        forall a, b | 0 <= a < b < |ks| ensures FirstIndexOf(members, ks[a]) < FirstIndexOf(members, ks[b]) {
          assert ks[a] == front[a];
          if b < |front| {
            assert ks[b] == front[b];
          } else {
            assert ks[b] == members[n].0;
          }
        }
      }
    }
  }

  // ---------------------------------------------------------------------
  // Decimal rendering of integers, as `str(int)` produces it.
  // ---------------------------------------------------------------------

  predicate IsDigit(c: char) { '0' <= c <= '9' }

  function DigitChar(d: nat): (c: char)
    requires d < 10
    ensures IsDigit(c)
  {
    (('0' as int) + d) as char
  }

  function DigitValue(c: char): (d: nat)
    requires IsDigit(c)
    ensures d < 10
  {
    (c as int) - ('0' as int)
  }

  /** The decimal digits of `n`, most significant first, without leading zeros. */
  function NatToDecimal(n: nat): (r: string)
    ensures |r| > 0
    ensures forall i :: 0 <= i < |r| ==> IsDigit(r[i])
    ensures r[0] == '0' <==> n == 0
    decreases n
  {
    if n < 10 then [DigitChar(n)] else NatToDecimal(n / 10) + [DigitChar(n % 10)]
  }

  /** `str(i)`: a minus sign for negative numbers, then the digits. */
  function IntToDecimal(i: int): string {
    if i < 0 then "-" + NatToDecimal(-i) else NatToDecimal(i)
  }

  /** Reads a string of digits back as a number (the reference inverse of NatToDecimal). */
  function DecimalToNat(s: string): nat
    requires forall i :: 0 <= i < |s| ==> IsDigit(s[i])
  {
    if s == [] then 0 else DecimalToNat(s[..|s| - 1]) * 10 + DigitValue(s[|s| - 1])
  }

  /** `int(s)` for the strings `str(int)` produces: an optional minus sign, then digits. */
  function ParseInt(s: string): Option<int> {
    if |s| > 0 && s[0] == '-' then
      if |s| > 1 && forall i :: 1 <= i < |s| ==> IsDigit(s[i]) then Some(0 - DecimalToNat(s[1..])) else None
    else if |s| > 0 && forall i :: 0 <= i < |s| ==> IsDigit(s[i]) then Some(DecimalToNat(s))
    else None
  }

  lemma {:induction false} NatDecimalRoundTrip(n: nat)
    ensures DecimalToNat(NatToDecimal(n)) == n
    decreases n
  {
    var r := NatToDecimal(n);
    if n < 10 {
      assert r[..|r| - 1] == [];
    } else {
      NatDecimalRoundTrip(n / 10);
      assert r[..|r| - 1] == NatToDecimal(n / 10);
    }
  }

  /** `int(str(i)) == i`: coercing an integer id to text loses nothing. */
  lemma IntDecimalRoundTrip(i: int)
    ensures ParseInt(IntToDecimal(i)) == Some(i)
  {
    var r := IntToDecimal(i);
    if i < 0 {
      var digits := NatToDecimal(-i);
      assert r == "-" + digits;
      assert r[1..] == digits;
      assert forall k :: 1 <= k < |r| ==> IsDigit(r[k]) by {
        forall k | 1 <= k < |r| ensures IsDigit(r[k]) { assert r[k] == digits[k - 1]; }
      }
      NatDecimalRoundTrip(-i);
    } else {
      assert IsDigit(r[0]);
      NatDecimalRoundTrip(i);
    }
  }

  // ---------------------------------------------------------------------
  // `str()` and `repr()` of a parsed JSON value.
  // ---------------------------------------------------------------------

  function Join(sep: string, parts: seq<string>): string {
    if parts == [] then ""
    else if |parts| == 1 then parts[0]
    else parts[0] + sep + Join(sep, parts[1..])
  }

  function HexDigit(d: nat): char
    requires d < 16
  {
    "0123456789abcdef"[d]
  }

  /** One character inside the quotes of a Python string repr. */
  function EscapeChar(c: char, quote: char): string {
    if c == quote || c == '\\' then ['\\', c]
    else if c == '\t' then "\\t"
    else if c == '\n' then "\\n"
    else if c == '\r' then "\\r"
    else if c < ' ' || c == '\U{7f}' then ['\\', 'x', HexDigit(c as int / 16), HexDigit(c as int % 16)]
    else [c]
  }

  function EscapeAll(s: string, quote: char): string {
    if s == [] then "" else EscapeChar(s[0], quote) + EscapeAll(s[1..], quote)
  }

  /** `repr(s)`: single quotes unless the text holds a single quote and no double quote. */
  function StrRepr(s: string): string {
    var quote := if '\'' in s && '"' !in s then '"' else '\'';
    [quote] + EscapeAll(s, quote) + [quote]
  }

  /** `str()` of None, a boolean or an integer, which is also its `repr()`. */
  function ScalarText(v: Json): string
    requires !v.JStr? && !v.JArr? && !v.JObj?
  {
    match v
    case JNull => "None"
    case JBool(b) => if b then "True" else "False"
    case JInt(i) => IntToDecimal(i)
  }

  /** `repr(v)`, as Python prints a value nested inside a list or dict. */
  function Repr(v: Json): (r: string)
    ensures v.JStr? ==> |r| >= 2 && r[0] == r[|r| - 1] && (r[0] == '\'' || r[0] == '"')
    ensures v.JArr? ==> |r| >= 2 && r[0] == '[' && r[|r| - 1] == ']'
    ensures v.JObj? ==> |r| >= 2 && r[0] == '{' && r[|r| - 1] == '}'
    ensures !v.JStr? && !v.JArr? && !v.JObj? ==> r == ScalarText(v)
  {
    match v
    case JStr(s) => StrRepr(s)
    case JArr(items) =>
      "[" + Join(", ", seq(|items|, k requires 0 <= k < |items| => Repr(items[k]))) + "]"
    case JObj(members) =>
      var keys := DictKeys(members);
      "{" + Join(", ", seq(|keys|, k requires 0 <= k < |keys| =>
                          StrRepr(keys[k]) + ": " + Repr(members[LastIndexOf(members, keys[k])].1))) + "}"
    case _ => ScalarText(v)
  }

  /** `str(v)`: the text itself for a string, `repr` for lists and dicts. */
  function Str(v: Json): (r: string)
    ensures v.JStr? ==> r == v.s
    ensures v == JNull ==> r == "None"
    ensures v.JBool? ==> r == (if v.b then "True" else "False")
    ensures v.JInt? ==> r == IntToDecimal(v.i) && ParseInt(r) == Some(v.i)
    ensures v.JArr? ==> |r| >= 2 && r[0] == '[' && r[|r| - 1] == ']'
    ensures v.JObj? ==> |r| >= 2 && r[0] == '{' && r[|r| - 1] == '}'
  {
    match v
    case JStr(s) => s
    case JInt(i) => IntDecimalRoundTrip(i); IntToDecimal(i)
    case JArr(_) => Repr(v)
    case JObj(_) => Repr(v)
    case _ => ScalarText(v)
  }

  /** Only the empty string becomes empty text under `str()`. */
  lemma StrEmptyOnlyForEmptyString(v: Json)
    ensures Str(v) == "" <==> v == JStr("")
  {
    match v
    case JInt(i) =>
      if i < 0 { assert Str(v)[0] == '-'; } else { assert |NatToDecimal(i)| > 0; }
    case JArr(_) => assert Str(v)[0] == '[';
    case JObj(_) => assert Str(v)[0] == '{';
    case _ =>
  }
}

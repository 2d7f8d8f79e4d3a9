/**
  Decoded JSON values as the poller sees them after `response.json()`, with the
  three pieces of Python behaviour the validation logic leans on: truthiness
  (`if not x`), dictionary lookup (`d.get(k)`, `k in d`) and the text `str(x)`
  that an f-string inserts.
*/
module Json {
  import opened Wrappers

  /** A decoded JSON value. Objects keep their members in document order. */
  datatype Json =
    | Null
    | Bool(b: bool)
    | Int(i: int)
    | Str(s: string)
    | Arr(items: seq<Json>)
    | Obj(fields: seq<Member>)

  /** One `"key": value` member of a JSON object. */
  datatype Member = Member(key: string, value: Json)

  /** Python truthiness: `None`, `False`, `0`, `""`, `[]` and `{}` are falsy, everything else truthy. */
  predicate Truthy(j: Json): (t: bool)
    ensures !t <==> j == Null || j == Bool(false) || j == Int(0) || j == Str("") || j == Arr([]) || j == Obj([])
  {
    match j
    case Null => false
    case Bool(b) => b
    case Int(i) => i != 0
    case Str(s) => s != ""
    case Arr(items) => items != []
    case Obj(fields) => fields != []
  }

  /** `key in d` for a dictionary with the given members. */
  predicate HasKey(fields: seq<Member>, key: string) {
    exists k :: 0 <= k < |fields| && fields[k].key == key
  }

  /** `key in d` is membership in the set of the dictionary's keys. */
  lemma HasKeyIsKeyMembership(fields: seq<Member>, key: string)
    ensures HasKey(fields, key) <==> key in (set m | m in fields :: m.key)
  {
    if key in (set m | m in fields :: m.key) {
      var m :| m in fields && m.key == key;
      var k :| 0 <= k < |fields| && fields[k] == m;
    }
  }

  /**
    The value stored under `key`. When a document repeats a key, the decoder
    keeps the last occurrence, so the search runs from the end.
  */
  function Lookup(fields: seq<Member>, key: string): (r: Option<Json>)
    ensures r.Some? <==> HasKey(fields, key)
  {
    if fields == [] then None
    else
      var last := fields[|fields| - 1];
      if last.key == key then Some(last.value)
      else
        var r := Lookup(fields[..|fields| - 1], key);
        assert HasKey(fields, key) ==> HasKey(fields[..|fields| - 1], key) by {
          if HasKey(fields, key) {
            var k :| 0 <= k < |fields| && fields[k].key == key;
            assert fields[..|fields| - 1][k].key == key;
          }
        }
        r
  }

  /** A value found under `key` is that of the last member carrying `key`. */
  lemma {:induction false} LookupFindsLast(fields: seq<Member>, key: string)
    requires HasKey(fields, key)
    ensures exists k {:trigger LastWithKey(fields, key, k)} :: 0 <= k < |fields| && LastWithKey(fields, key, k)
                        && Lookup(fields, key) == Some(fields[k].value)
  {
    var n := |fields|;
    if fields[n - 1].key == key {
      assert LastWithKey(fields, key, n - 1);
    } else {
      var init := fields[..n - 1];
      var k0 :| 0 <= k0 < n && fields[k0].key == key;
      assert init[k0].key == key;
      LookupFindsLast(init, key);
      var k :| 0 <= k < n - 1 && LastWithKey(init, key, k) && Lookup(init, key) == Some(init[k].value);
      assert fields[k] == init[k];
      assert LastWithKey(fields, key, k);
    }
  }

  /** Member `k` carries `key` and no later member does. */
  predicate LastWithKey(fields: seq<Member>, key: string, k: int)
    requires 0 <= k < |fields|
  {
    fields[k].key == key && forall k' :: k < k' < |fields| ==> fields[k'].key != key
  }

  /** `d.get(key)`: the stored value, or `None` when the key is absent. */
  function Get(fields: seq<Member>, key: string): (r: Json)
    ensures !HasKey(fields, key) ==> r == Null
    ensures HasKey(fields, key) ==> Lookup(fields, key) == Some(r)
  {
    Lookup(fields, key).GetOr(Null)
  }

  /** Python's name for the type of a decoded value, as it appears in exception messages. */
  function TypeName(j: Json): (r: string)
    ensures r == "list" <==> j.Arr?
    ensures r == "dict" <==> j.Obj?
  {
    match j
    case Null => "NoneType"
    case Bool(_) => "bool"
    case Int(_) => "int"
    case Str(_) => "str"
    case Arr(_) => "list"
    case Obj(_) => "dict"
  }

  /** `str(x)`, which is what `f'{x}'` inserts: a string as it is, anything else as its `repr`. */
  function Text(j: Json): (r: string)
    ensures j.Str? ==> r == j.s
    ensures !j.Str? ==> r == Repr(j) && r != ""
  {
    if j.Str? then j.s else Repr(j)
  }

  /** `repr(x)` for a decoded value. */
  function Repr(j: Json): (r: string)
    ensures |r| >= 2 || (j.Int? && 0 <= j.i < 10)
    ensures r != []
    ensures j.Str? ==> r[0] == r[|r| - 1] && (r[0] == '\'' || r[0] == '"')
    ensures j.Arr? ==> r[0] == '[' && r[|r| - 1] == ']'
    ensures j.Obj? ==> r[0] == '{' && r[|r| - 1] == '}'
    ensures j.Int? ==> (r[0] == '-' <==> j.i < 0)
    decreases j
  {
    match j
    case Null => "None"
    case Bool(b) => if b then "True" else "False"
    case Int(i) => Decimal(i)
    case Str(s) => Quoted(s)
    case Arr(items) =>
      "[" + Join(seq(|items|, k requires 0 <= k < |items| => Repr(items[k]))) + "]"
    case Obj(fields) =>
      "{" + Join(seq(|fields|, k requires 0 <= k < |fields| =>
                       Quoted(fields[k].key) + ": " + Repr(fields[k].value))) + "}"
  }

  /** The parts separated by `", "`, as list and dict reprs print them. */
  function Join(parts: seq<string>): string {
    if parts == [] then ""
    else if |parts| == 1 then parts[0]
    else parts[0] + ", " + Join(parts[1..])
  }

  /** `repr(s)`: single quotes unless `s` holds a single quote and no double quote. */
  function Quoted(s: string): (r: string)
    ensures |r| >= 2 && r[0] == r[|r| - 1]
    ensures r[0] == '"' <==> '\'' in s && '"' !in s
    ensures r[0] == '"' || r[0] == '\''
  {
    var q := if '\'' in s && '"' !in s then '"' else '\'';
    [q] + Escaped(s, q) + [q]
  }

  /** The characters of `s` with the quote, the backslash and control characters escaped. */
  function Escaped(s: string, q: char): string {
    if s == [] then ""
    else EscapedChar(s[0], q) + Escaped(s[1..], q)
  }

  function EscapedChar(c: char, q: char): string {
    if c == q || c == '\\' then ['\\', c]
    else if c == '\t' then "\\t"
    else if c == '\n' then "\\n"
    else if c == '\r' then "\\r"
    else if (c as int) < 0x20 || c as int == 0x7F then
      "\\x" + [HexDigit(c as int / 16), HexDigit(c as int % 16)]
    else [c]
  }

  function HexDigit(n: int): char
    requires 0 <= n < 16
  {
    "0123456789abcdef"[n]
  }

  /** The decimal text of an integer, with a leading `-` when it is negative. */
  function Decimal(i: int): (r: string)
    ensures r != [] && (r[0] == '-' <==> i < 0)
    ensures |r| >= 2 || 0 <= i < 10
    ensures forall k :: (if i < 0 then 1 else 0) <= k < |r| ==> '0' <= r[k] <= '9'
    ensures DigitsValue(if i < 0 then r[1..] else r) == if i < 0 then -i else i
  {
    if i < 0 then
      var r := "-" + Digits(-i);
      assert r[1..] == Digits(-i);
      r
    else Digits(i)
  }

  /** The digits of a natural number, most significant first, without leading zeros. */
  function Digits(n: nat): (r: string)
    ensures |r| >= 1 && (|r| == 1 <==> n < 10)
    ensures forall k :: 0 <= k < |r| ==> '0' <= r[k] <= '9'
    ensures DigitsValue(r) == n
    ensures |r| > 1 ==> r[0] != '0'
    decreases n
  {
    if n < 10 then ["0123456789"[n]]
    else
      var init := Digits(n / 10);
      var r := init + ["0123456789"[n % 10]];
      assert r[..|r| - 1] == init;
      r
  }

  /** The number a string of decimal digits spells, most significant first. */
  function DigitsValue(s: string): nat
    requires forall k :: 0 <= k < |s| ==> '0' <= s[k] <= '9'
  {
    if s == [] then 0
    else DigitsValue(s[..|s| - 1]) * 10 + (s[|s| - 1] as int - '0' as int)
  }
}

/** Shared vocabulary of the model: Python's None as `Option`, an exception
    outcome as `Result`, JSON-like document values, and the handful of Python
    string operations the system relies on (split, join, strip, startswith,
    int(), str() of a non-negative int). */
module Common {

  datatype Option<T> = None | Some(value: T)

  /** Either a value, or the Python exception (its class name and message) that ended the call. */
  datatype Result<T> = Ok(value: T) | Raised(exception: string, message: string)

  /** A value stored in a MongoDB document or decoded from JSON. `JOid` is a
      MongoDB ObjectId, identified here by its serial number. */
  datatype Json =
    | JNull
    | JBool(b: bool)
    | JInt(i: int)
    | JReal(r: real)
    | JStr(s: string)
    | JList(items: seq<Json>)
    | JObj(fields: map<string, Json>)
    | JOid(oid: nat)

  /** A MongoDB document / Python dict with string keys. */
  type Doc = map<string, Json>

  /** `d.get(key, None)` */
  function Get(d: Doc, key: string): (r: Json)
    ensures key !in d ==> r == JNull
    ensures key in d ==> r == d[key]
  {
    if key in d then d[key] else JNull
  }

  /** `d[key]`: a KeyError naming the key when it is absent. */
  function Lookup(d: Doc, key: string): (r: Result<Json>)
    ensures r.Ok? <==> key in d
    ensures key in d ==> r.value == d[key]
    ensures key !in d ==> r == Raised("KeyError", key)
  {
    if key in d then Ok(d[key]) else Raised("KeyError", key)
  }

  /** `j[key]` on a decoded value: a dict is looked up, anything else is not
      subscriptable by a string (TypeError). */
  function Subscript(j: Json, key: string): (r: Result<Json>)
    ensures j.JObj? ==> r == Lookup(j.fields, key)
    ensures !j.JObj? ==> r.Raised? && r.exception == "TypeError"
  {
    if j.JObj? then Lookup(j.fields, key) else Raised("TypeError", "")
  }

  /** `[x[key] for x in items]` over the elements of a list. */
  function SubscriptItems(items: seq<Json>, key: string): (r: Result<seq<Json>>)
    ensures r.Ok? ==> |r.value| == |items| && forall k :: 0 <= k < |items| ==> Subscript(items[k], key) == Ok(r.value[k])
    ensures (forall k :: 0 <= k < |items| ==> Subscript(items[k], key).Ok?) ==> r.Ok?
  {
    if |items| == 0 then Ok([])
    else match Subscript(items[0], key)
      case Raised(e, m) => Raised(e, m)
      case Ok(v) =>
        match SubscriptItems(items[1..], key)
        case Raised(e, m) => Raised(e, m)
        case Ok(rest) =>
          assert forall k :: 1 <= k < |items| ==> items[k] == items[1..][k - 1];
          Ok([v] + rest)
  }

  /** `[x[key] for x in coll]` for any decoded value: a list yields its
      elements; an empty dict or string yields nothing, while a non-empty one
      yields strings, which cannot be subscripted with a string; anything
      else is not iterable. */
  function SubscriptEach(coll: Json, key: string): (r: Result<seq<Json>>)
    ensures coll.JList? ==> r == SubscriptItems(coll.items, key)
    ensures !coll.JList? && r.Ok? ==> r.value == []
  {
    match coll
    case JList(items) => SubscriptItems(items, key)
    case JStr(s) => if |s| == 0 then Ok([]) else Raised("TypeError", "")
    case JObj(f) => if |f| == 0 then Ok([]) else Raised("TypeError", "")
    case _ => Raised("TypeError", "")
  }

  /** `[user["id"] for user in users]`. */
  function IdsOf(users: seq<Doc>): (r: Result<seq<Json>>)
    ensures r.Ok? <==> forall k :: 0 <= k < |users| ==> "id" in users[k]
    ensures r.Ok? ==> |r.value| == |users| && forall k :: 0 <= k < |users| ==> r.value[k] == users[k]["id"]
    ensures r.Raised? ==> r == Raised("KeyError", "id")
  {
    if |users| == 0 then Ok([])
    else match IdsOf(users[..|users| - 1])
      case Raised(e, m) => Raised(e, m)
      case Ok(ids) =>
        match Lookup(users[|users| - 1], "id")
        case Raised(e, m) => Raised(e, m)
        case Ok(id) => Ok(ids + [id])
  }

  /** A value Python can put into a set (lists and dicts cannot). */
  predicate Hashable(j: Json)
  {
    !j.JList? && !j.JObj?
  }

  /** `set(items)` for a list of decoded values. */
  function SetOf(items: seq<Json>): (r: Result<set<Json>>)
    ensures r.Ok? <==> forall k :: 0 <= k < |items| ==> Hashable(items[k])
    ensures r.Ok? ==> forall x :: x in r.value <==> x in items
    ensures r.Raised? ==> r == Raised("TypeError", "unhashable type")
  {
    if forall k :: 0 <= k < |items| ==> Hashable(items[k]) then Ok(set k | 0 <= k < |items| :: items[k])
    else Raised("TypeError", "unhashable type")
  }

  /** A list has at most as many distinct elements as it has elements. */
  lemma {:induction false} SetOfSize(items: seq<Json>)
    requires SetOf(items).Ok?
    ensures |SetOf(items).value| <= |items|
  {
    if |items| > 0 {
      var init := items[..|items| - 1];
      assert SetOf(init).Ok?;
      SetOfSize(init);
      assert SetOf(items).value == SetOf(init).value + {items[|items| - 1]};
    }
  }

  // ---------------------------------------------------------------- strings

  predicate StartsWith(s: string, prefix: string)
  {
    |prefix| <= |s| && s[..|prefix|] == prefix
  }

  /** Python `str.split(sep)` for a one-character separator. */
  function Split(s: string, sep: char): (parts: seq<string>)
    ensures |parts| >= 1
    decreases |s|
  {
    if |s| == 0 then [""]
    else
      var rest := Split(s[1..], sep);
      if s[0] == sep then [""] + rest
      else [[s[0]] + rest[0]] + rest[1..]
  }

  /** Python `sep.join(parts)`. */
  function Join(parts: seq<string>, sep: string): string
  {
    if |parts| == 0 then ""
    else if |parts| == 1 then parts[0]
    else parts[0] + sep + Join(parts[1..], sep)
  }

  lemma {:induction false} SplitPartsAvoidSeparator(s: string, sep: char)
    ensures forall i :: 0 <= i < |Split(s, sep)| ==> sep !in Split(s, sep)[i]
    decreases |s|
  {
    if |s| > 0 {
      SplitPartsAvoidSeparator(s[1..], sep);
    }
  }

  /** Joining the parts of a split with the separator gives back the string. */
  lemma {:induction false} JoinSplit(s: string, sep: char)
    ensures Join(Split(s, sep), [sep]) == s
    decreases |s|
  {
    if |s| > 0 {
      var rest := Split(s[1..], sep);
      JoinSplit(s[1..], sep);
      if s[0] == sep {
        assert Split(s, sep) == [""] + rest;
        assert Join([""] + rest, [sep]) == "" + [sep] + Join(rest, [sep]);
      } else {
        var parts := Split(s, sep);
        assert parts == [[s[0]] + rest[0]] + rest[1..];
        if |rest| == 1 {
          assert Join(parts, [sep]) == [s[0]] + rest[0];
        } else {
          assert Join(parts, [sep]) == [s[0]] + rest[0] + [sep] + Join(rest[1..], [sep]);
        }
      }
    }
  }

  /** Splitting a join of separator-free parts gives back the parts. */
  lemma {:induction false} SplitJoin(parts: seq<string>, sep: char)
    requires |parts| >= 1
    requires forall i :: 0 <= i < |parts| ==> sep !in parts[i]
    ensures Split(Join(parts, [sep]), sep) == parts
  {
    if |parts| == 1 {
      SplitWithoutSeparator(parts[0], sep);
    } else {
      var s := Join(parts, [sep]);
      var rest := Join(parts[1..], [sep]);
      assert s == parts[0] + [sep] + rest;
      assert s[..|parts[0]|] == parts[0];
      assert s[|parts[0]| + 1..] == rest;
      SplitFirstPart(s, sep, |parts[0]|);
      SplitJoin(parts[1..], sep);
      assert Split(s, sep) == [Split(s, sep)[0]] + Split(s, sep)[1..];
    }
  }

  /** Split of a string without the separator is the string itself. */
  lemma {:induction false} SplitWithoutSeparator(s: string, sep: char)
    requires sep !in s
    ensures Split(s, sep) == [s]
    decreases |s|
  {
    if |s| > 0 {
      assert s == [s[0]] + s[1..];
      SplitWithoutSeparator(s[1..], sep);
    }
  }

  /** The first part of a split is the longest prefix free of the separator. */
  lemma {:induction false} SplitFirstPart(s: string, sep: char, i: nat)
    requires i < |s| && s[i] == sep && sep !in s[..i]
    ensures Split(s, sep)[0] == s[..i]
    ensures |Split(s, sep)| >= 2
    ensures Split(s, sep)[1..] == Split(s[i + 1..], sep)
    decreases i
  {
    if i > 0 {
      assert s[..i] == [s[0]] + s[1..][..i - 1];
      SplitFirstPart(s[1..], sep, i - 1);
      assert s[1..][i..] == s[i + 1..];
    }
  }

  /** Python's `str.isspace()` for one character (the Unicode White_Space
      characters plus the ASCII separators 0x1c-0x1f). */
  predicate IsSpace(c: char)
  {
    c == ' ' || ('\t' <= c <= '\r') || ('\U{1c}' <= c <= '\U{1f}') || c == '\U{85}' || c == '\U{a0}'
    || c == '\U{1680}' || ('\U{2000}' <= c <= '\U{200a}') || c == '\U{2028}' || c == '\U{2029}'
    || c == '\U{202f}' || c == '\U{205f}' || c == '\U{3000}'
  }

  function LStrip(s: string): string
  {
    if |s| > 0 && IsSpace(s[0]) then LStrip(s[1..]) else s
  }

  function RStrip(s: string): string
  {
    if |s| > 0 && IsSpace(s[|s| - 1]) then RStrip(s[..|s| - 1]) else s
  }

  /** `lstrip` drops exactly the leading whitespace. */
  lemma {:induction false} LStripSpec(s: string)
    ensures var r := LStrip(s);
            && |r| <= |s| && r == s[|s| - |r|..]
            && (r == [] || !IsSpace(r[0]))
            && forall k :: 0 <= k < |s| - |r| ==> IsSpace(s[k])
  {
    if |s| > 0 && IsSpace(s[0]) {
      LStripSpec(s[1..]);
      var r := LStrip(s[1..]);
      assert forall k :: 1 <= k < |s| - |r| ==> s[k] == s[1..][k - 1];
    }
  }

  /** `rstrip` drops exactly the trailing whitespace. */
  lemma {:induction false} RStripSpec(s: string)
    ensures var r := RStrip(s);
            && |r| <= |s| && r == s[..|r|]
            && (r == [] || !IsSpace(r[|r| - 1]))
            && forall k :: |r| <= k < |s| ==> IsSpace(s[k])
  {
    if |s| > 0 && IsSpace(s[|s| - 1]) {
      RStripSpec(s[..|s| - 1]);
    }
  }

  /** Python `str.strip()`: the string without leading and trailing whitespace. */
  function Strip(s: string): (r: string)
  {
    RStrip(LStrip(s))
  }

  /** A string that neither starts nor ends with whitespace is its own strip. */
  lemma StripUntrimmed(t: string)
    requires |t| > 0 && !IsSpace(t[0]) && !IsSpace(t[|t| - 1])
    ensures Strip(t) == t
  {
    assert LStrip(t) == t;
  }

  // ---------------------------------------------------------------- numbers

  predicate IsDigit(c: char)
  {
    '0' <= c <= '9'
  }

  function DigitValue(c: char): (d: nat)
    requires IsDigit(c)
    ensures d < 10
  {
    (c as int - '0' as int) as nat
  }

  function DigitChar(d: nat): (c: char)
    requires d < 10
    ensures IsDigit(c) && DigitValue(c) == d
  {
    ('0' as int + d) as char
  }


  /** Python `str(n)` for a non-negative integer. */
  function Decimal(n: nat): (s: string)
    ensures |s| >= 1
    ensures forall i :: 0 <= i < |s| ==> IsDigit(s[i])
  {
    if n < 10 then [DigitChar(n)] else Decimal(n / 10) + [DigitChar(n % 10)]
  }

  /** Python `str(n)` for any integer. */
  function IntString(n: int): string
  {
    if n < 0 then "-" + Decimal(-n) else Decimal(n)
  }

  /** Value of a non-empty run of decimal digits. */
  function DigitsValue(s: string): nat
    requires forall i :: 0 <= i < |s| ==> IsDigit(s[i])
  {
    if |s| == 0 then 0 else 10 * DigitsValue(s[..|s| - 1]) + DigitValue(s[|s| - 1])
  }

  predicate AllDigits(s: string)
  {
    forall i :: 0 <= i < |s| ==> IsDigit(s[i])
  }

  /** Python `int(s)` on a string: optional surrounding whitespace, an optional
      sign, then ASCII digits; anything else raises ValueError (None here). */
  function ParseInt(s: string): (r: Option<int>)
  {
    var t := Strip(s);
    if |t| > 0 && (t[0] == '-' || t[0] == '+') then
      (if |t| > 1 && AllDigits(t[1..])
       then Some(if t[0] == '-' then -(DigitsValue(t[1..]) as int) else DigitsValue(t[1..]))
       else None)
    else if |t| > 0 && AllDigits(t) then Some(DigitsValue(t))
    else None
  }

  lemma {:induction false} DigitsValueDecimal(n: nat)
    ensures DigitsValue(Decimal(n)) == n
  {
    if n >= 10 {
      DigitsValueDecimal(n / 10);
      var s := Decimal(n);
      assert s[..|s| - 1] == Decimal(n / 10);
    }
  }

  /** `int(str(n)) == n`. */
  lemma ParseIntString(n: int)
    ensures ParseInt(IntString(n)) == Some(n)
  {
    var t := IntString(n);
    var d := Decimal(if n < 0 then -n else n);
    assert IsDigit(d[0]) && IsDigit(d[|d| - 1]);
    assert t[|t| - 1] == d[|d| - 1];
    StripUntrimmed(t);
    DigitsValueDecimal(if n < 0 then -n else n);
    if n < 0 {
      assert t[1..] == d;
    }
  }

  /** Two-digit zero padding used by strftime's %m, %d, %H, %M. */
  function Pad2(n: nat): (s: string)
    requires n < 100
    ensures |s| == 2 && AllDigits(s)
  {
    [DigitChar(n / 10), DigitChar(n % 10)]
  }

  lemma Pad2RoundTrip(n: nat)
    requires n < 100
    ensures DigitsValue(Pad2(n)) == n
  {
    var s := Pad2(n);
    assert s[..1] == [DigitChar(n / 10)];
    assert s[..1][..0] == [];
    assert DigitsValue(s[..1]) == n / 10;
  }

  /** Overwriting a key twice leaves only the second value. */
  lemma MapUpdateTwice<K, V>(m: map<K, V>, k: K, a: V, b: V)
    ensures m[k := a][k := b] == m[k := b]
  {
  }

  /** Writing back a key's own value changes nothing. */
  lemma MapUpdateSame<K, V>(m: map<K, V>, k: K)
    requires k in m
    ensures m[k := m[k]] == m
  {
  }

  /** `a / b` for `0 <= a <= b` and a positive `b`. */
  function Ratio(a: real, b: real): (q: real)
    requires 0.0 <= a <= b && b > 0.0
    ensures 0.0 <= q <= 1.0 && q * b == a
  {
    var q := a / b;
    assert q * b == a;
    RatioInUnit(a, b, q);
    q
  }

  lemma RatioInUnit(a: real, b: real, q: real)
    requires 0.0 <= a <= b && b > 0.0 && q * b == a
    ensures 0.0 <= q <= 1.0
  {
    if q > 1.0 {
      MulStrict(1.0, q, b);
    }
    if q < 0.0 {
      MulStrict(q, 0.0, b);
    }
  }

  lemma MulStrict(x: real, y: real, z: real)
    requires x < y && z > 0.0
    ensures x * z < y * z
  {
    assert (y - x) * z > 0.0;
  }

  // ------------------------------------------------------------- str()

  function HexDigit(d: nat): char
    requires d < 16
  {
    "0123456789abcdef"[d]
  }

  function HexDigitValue(c: char): nat
  {
    if '0' <= c <= '9' then (c - '0') as nat
    else if 'a' <= c <= 'f' then (c - 'a') as nat + 10
    else 0
  }

  function Pow16(w: nat): nat
  {
    if w == 0 then 1 else 16 * Pow16(w - 1)
  }

  /** The last `w` hexadecimal digits of `n`, most significant first. */
  function Hex(n: nat, w: nat): (s: string)
    ensures |s| == w
  {
    if w == 0 then "" else Hex(n / 16, w - 1) + [HexDigit(n % 16)]
  }

  function HexValue(s: string): nat
  {
    if |s| == 0 then 0 else 16 * HexValue(s[..|s| - 1]) + HexDigitValue(s[|s| - 1])
  }

  /** Reading the digits back gives the number, when it fits. */
  lemma {:induction false} HexRoundTrip(n: nat, w: nat)
    requires n < Pow16(w)
    ensures HexValue(Hex(n, w)) == n
  {
    if w > 0 {
      HexRoundTrip(n / 16, w - 1);
      var s := Hex(n, w);
      assert s[..|s| - 1] == Hex(n / 16, w - 1);
      assert HexDigitValue(HexDigit(n % 16)) == n % 16;
    }
  }

  /** Python `str(x)` for a stored scalar. An ObjectId, known here by its
      serial number, prints as 24 lower-case hexadecimal digits. */
  function PyStr(x: Json): string
  {
    match x
    case JNull => "None"
    case JBool(b) => if b then "True" else "False"
    case JInt(i) => IntString(i)
    case JStr(s) => s
    case JOid(n) => Hex(n, 24)
    case _ => ""
  }

  /** Distinct ObjectIds print differently. */
  lemma ObjectIdStringsDistinct(a: nat, b: nat)
    requires a < Pow16(24) && b < Pow16(24) && a != b
    ensures PyStr(JOid(a)) != PyStr(JOid(b))
  {
    HexRoundTrip(a, 24);
    HexRoundTrip(b, 24);
  }
}

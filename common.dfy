/** Small building blocks shared by every service model: an optional value,
    ordering of keyed rows (the repositories' ORDER BY), and the few pieces of
    Java's standard library whose behaviour the services depend on
    (32-bit wrap-around, truncating division, Long.toString / Long.parseLong,
    String.split). */
module Common {

  /** A value that may be absent: Java's `null`. */
  datatype Option<T> = None | Some(value: T)

  // ---------------------------------------------------------------------------
  // Ordering rows by a key, ties broken by id
  // ---------------------------------------------------------------------------

  /** Row `a` comes no later than row `b` when ordered by `key` and then by id. */
  predicate Precedes(key: int -> int, a: int, b: int) {
    key(a) < key(b) || (key(a) == key(b) && a <= b)
  }

  predicate IsLeast(ids: set<int>, key: int -> int, m: int) {
    m in ids && forall y :: y in ids ==> Precedes(key, m, y)
  }

  lemma {:induction false} LeastExists(ids: set<int>, key: int -> int)
    requires ids != {}
    ensures exists m :: IsLeast(ids, key, m)
    decreases |ids|
  {
    if forall y :: y !in ids {
      assert false;
    }
    var x :| x in ids;
    if ids == {x} {
      assert IsLeast(ids, key, x);
    } else {
      var rest := ids - {x};
      LeastExists(rest, key);
      var m :| IsLeast(rest, key, m);
      if Precedes(key, x, m) {
        forall y | y in ids
          ensures Precedes(key, x, y)
        {
          if y != x { assert y in rest; }
        }
        assert IsLeast(ids, key, x);
      } else {
        assert IsLeast(ids, key, m);
      }
    }
  }

  /** Ties are broken by id, so there is one least id. */
  lemma {:induction false} LeastUnique(ids: set<int>, key: int -> int)
    ensures forall a, b :: IsLeast(ids, key, a) && IsLeast(ids, key, b) ==> a == b
  {
    forall a, b | IsLeast(ids, key, a) && IsLeast(ids, key, b)
      ensures a == b
    {
      assert Precedes(key, a, b) && Precedes(key, b, a);
    }
  }

  /** The least id followed by the others in order is the whole set in
      order. */
  lemma {:induction false} LeastThenRest(ids: set<int>, key: int -> int, m: int, rest: seq<int>)
    requires IsLeast(ids, key, m)
    requires |rest| == |ids - {m}| && forall x :: x in rest <==> x in ids - {m}
    requires forall i, j :: 0 <= i < j < |rest| ==> rest[i] != rest[j] && Precedes(key, rest[i], rest[j])
    ensures |[m] + rest| == |ids|
    ensures forall x :: x in [m] + rest <==> x in ids
    ensures forall i, j :: 0 <= i < j < |[m] + rest| ==> ([m] + rest)[i] != ([m] + rest)[j] && Precedes(key, ([m] + rest)[i], ([m] + rest)[j])
  {
    var r := [m] + rest;
    forall i, j | 0 <= i < j < |r|
      ensures r[i] != r[j] && Precedes(key, r[i], r[j])
    {
      assert r[j] == rest[j - 1];
      if i == 0 {
        assert rest[j - 1] in ids - {m};
      } else {
        assert r[i] == rest[i - 1];
      }
    }
  }

  /** The ids of `ids` in ascending (key, id) order: the order a query with
      `ORDER BY key ASC` returns its rows, ties broken by primary key. */
  function OrderBy(ids: set<int>, key: int -> int): (r: seq<int>)
    ensures |r| == |ids|
    ensures forall x :: x in r <==> x in ids
    ensures forall i, j :: 0 <= i < j < |r| ==> r[i] != r[j] && Precedes(key, r[i], r[j])
    decreases |ids|
  {
    if ids == {} then []
    else
      LeastExists(ids, key);
      LeastUnique(ids, key);
      var m :| IsLeast(ids, key, m);
      var rest := OrderBy(ids - {m}, key);
      LeastThenRest(ids, key, m, rest);
      [m] + rest
  }

  /** The rows of `m` stored under `ids`, in the order of `ids`. */
  function Pick<V>(m: map<int, V>, ids: seq<int>): (r: seq<V>)
    requires forall k :: 0 <= k < |ids| ==> ids[k] in m
    ensures |r| == |ids|
    ensures forall k :: 0 <= k < |ids| ==> r[k] == m[ids[k]]
  {
    if ids == [] then [] else [m[ids[0]]] + Pick(m, ids[1..])
  }

  /** Picking the selected ids in key order gives exactly the kept rows, in
      key order. */
  lemma {:induction false} PickSelected<V>(rows: map<int, V>, keep: V -> bool, key: V -> int, orderKey: int -> int, order: seq<int>)
    requires forall id :: id in rows ==> orderKey(id) == key(rows[id])
    requires forall x :: x in order <==> x in rows && keep(rows[x])
    requires forall i, j :: 0 <= i < j < |order| ==> Precedes(orderKey, order[i], order[j])
    ensures forall k :: 0 <= k < |order| ==> order[k] in rows
    ensures forall x :: x in Pick(rows, order) ==> x in rows.Values && keep(x)
    ensures forall id :: id in rows && keep(rows[id]) ==> rows[id] in Pick(rows, order)
    ensures forall i, j :: 0 <= i < j < |Pick(rows, order)| ==> key(Pick(rows, order)[i]) <= key(Pick(rows, order)[j])
  {
    forall k | 0 <= k < |order|
      ensures order[k] in rows
    {
      assert order[k] in order;
    }
    var r := Pick(rows, order);
    forall x | x in r
      ensures x in rows.Values && keep(x)
    {
      var k :| 0 <= k < |r| && r[k] == x;
      var id := order[k];
      assert id in order;
      assert id in rows && keep(rows[id]);
      assert x == rows[id];
    }
    forall id | id in rows && keep(rows[id])
      ensures rows[id] in r
    {
      var k :| 0 <= k < |order| && order[k] == id;
      assert r[k] == rows[id];
    }
    forall i, j | 0 <= i < j < |r|
      ensures key(r[i]) <= key(r[j])
    {
      assert Precedes(orderKey, order[i], order[j]);
    }
  }

  /** The rows of `rows` that satisfy `keep`, each once, in ascending `key`
      order: a repository query. A query without ORDER BY passes a constant
      key, and its contract then fixes no order. */
  function Select<V(==)>(rows: map<int, V>, keep: V -> bool, key: V -> int): (r: seq<V>)
    ensures forall x :: x in r ==> x in rows.Values && keep(x)
    ensures forall id :: id in rows && keep(rows[id]) ==> rows[id] in r
    ensures forall i, j :: 0 <= i < j < |r| ==> key(r[i]) <= key(r[j])
    ensures |r| == |set id | id in rows && keep(rows[id])|
  {
    var ids := set id | id in rows && keep(rows[id]);
    var orderKey := id => if id in rows then key(rows[id]) else 0;
    var order := OrderBy(ids, orderKey);
    PickSelected(rows, keep, key, orderKey, order);
    Pick(rows, order)
  }

  /** A query's rows are the rows of an enumeration of the matching ids that
      lists each of them once. */
  lemma {:induction false} SelectEnumerates<V>(rows: map<int, V>, keep: V -> bool, key: V -> int) returns (order: seq<int>)
    ensures forall k :: 0 <= k < |order| ==> order[k] in rows
    ensures forall i, j :: 0 <= i < j < |order| ==> order[i] != order[j]
    ensures forall id :: id in order <==> id in rows && keep(rows[id])
    ensures Select(rows, keep, key) == Pick(rows, order)
  {
    var ids := set id | id in rows && keep(rows[id]);
    var orderKey := id => if id in rows then key(rows[id]) else 0;
    order := OrderBy(ids, orderKey);
    PickSelected(rows, keep, key, orderKey, order);
  }

  /** A query lists one row per matching id: its length is the number of ids
      in `ids`, given as the ids whose rows satisfy `keep`. */
  lemma {:induction false} SelectCount<V>(rows: map<int, V>, keep: V -> bool, key: V -> int, ids: set<int>)
    requires forall id :: id in ids <==> id in rows && keep(rows[id])
    ensures |Select(rows, keep, key)| == |ids|
  {
    var matching := set id | id in rows && keep(rows[id]);
    assert forall id :: id in matching <==> id in ids;
    assert ids == matching;
  }

  /** `findAll`: every stored row once. */
  function FindAll<V(==)>(rows: map<int, V>): (r: seq<V>)
    ensures forall x :: x in r ==> x in rows.Values
    ensures forall id :: id in rows ==> rows[id] in r
    ensures |r| == |rows.Keys|
  {
    var keep, key := (x: V) => true, (x: V) => 0;
    SelectCount(rows, keep, key, rows.Keys);
    Select(rows, keep, key)
  }

  // ---------------------------------------------------------------------------
  // Java integer arithmetic
  // ---------------------------------------------------------------------------

  const LongMin: int := -0x8000_0000_0000_0000
  const LongMax: int := 0x7fff_ffff_ffff_ffff

  /** `n` fits in a Java `long`. */
  predicate IsLong(n: int) { LongMin <= n <= LongMax }

  /** Java's 32-bit `int` arithmetic: the two's-complement wrap of `x`. */
  function WrapInt32(x: int): (r: int)
    ensures -0x8000_0000 <= r < 0x8000_0000
    ensures -0x8000_0000 <= x < 0x8000_0000 ==> r == x
  {
    var u := x % 0x1_0000_0000;
    if u < 0x8000_0000 then u else u - 0x1_0000_0000
  }

  /** Java's `/` on integers, which rounds toward zero (Dafny's rounds down). */
  function TruncDiv(a: int, b: int): (q: int)
    requires b > 0
    ensures a >= 0 ==> q == a / b
    ensures a < 0 ==> q == -((-a) / b)
  {
    if a >= 0 then a / b else -((-a) / b)
  }

  // ---------------------------------------------------------------------------
  // Decimal text of integers: Long.toString and Long.parseLong
  // ---------------------------------------------------------------------------

  predicate IsDigit(c: char) { '0' <= c <= '9' }

  predicate AllDigits(s: string) { forall i :: 0 <= i < |s| ==> IsDigit(s[i]) }

  function DigitChar(d: int): (c: char)
    requires 0 <= d < 10
    ensures IsDigit(c) && c as int - '0' as int == d
  {
    (('0' as int) + d) as char
  }

  /** Decimal digits of `n`, without leading zeros. */
  function NatToString(n: nat): (s: string)
    ensures |s| > 0 && AllDigits(s)
    decreases n
  {
    if n < 10 then [DigitChar(n)] else NatToString(n / 10) + [DigitChar(n % 10)]
  }

  /** `Long.toString(n)`: an optional minus sign followed by the digits. */
  function IntToString(n: int): (s: string)
    ensures |s| > 0
    ensures forall i :: 0 <= i < |s| ==> IsDigit(s[i]) || s[i] == '-'
  {
    if n < 0 then "-" + NatToString(-n) else NatToString(n)
  }

  /** The value of a string of decimal digits (leading zeros allowed). */
  function DigitsValue(s: string): nat
    requires AllDigits(s)
  {
    if |s| == 0 then 0
    else DigitsValue(s[..|s| - 1]) * 10 + (s[|s| - 1] as int - '0' as int)
  }

  /** `Long.parseLong(s)`: None where Java throws NumberFormatException
      (empty text, a lone sign, a non-digit, or a value outside `long`). */
  function ParseLong(s: string): (r: Option<int>)
    ensures r.Some? ==> IsLong(r.value) && |s| > 0
  {
    if |s| == 0 then None
    else
      var signed := s[0] == '-' || s[0] == '+';
      var digits := if signed then s[1..] else s;
      if |digits| == 0 || !AllDigits(digits) then None
      else
        var v: int := if s[0] == '-' then -(DigitsValue(digits) as int) else DigitsValue(digits);
        if IsLong(v) then Some(v) else None
  }

  lemma {:induction false} DigitsValueOfNatToString(n: nat)
    ensures DigitsValue(NatToString(n)) == n
    decreases n
  {
    if n >= 10 {
      var prefix := NatToString(n / 10);
      var s := prefix + [DigitChar(n % 10)];
      assert s[..|s| - 1] == prefix;
      DigitsValueOfNatToString(n / 10);
    }
  }

  /** Parsing the text of a `long` gives it back. */
  lemma {:induction false} ParseLongOfIntToString(n: int)
    requires IsLong(n)
    ensures ParseLong(IntToString(n)) == Some(n)
  {
    var s := IntToString(n);
    if n < 0 {
      assert s[1..] == NatToString(-n);
      DigitsValueOfNatToString(-n);
    } else {
      DigitsValueOfNatToString(n);
    }
  }

  // ---------------------------------------------------------------------------
  // String.split with a one-character separator
  // ---------------------------------------------------------------------------

  /** All fields of `s` between occurrences of `sep`, empty fields included. */
  function SplitAll(s: string, sep: char): (r: seq<string>)
    ensures |r| >= 1
    decreases |s|
  {
    if |s| == 0 then [""]
    else if s[0] == sep then [""] + SplitAll(s[1..], sep)
    else
      var rest := SplitAll(s[1..], sep);
      [[s[0]] + rest[0]] + rest[1..]
  }

  function DropTrailingEmpty(parts: seq<string>): (r: seq<string>)
    ensures |r| <= |parts|
  {
    if |parts| == 0 then []
    else if parts[|parts| - 1] == "" then DropTrailingEmpty(parts[..|parts| - 1])
    else parts
  }

  /** Java's `s.split(String.valueOf(sep))`: with no occurrence the whole text is
      the only part; otherwise the fields, with trailing empty fields removed. */
  function JavaSplit(s: string, sep: char): seq<string> {
    if sep !in s then [s] else DropTrailingEmpty(SplitAll(s, sep))
  }

  lemma {:induction false} SplitAllWithoutSeparator(a: string, sep: char)
    requires sep !in a
    ensures SplitAll(a, sep) == [a]
    decreases |a|
  {
    if |a| > 0 {
      assert sep !in a[1..];
      SplitAllWithoutSeparator(a[1..], sep);
      assert [a[0]] + a[1..] == a;
    }
  }

  lemma {:induction false} SplitAllAfterField(a: string, sep: char, b: string)
    requires sep !in a
    ensures SplitAll(a + [sep] + b, sep) == [a] + SplitAll(b, sep)
    decreases |a|
  {
    var s := a + [sep] + b;
    if |a| == 0 {
      assert s[1..] == b;
    } else {
      assert s[1..] == a[1..] + [sep] + b;
      assert sep !in a[1..];
      SplitAllAfterField(a[1..], sep, b);
      assert [a[0]] + a[1..] == a;
    }
  }

  /** Four separator-free fields, the last non-empty, split back into exactly
      those four fields. */
  lemma {:induction false} SplitFourFields(a: string, b: string, c: string, d: string, sep: char)
    requires sep !in a && sep !in b && sep !in c && sep !in d && |d| > 0
    ensures JavaSplit(a + [sep] + b + [sep] + c + [sep] + d, sep) == [a, b, c, d]
  {
    var s := a + [sep] + b + [sep] + c + [sep] + d;
    assert s == a + [sep] + (b + [sep] + c + [sep] + d);
    assert b + [sep] + c + [sep] + d == b + [sep] + (c + [sep] + d);
    assert s[|a|] == sep;
    SplitAllWithoutSeparator(d, sep);
    SplitAllAfterField(c, sep, d);
    SplitAllAfterField(b, sep, c + [sep] + d);
    SplitAllAfterField(a, sep, b + [sep] + c + [sep] + d);
    assert SplitAll(s, sep) == [a, b, c, d];
  }
}

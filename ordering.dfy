/**
  The `ORDER BY event.date, event.slot` of the queries: day number first, then the slot
  string compared code point by code point (SQLite's BINARY collation on UTF-8 text),
  so that "evening" sorts before "morning". Ties keep the table order.
*/
module Ordering {

  datatype Key = Key(day: int, slot: string)

  /** Lexicographic order of strings by code point. */
  predicate StrLeq(a: string, b: string)
    decreases |a|
  {
    |a| == 0 || (|b| > 0 && (a[0] < b[0] || (a[0] == b[0] && StrLeq(a[1..], b[1..]))))
  }

  lemma {:induction false} StrLeqTotal(a: string, b: string)
    ensures StrLeq(a, b) || StrLeq(b, a)
    decreases |a|
  {
    if |a| > 0 && |b| > 0 && a[0] == b[0] {
      StrLeqTotal(a[1..], b[1..]);
    }
  }

  predicate KeyLeq(x: Key, y: Key) {
    x.day < y.day || (x.day == y.day && StrLeq(x.slot, y.slot))
  }

  lemma KeyLeqTotal(x: Key, y: Key)
    ensures KeyLeq(x, y) || KeyLeq(y, x)
  {
    StrLeqTotal(x.slot, y.slot);
  }

  /** Within one day the evening event is listed before the morning event. */
  lemma EveningBeforeMorning(day: int)
    ensures KeyLeq(Key(day, "evening"), Key(day, "morning"))
    ensures !KeyLeq(Key(day, "morning"), Key(day, "evening"))
  {
    assert "evening"[0] < "morning"[0];
  }

  predicate SortedBy<T>(s: seq<T>, key: T -> Key) {
    forall i :: 0 <= i < |s| - 1 ==> KeyLeq(key(s[i]), key(s[i + 1]))
  }

  /** Puts `x` in front of the first element whose key is not below its own. */
  function Insert<T>(x: T, s: seq<T>, key: T -> Key): (r: seq<T>)
    requires SortedBy(s, key)
    ensures SortedBy(r, key) && multiset(r) == multiset(s) + multiset{x}
    ensures |r| == |s| + 1 && (r[0] == x || (|s| > 0 && r[0] == s[0]))
  {
    if s == [] then [x]
    else if KeyLeq(key(x), key(s[0])) then [x] + s
    else
      KeyLeqTotal(key(x), key(s[0]));
      var rest := Insert(x, s[1..], key);
      assert s == [s[0]] + s[1..];
      [s[0]] + rest
  }

  /** A stable insertion sort: the rows in key order, the same rows as before. */
  function SortBy<T>(s: seq<T>, key: T -> Key): (r: seq<T>)
    ensures SortedBy(r, key) && multiset(r) == multiset(s) && |r| == |s|
  {
    if s == [] then []
    else
      assert s == [s[0]] + s[1..];
      Insert(s[0], SortBy(s[1..], key), key)
  }

  /** Sorting keeps exactly the elements it was given. */
  lemma SortByMembers<T>(s: seq<T>, key: T -> Key, x: T)
    ensures x in SortBy(s, key) <==> x in s
  {
    var r := SortBy(s, key);
    assert x in r <==> x in multiset(r);
    assert x in s <==> x in multiset(s);
  }
}

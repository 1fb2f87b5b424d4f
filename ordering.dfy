/** The orderings the stores' queries ask SQLite for (`ORDER BY ...`), and how the
    engine produces rows: it takes the next row in an order of its own choosing, and
    sorted insertion puts the rows in the order the query asks for. */
module Ordering {

  /** SQLite's default BINARY collation on text: the UTF-8 encodings are compared
      byte by byte, which for well-formed text is the lexicographic order of the code
      points; a proper prefix comes first. */
  predicate StrLe(a: string, b: string)
    decreases |a|
  {
    if |a| == 0 then true
    else if |b| == 0 then false
    else if a[0] != b[0] then a[0] < b[0]
    else StrLe(a[1..], b[1..])
  }

  lemma {:induction false} StrLeTotal(a: string, b: string)
    ensures StrLe(a, b) || StrLe(b, a)
    decreases |a|
  {
    if |a| != 0 && |b| != 0 && a[0] == b[0] {
      StrLeTotal(a[1..], b[1..]);
    }
  }

  lemma {:induction false} StrLeTransitive(a: string, b: string, c: string)
    requires StrLe(a, b) && StrLe(b, c)
    ensures StrLe(a, c)
    decreases |a|
  {
    if |a| != 0 && |b| != 0 && |c| != 0 && a[0] == b[0] && b[0] == c[0] {
      StrLeTransitive(a[1..], b[1..], c[1..]);
    }
  }

  /** An `ORDER BY` term list of an integer term followed by a text term, both
      ascending. A descending integer term (`date DESC`) is stored negated. */
  datatype OrderKey = OrderKey(major: int, minor: string)

  predicate KeyLe(x: OrderKey, y: OrderKey)
  {
    x.major < y.major || (x.major == y.major && StrLe(x.minor, y.minor))
  }

  lemma KeyLeTotal(x: OrderKey, y: OrderKey)
    ensures KeyLe(x, y) || KeyLe(y, x)
  {
    StrLeTotal(x.minor, y.minor);
  }

  lemma KeyLeTransitive(x: OrderKey, y: OrderKey, z: OrderKey)
    requires KeyLe(x, y) && KeyLe(y, z)
    ensures KeyLe(x, z)
  {
    if x.major == y.major == z.major {
      StrLeTransitive(x.minor, y.minor, z.minor);
    }
  }

  /** `s` is in the order that `key` gives. */
  ghost predicate SortedBy<T>(s: seq<T>, key: T -> OrderKey)
  {
    forall i, j :: 0 <= i < j < |s| ==> KeyLe(key(s[i]), key(s[j]))
  }

  /** Inserts `x` into the sorted `s` after every element that does not come after it. */
  method InsertSorted<T>(s: seq<T>, x: T, key: T -> OrderKey) returns (r: seq<T>)
    requires SortedBy(s, key)
    ensures SortedBy(r, key)
    ensures multiset(r) == multiset(s) + multiset{x}
    ensures |r| == |s| + 1
  {
    var k := 0;
    while k < |s| && KeyLe(key(s[k]), key(x))
      invariant 0 <= k <= |s|
      invariant forall i :: 0 <= i < k ==> KeyLe(key(s[i]), key(x))
    {
      k := k + 1;
    }
    if k < |s| {
      KeyLeTotal(key(s[k]), key(x));
    }
    r := s[..k] + [x] + s[k..];
    assert s == s[..k] + s[k..];
    forall i, j | 0 <= i < j < |r|
      ensures KeyLe(key(r[i]), key(r[j]))
    {
      if j < k || k < i {
        // both elements come from s, in their old order
      } else if i < k && j == k {
        assert r[j] == x;
      } else if i < k {
        assert r[i] == s[i] && r[j] == s[j - 1];
      } else {
        assert i == k && r[i] == x && r[j] == s[j - 1];
        if j - 1 > k {
          KeyLeTransitive(key(x), key(s[k]), key(s[j - 1]));
        }
      }
    }
  }

  /** The next row the engine produces: some element of a non-empty set, in an order
      this model leaves open. */
  method Pick<T>(s: set<T>) returns (x: T)
    requires s != {}
    ensures x in s
  {
    x :| x in s;
  }

}

/** Values shared by every table: optional values, results, the clock, and the
    JavaScript truthiness rules the business layer relies on (`x || null`,
    `x || "default"`, `x ?? default`, `if (x)`). */
module Common {

  /** `None` stands for an absent (undefined) value or a SQL NULL. */
  datatype Option<+T> = None | Some(value: T)

  /** The outcome of an operation that can throw one of the business errors. */
  datatype Result<+T, +E> = Success(value: T) | Failure(error: E)

  /** A reading of the store's clock (`db.fn.now()` and the timestamp column defaults). */
  type Timestamp = int

  /** A decimal column (latitude, longitude, quantidade): stored and returned, never computed on. */
  type Decimal = real

  /** A string that JavaScript treats as true: present and non-empty. */
  predicate TruthyString(o: Option<string>) { o.Some? && o.value != "" }

  /** A number that JavaScript treats as true: present and non-zero. */
  predicate TruthyInt(o: Option<int>) { o.Some? && o.value != 0 }

  /** A decimal that JavaScript treats as true: present and non-zero. */
  predicate TruthyDecimal(o: Option<Decimal>) { o.Some? && o.value != 0.0 }

  /** `x || null` on a string. */
  function StringOrNull(o: Option<string>): (r: Option<string>)
    ensures r.Some? <==> TruthyString(o)
    ensures r.Some? ==> r == o
  {
    if TruthyString(o) then o else None
  }

  /** `x || null` on a number. */
  function IntOrNull(o: Option<int>): (r: Option<int>)
    ensures r.Some? <==> TruthyInt(o)
    ensures r.Some? ==> r == o
  {
    if TruthyInt(o) then o else None
  }

  /** `x || null` on a decimal. */
  function DecimalOrNull(o: Option<Decimal>): (r: Option<Decimal>)
    ensures r.Some? <==> TruthyDecimal(o)
    ensures r.Some? ==> r == o
  {
    if TruthyDecimal(o) then o else None
  }

  /** `x || fallback` on a string. */
  function StringOr(o: Option<string>, fallback: string): (r: string)
    ensures TruthyString(o) ==> r == o.value
    ensures !TruthyString(o) ==> r == fallback
  {
    if TruthyString(o) then o.value else fallback
  }

  /** `x ?? fallback`: only an absent value is replaced. */
  function Coalesce<T>(o: Option<T>, fallback: T): (r: T)
    ensures o.Some? ==> r == o.value
    ensures o.None? ==> r == fallback
  {
    if o.Some? then o.value else fallback
  }
}

/** Sequence helpers for the query results: filtering (`WHERE`) and limiting (`LIMIT`). */
module Seqs {

  /** No element occurs twice. */
  ghost predicate Distinct<T>(s: seq<T>)
  {
    forall i, j :: 0 <= i < j < |s| ==> s[i] != s[j]
  }

  /** The elements of `s` that satisfy `keep`, in their original order. */
  function Filter<T(!new)>(s: seq<T>, keep: T -> bool): (r: seq<T>)
    ensures |r| <= |s|
    ensures forall x :: x in r <==> x in s && keep(x)
    ensures Distinct(s) ==> Distinct(r)
  {
    if s == [] then []
    else
      var rest := Filter(s[1..], keep);
      assert forall x :: x in s <==> x == s[0] || x in s[1..];
      if keep(s[0]) then [s[0]] + rest else rest
  }

  /** The first `n` elements of `s` (all of them when there are fewer). */
  function Take<T>(s: seq<T>, n: nat): (r: seq<T>)
    ensures |r| <= n && |r| <= |s|
    ensures forall x :: x in r ==> x in s
    ensures |r| < n ==> r == s
    ensures Distinct(s) ==> Distinct(r)
  {
    if |s| <= n then s else s[..n]
  }

  /** `order` lists every element of `keys` exactly once: the order in which the store
      happened to return a table's rows (for instance under `ORDER BY RANDOM()`). */
  ghost predicate Enumerates(order: seq<int>, keys: set<int>)
  {
    Distinct(order) && forall x :: x in order <==> x in keys
  }

  /** A duplicate-free sequence holds each value at most once. */
  lemma {:induction false} DistinctCountsAtMostOne<T>(s: seq<T>, x: T)
    requires Distinct(s)
    ensures multiset(s)[x] <= 1
  {
    if s != [] {
      assert s == [s[0]] + s[1..];
      assert Distinct(s[1..]) by {
        forall i, j | 0 <= i < j < |s[1..]| ensures s[1..][i] != s[1..][j] {
          assert s[1..][i] == s[i + 1] && s[1..][j] == s[j + 1];
        }
      }
      DistinctCountsAtMostOne(s[1..], x);
      if s[0] == x {
        assert x !in s[1..] by {
          forall i | 0 <= i < |s[1..]| ensures s[1..][i] != x {
            assert s[1..][i] == s[i + 1];
          }
        }
      }
    }
  }

  /** A value at two positions occurs at least twice. */
  lemma RepeatCountsTwice<T>(s: seq<T>, i: int, j: int)
    requires 0 <= i < j < |s| && s[i] == s[j]
    ensures multiset(s)[s[i]] >= 2
  {
    assert s == s[..j] + [s[j]] + s[j + 1..];
    assert s[i] == s[..j][i];
  }

  /** A permutation of a duplicate-free sequence is duplicate-free. */
  lemma PermutationKeepsDistinct<T>(a: seq<T>, b: seq<T>)
    requires Distinct(a) && multiset(a) == multiset(b)
    ensures Distinct(b)
  {
    forall i, j | 0 <= i < j < |b| ensures b[i] != b[j] {
      if b[i] == b[j] {
        RepeatCountsTwice(b, i, j);
        DistinctCountsAtMostOne(a, b[i]);
      }
    }
  }

  /** An enumeration lists as many elements as the set has. */
  lemma {:induction false} DistinctEnumerationHasSize(order: seq<int>, keys: set<int>)
    requires Enumerates(order, keys)
    ensures |order| == |keys|
  {
    if order == [] {
      assert forall y :: y !in keys;
      assert keys == {};
    } else {
      var x := order[0];
      var rest := order[1..];
      assert forall i, j :: 0 <= i < j < |rest| ==> rest[i] == order[i + 1] && rest[j] == order[j + 1];
      assert x !in rest by {
        forall i | 0 <= i < |rest| ensures rest[i] != x {
          assert rest[i] == order[i + 1];
        }
      }
      assert forall y :: y in order <==> y == x || y in rest by {
        assert order == [x] + rest;
      }
      DistinctEnumerationHasSize(rest, keys - {x});
    }
  }
}

/**
 * The pieces every listing endpoint is composed of: the rows of a table in
 * id order, `WHERE`, `ORDER BY ... DESC` and `OFFSET ... LIMIT ...`.
 */
module Query {
  import opened PyValues

  /** The ids of a table below `n`. */
  ghost function RowIds<T>(m: map<nat, T>, n: nat): set<nat> {
    set id: nat | id in m && id < n
  }

  /** The ids below `n` are those below `n - 1`, and `n - 1` when its row
      exists. */
  lemma RowIdsStep<T>(m: map<nat, T>, n: nat)
    requires n > 0
    ensures |RowIds(m, n)| == |RowIds(m, n - 1)| + if n - 1 in m then 1 else 0
  {
    var k: nat := n - 1;
    var ids, before := RowIds(m, n), RowIds(m, k);
    if k in m {
      assert k !in before;
      assert forall id :: id in ids <==> id in before || id == k;
      assert ids == before + {k};
    } else {
      assert forall id :: id in ids <==> id in before;
      assert ids == before;
    }
  }

  /** The rows of a table whose ids are below `n`, in increasing id order. */
  function Rows<T(!new)>(m: map<nat, T>, n: nat): (r: seq<(nat, T)>)
    ensures forall id, row :: (id, row) in r <==> id in m && id < n && row == m[id]
    ensures forall i, j :: 0 <= i < j < |r| ==> r[i].0 < r[j].0
    ensures forall i :: 0 <= i < |r| ==> r[i].0 < n
  {
    if n == 0 then []
    else if n - 1 in m then Rows(m, n - 1) + [(n - 1, m[n - 1])]
    else Rows(m, n - 1)
  }

  /** A table has one row below `n` per id below `n`. */
  lemma {:induction false} RowsCount<T(!new)>(m: map<nat, T>, n: nat)
    ensures |Rows(m, n)| == |RowIds(m, n)|
  {
    if n == 0 {
      assert RowIds(m, n) == {};
    } else {
      RowsCount(m, n - 1);
      RowIdsStep(m, n);
    }
  }

  /** The ids below `n` of the rows satisfying `p`. */
  ghost function IdsWhere<T(!new)>(m: map<nat, T>, n: nat, p: ((nat, T)) -> bool): set<nat> {
    set id: nat | id in m && id < n && p((id, m[id]))
  }

  /** The ids below `n` are those below `n - 1`, and `n - 1` when its row
      exists and satisfies `p`. */
  lemma IdsWhereStep<T(!new)>(m: map<nat, T>, n: nat, p: ((nat, T)) -> bool)
    requires n > 0
    ensures |IdsWhere(m, n, p)| == |IdsWhere(m, n - 1, p)| + if n - 1 in m && p((n - 1, m[n - 1])) then 1 else 0
  {
    var k: nat := n - 1;
    var ids, before := IdsWhere(m, n, p), IdsWhere(m, k, p);
    if k in m && p((k, m[k])) {
      assert k !in before;
      assert forall id :: id in ids <==> id in before || id == k;
      assert ids == before + {k};
    } else {
      assert forall id :: id in ids <==> id in before;
      assert ids == before;
    }
  }

  /** `WHERE p` over one more row at the end. */
  lemma WhereSnoc<T(!new)>(s: seq<T>, x: T, p: T -> bool)
    ensures Where(s + [x], p) == if p(x) then Where(s, p) + [x] else Where(s, p)
  {
    assert (s + [x])[..|s + [x]| - 1] == s;
  }

  /** `WHERE p` over the rows in id order keeps one row per id satisfying `p`. */
  lemma {:induction false} WhereRowsCount<T(!new)>(m: map<nat, T>, n: nat, p: ((nat, T)) -> bool)
    ensures |Where(Rows(m, n), p)| == |IdsWhere(m, n, p)|
  {
    if n == 0 {
      assert IdsWhere(m, n, p) == {};
    } else {
      var k: nat := n - 1;
      var prev := Rows(m, k);
      WhereRowsCount(m, k, p);
      IdsWhereStep(m, n, p);
      if k in m {
        var last: (nat, T) := (k, m[k]);
        assert Rows(m, n) == prev + [last];
        WhereSnoc(prev, last, p);
      } else {
        assert Rows(m, n) == prev;
      }
    }
  }

  /** `WHERE p`: the rows satisfying `p`, in their order. */
  function Where<T(!new)>(s: seq<T>, p: T -> bool): (r: seq<T>)
    ensures forall x :: x in r <==> x in s && p(x)
    ensures |r| <= |s|
    ensures multiset(r) <= multiset(s)
  {
    if s == [] then []
    else
      var rest := Where(s[..|s| - 1], p);
      assert s == s[..|s| - 1] + [s[|s| - 1]];
      if p(s[|s| - 1]) then rest + [s[|s| - 1]] else rest
  }

  /** How many of `n` rows `OFFSET skip LIMIT limit` leaves. */
  function Window(n: nat, skip: nat, limit: nat): nat {
    if skip >= n then 0 else if n - skip < limit then n - skip else limit
  }

  /** `OFFSET skip LIMIT limit`: the window of at most `limit` rows that
      starts after the first `skip`. */
  function Page<T>(s: seq<T>, skip: nat, limit: nat): (r: seq<T>)
    ensures |r| == Window(|s|, skip, limit)
    ensures forall i :: 0 <= i < |r| ==> r[i] == s[skip + i]
  {
    if skip >= |s| then []
    else if |s| - skip < limit then s[skip..]
    else s[skip..skip + limit]
  }

  /** Keys never increase from left to right. */
  ghost predicate SortedDesc<T>(s: seq<T>, key: T -> int) {
    forall i, j :: 0 <= i < j < |s| ==> key(s[i]) >= key(s[j])
  }

  /** Puts `x` into `s` before the first element whose key is not greater
      than its own. */
  function InsertDesc<T>(x: T, s: seq<T>, key: T -> int): (r: seq<T>)
    ensures multiset(r) == multiset(s) + multiset{x}
    ensures |r| == |s| + 1
  {
    if s == [] || key(x) >= key(s[0]) then [x] + s
    else
      assert s == [s[0]] + s[1..];
      [s[0]] + InsertDesc(x, s[1..], key)
  }

  /** An element with a key at least every key of a descending sequence
      may go in front of it. */
  lemma PrependSorted<T>(h: T, s: seq<T>, key: T -> int)
    requires SortedDesc(s, key)
    requires forall i :: 0 <= i < |s| ==> key(s[i]) <= key(h)
    ensures SortedDesc([h] + s, key)
  {
    var r := [h] + s;
    forall i, j | 0 <= i < j < |r|
      ensures key(r[i]) >= key(r[j])
    {
      assert r[j] == s[j - 1];
      if i > 0 {
        assert r[i] == s[i - 1];
      }
    }
  }

  /** Insertion adds no key above a bound that `x` and `s` respect. */
  lemma {:induction false} InsertDescBounded<T>(x: T, s: seq<T>, key: T -> int, b: int)
    requires key(x) <= b
    requires forall i :: 0 <= i < |s| ==> key(s[i]) <= b
    ensures forall i :: 0 <= i < |InsertDesc(x, s, key)| ==> key(InsertDesc(x, s, key)[i]) <= b
  {
    if s != [] && key(x) < key(s[0]) {
      InsertDescBounded(x, s[1..], key, b);
    }
  }

  /** Inserting into a descending sequence keeps it descending. */
  lemma {:induction false} InsertDescSorted<T>(x: T, s: seq<T>, key: T -> int)
    requires SortedDesc(s, key)
    ensures SortedDesc(InsertDesc(x, s, key), key)
  {
    if s == [] || key(x) >= key(s[0]) {
      PrependSorted(x, s, key);
    } else {
      InsertDescSorted(x, s[1..], key);
      InsertDescBounded(x, s[1..], key, key(s[0]));
      PrependSorted(s[0], InsertDesc(x, s[1..], key), key);
    }
  }

  /** `ORDER BY key DESC`, stable: rows with equal keys keep their order. */
  function SortDesc<T>(s: seq<T>, key: T -> int): (r: seq<T>)
    ensures SortedDesc(r, key)
    ensures multiset(r) == multiset(s)
  {
    if s == [] then []
    else
      assert s == [s[0]] + s[1..];
      var rest := SortDesc(s[1..], key);
      InsertDescSorted(s[0], rest, key);
      InsertDesc(s[0], rest, key)
  }

  /** `SELECT DISTINCT`: each value once, in order of first occurrence. */
  function SelectDistinct(s: seq<string>): (r: seq<string>)
    ensures forall x :: x in r <==> x in s
    ensures Distinct(r)
  {
    if s == [] then [] else InsertKey(SelectDistinct(s[..|s| - 1]), s[|s| - 1])
  }

  /** `ORDER BY key DESC OFFSET skip LIMIT limit` over the rows `s`: the
      rows of the descending order from position `skip` on, as many as the
      window leaves. */
  function OrderedPage<T>(s: seq<T>, key: T -> int, skip: nat, limit: nat): (r: seq<T>)
    ensures |r| == Window(|s|, skip, limit)
    ensures forall i :: 0 <= i < |r| ==> r[i] == SortDesc(s, key)[skip + i]
    ensures forall x :: x in r ==> x in s
    ensures SortedDesc(r, key)
    ensures skip == 0 && |s| <= limit ==> multiset(r) == multiset(s)
  {
    var sorted := SortDesc(s, key);
    assert |sorted| == |multiset(sorted)| == |multiset(s)| == |s|;
    var r := Page(sorted, skip, limit);
    forall x | x in r
      ensures x in s
    {
      var i :| 0 <= i < |r| && r[i] == x;
      assert sorted[skip + i] == x;
      assert x in multiset(sorted);
    }
    forall i, j | 0 <= i < j < |r|
      ensures key(r[i]) >= key(r[j])
    {
      assert r[i] == sorted[skip + i] && r[j] == sorted[skip + j];
    }
    assert skip == 0 && |s| <= limit ==> r == sorted;
    r
  }

  /** `WHERE p ORDER BY key DESC OFFSET skip LIMIT limit` over the rows `s`:
      as many rows as the window leaves of the matching ones, and all of
      them when the first page has room for every match. */
  function Listing<T(!new)>(s: seq<T>, p: T -> bool, key: T -> int, skip: nat, limit: nat): (r: seq<T>)
    ensures |r| == Window(|Where(s, p)|, skip, limit)
    ensures forall x :: x in r ==> x in s && p(x)
    ensures SortedDesc(r, key)
    ensures skip == 0 && |Where(s, p)| <= limit ==> forall x :: x in s && p(x) ==> x in r
  {
    var m := Where(s, p);
    var r := OrderedPage(m, key, skip, limit);
    assert skip == 0 && |m| <= limit ==> forall x :: x in s && p(x) ==> x in r by {
      if skip == 0 && |m| <= limit {
        forall x | x in s && p(x)
          ensures x in r
        {
          assert x in multiset(m);
        }
      }
    }
    r
  }

  /** Two consecutive pages together are the page that spans both. */
  lemma PagesTile<T>(s: seq<T>, skip: nat, a: nat, b: nat)
    ensures Page(s, skip, a) + Page(s, skip + a, b) == Page(s, skip, a + b)
  {
    var p, q, r := Page(s, skip, a), Page(s, skip + a, b), Page(s, skip, a + b);
    if |p| == a {
      forall i | 0 <= i < |r|
        ensures (p + q)[i] == r[i]
      {
        if i >= a {
          assert q[i - a] == s[skip + a + (i - a)];
        }
      }
    }
  }

  /** Two consecutive ordered pages together are the ordered page that
      spans both: paging through a listing neither skips nor repeats a row. */
  lemma OrderedPagesTile<T>(s: seq<T>, key: T -> int, skip: nat, a: nat, b: nat)
    ensures OrderedPage(s, key, skip, a) + OrderedPage(s, key, skip + a, b) == OrderedPage(s, key, skip, a + b)
  {
    PagesTile(SortDesc(s, key), skip, a, b);
  }

  /** The same for a filtered listing. */
  lemma ListingsTile<T(!new)>(s: seq<T>, p: T -> bool, key: T -> int, skip: nat, a: nat, b: nat)
    ensures Listing(s, p, key, skip, a) + Listing(s, p, key, skip + a, b) == Listing(s, p, key, skip, a + b)
  {
    OrderedPagesTile(Where(s, p), key, skip, a, b);
  }

  /** A page of a table: as many rows as the window leaves of the table's
      rows below `n`, each the row `skip` places further on in id order,
      each a row of the table, in increasing id order. */
  ghost predicate PageOf<T(!new)>(r: seq<(nat, T)>, m: map<nat, T>, n: nat, skip: nat, limit: nat) {
    && |r| == Window(|RowIds(m, n)|, skip, limit)
    && (forall i :: 0 <= i < |r| ==> skip + i < |Rows(m, n)| && r[i] == Rows(m, n)[skip + i])
    && (forall e :: e in r ==> e.0 in m && e.1 == m[e.0])
    && (forall i, j :: 0 <= i < j < |r| ==> r[i].0 < r[j].0)
  }

  /** A page of a table's rows in id order is a page of the table. */
  lemma PageOfRows<T(!new)>(m: map<nat, T>, n: nat, skip: nat, limit: nat)
    ensures PageOf(Page(Rows(m, n), skip, limit), m, n, skip, limit)
  {
    var rows := Rows(m, n);
    var page := Page(rows, skip, limit);
    RowsCount(m, n);
    forall e | e in page
      ensures e.0 in m && e.1 == m[e.0]
    {
      var i :| 0 <= i < |page| && page[i] == e;
      assert rows[skip + i] == e;
    }
    forall i, j | 0 <= i < j < |page|
      ensures page[i].0 < page[j].0
    {
      assert page[i] == rows[skip + i] && page[j] == rows[skip + j];
    }
  }
}

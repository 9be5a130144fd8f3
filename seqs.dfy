/** What the services ask of the database when they read many rows: a scan of
    a table in an order the database chooses, a filter, an `orderBy` and a
    `skip`/`take` window. Rows come back as sequences; the specifications say
    which rows (each exactly once) and in which order. */
module Seqs {
  import opened Common

  /** No element occurs twice. */
  ghost predicate NoDup<T>(s: seq<T>) {
    forall x | x in multiset(s) :: multiset(s)[x] == 1
  }

  /** s lists every element of S exactly once and nothing else. */
  ghost predicate Enumerates<T(!new)>(s: seq<T>, S: set<T>) {
    NoDup(s) && forall x :: x in s <==> x in S
  }

  /** Distinct keys hold distinct records (true of every table whose records
      carry their own key). */
  ghost predicate Injective<T>(m: map<Id, T>) {
    forall j, k | j in m && k in m && j != k :: m[j] != m[k]
  }

  /** The rows of a table, in whatever order the database happens to read
      them: each record exactly once. */
  method Scan<T(==, !new)>(m: map<Id, T>) returns (rows: seq<T>)
    requires Injective(m)
    ensures Enumerates(rows, m.Values)
  {
    var rest := m.Keys;
    rows := [];
    ghost var keys: seq<Id> := [];
    while rest != {}
      invariant rest <= m.Keys
      invariant |keys| == |rows|
      invariant forall i | 0 <= i < |rows| :: keys[i] in m && keys[i] !in rest && rows[i] == m[keys[i]]
      invariant forall k | k in m && k !in rest :: m[k] in rows
      invariant NoDup(rows)
      decreases rest
    {
      var k :| k in rest;
      assert m[k] !in rows by {
        forall i | 0 <= i < |rows| ensures rows[i] != m[k] {
          assert keys[i] != k;
        }
      }
      rows := rows + [m[k]];
      keys := keys + [k];
      rest := rest - {k};
    }
  }

  /** The elements of S that satisfy p with argument q (a query's `where`). */
  function Select<T(!new), Q>(S: set<T>, p: (T, Q) -> bool, q: Q): (R: set<T>)
    ensures forall x :: x in R <==> x in S && p(x, q)
  {
    set x | x in S && p(x, q)
  }

  /** The elements of s that satisfy p with argument q, in their order. */
  function Filter<T(!new), Q>(s: seq<T>, p: (T, Q) -> bool, q: Q): (r: seq<T>)
    ensures forall x :: x in r <==> x in s && p(x, q)
    ensures multiset(r) <= multiset(s)
    ensures |r| <= |s|
  {
    if s == [] then []
    else
      assert s == [s[0]] + s[1..];
      (if p(s[0], q) then [s[0]] else []) + Filter(s[1..], p, q)
  }

  /** A sub-multiset of a duplicate-free sequence is duplicate-free. */
  lemma NoDupSub<T>(a: seq<T>, b: seq<T>)
    requires multiset(a) <= multiset(b) && NoDup(b)
    ensures NoDup(a)
  {
    forall x | x in multiset(a) ensures multiset(a)[x] == 1 {
      assert x in multiset(b);
    }
  }

  /** Filtering an enumeration of S enumerates the selected part of S. */
  lemma FilterEnumerates<T(!new), Q>(s: seq<T>, S: set<T>, p: (T, Q) -> bool, q: Q)
    requires Enumerates(s, S)
    ensures Enumerates(Filter(s, p, q), Select(S, p, q))
  {
    NoDupSub(Filter(s, p, q), s);
  }

  /** A sequence that enumerates S has exactly |S| elements. */
  lemma {:induction false} EnumeratesCard<T(!new)>(s: seq<T>, S: set<T>)
    requires Enumerates(s, S)
    ensures |s| == |S|
  {
    if s != [] {
      var x := s[0];
      var t := s[1..];
      assert s == [x] + t;
      assert multiset(s) == multiset{x} + multiset(t);
      assert x in multiset(s);
      assert multiset(s)[x] == 1 + multiset(t)[x];
      assert multiset(t)[x] == 0;
      assert NoDup(t) by {
        forall y | y in multiset(t) ensures multiset(t)[y] == 1 {
          assert multiset(t)[y] <= multiset(s)[y];
        }
      }
      assert Enumerates(t, S - {x});
      EnumeratesCard(t, S - {x});
    }
  }

  /** A permutation of an enumeration of S is again an enumeration of S. */
  lemma PermutationEnumerates<T(!new)>(a: seq<T>, b: seq<T>, S: set<T>)
    requires multiset(a) == multiset(b) && Enumerates(a, S)
    ensures Enumerates(b, S)
  {
    forall x ensures x in b <==> x in a {
      assert x in b <==> x in multiset(b);
      assert x in a <==> x in multiset(a);
    }
  }

  /** Sort direction of an `orderBy`. */
  datatype Direction = Asc | Desc

  predicate Precedes(a: real, b: real, dir: Direction) {
    if dir == Asc then a <= b else a >= b
  }

  /** Every element's key precedes the keys of the elements after it. */
  ghost predicate SortedBy<T>(s: seq<T>, key: T -> real, dir: Direction) {
    forall i, j | 0 <= i < j < |s| :: Precedes(key(s[i]), key(s[j]), dir)
  }

  /** Prepending an element whose key precedes every key of a sorted
      sequence keeps it sorted. */
  lemma SortedCons<T>(h: T, t: seq<T>, key: T -> real, dir: Direction)
    requires SortedBy(t, key, dir)
    requires forall y | y in t :: Precedes(key(h), key(y), dir)
    ensures SortedBy([h] + t, key, dir)
  {
    var r := [h] + t;
    forall i, j | 0 <= i < j < |r| ensures Precedes(key(r[i]), key(r[j]), dir) {
      if i > 0 {
        assert r[i] == t[i - 1] && r[j] == t[j - 1];
      } else {
        assert r[j] == t[j - 1] && t[j - 1] in t;
      }
    }
  }

  /** Inserts x before the first element whose key it precedes, so that x
      stays ahead of elements with an equal key. */
  function Insert<T>(x: T, s: seq<T>, key: T -> real, dir: Direction): (r: seq<T>)
    requires SortedBy(s, key, dir)
    ensures multiset(r) == multiset(s) + multiset{x}
    ensures SortedBy(r, key, dir)
  {
    if s == [] || Precedes(key(x), key(s[0]), dir) then
      [x] + s
    else
      var t := Insert(x, s[1..], key, dir);
      assert s == [s[0]] + s[1..];
      assert forall y | y in t :: Precedes(key(s[0]), key(y), dir) by {
        forall y | y in t ensures Precedes(key(s[0]), key(y), dir) {
          assert y in multiset(t);
          if y != x {
            assert y in multiset(s[1..]);
            var j :| 0 <= j < |s[1..]| && s[1..][j] == y;
            assert s[j + 1] == y;
          }
        }
      }
      SortedCons(s[0], t, key, dir);
      [s[0]] + t
  }

  /** A stable sort by key, as JavaScript's `Array.prototype.sort` with a
      key-difference comparator: a permutation of s in key order. */
  function SortBy<T>(s: seq<T>, key: T -> real, dir: Direction): (r: seq<T>)
    ensures multiset(r) == multiset(s)
    ensures SortedBy(r, key, dir)
  {
    if s == [] then []
    else
      assert s == [s[0]] + s[1..];
      Insert(s[0], SortBy(s[1..], key, dir), key, dir)
  }

  /** The rows a `skip`/`take` window keeps: positions skip .. skip + take - 1
      as far as they exist. */
  function Window<T>(s: seq<T>, skip: nat, take: nat): (r: seq<T>)
    ensures |r| == if skip >= |s| then 0 else Min(take, |s| - skip)
    ensures forall i | 0 <= i < |r| :: r[i] == s[skip + i]
    ensures multiset(r) <= multiset(s)
  {
    if skip >= |s| then []
    else
      var hi := Min(skip + take, |s|);
      assert s == s[..skip] + s[skip..hi] + s[hi..];
      s[skip..hi]
  }
}

/**
 * Lists of metadata records as the storage layer handles them: the id-keyed dictionary a
 * list stands for, the dictionary-to-array conversion, filtering, the listing sort and the
 * page window.
 */
module RecordLists {
  import opened PhotoModel
  import opened Text

  type Catalog = map<Uuid, PhotoMetadata>

  /** Every record is stored under its own id. */
  predicate KeyedById(m: Catalog) {
    forall id :: id in m ==> m[id].id == id
  }

  predicate UniqueIds(s: seq<PhotoMetadata>) {
    forall i, j :: 0 <= i < j < |s| ==> s[i].id != s[j].id
  }

  /** The id-keyed dictionary a list of records stands for (`Dictionary(uniqueKeysWithValues:)`). */
  function ListToMap(s: seq<PhotoMetadata>): (m: Catalog)
    ensures KeyedById(m)
  {
    if s == [] then map[] else ListToMap(s[..|s| - 1])[s[|s| - 1].id := s[|s| - 1]]
  }

  lemma {:induction false} ListToMapKeys(s: seq<PhotoMetadata>)
    ensures ListToMap(s).Keys == set i | 0 <= i < |s| :: s[i].id
  {
    if s != [] {
      var n := |s| - 1;
      ListToMapKeys(s[..n]);
      var pre := set i | 0 <= i < n :: s[..n][i].id;
      assert pre == set i | 0 <= i < n :: s[i].id;
      assert (set i | 0 <= i < |s| :: s[i].id) == pre + {s[n].id};
    }
  }

  lemma {:induction false} ListToMapAt(s: seq<PhotoMetadata>, i: nat)
    requires UniqueIds(s) && i < |s|
    ensures s[i].id in ListToMap(s) && ListToMap(s)[s[i].id] == s[i]
  {
    var n := |s| - 1;
    if i < n {
      ListToMapAt(s[..n], i);
    }
  }

  /** Every dictionary entry comes from some element of the list. */
  lemma {:induction false} ListToMapFrom(s: seq<PhotoMetadata>, id: Uuid)
    requires id in ListToMap(s)
    ensures exists k :: 0 <= k < |s| && s[k] == ListToMap(s)[id]
  {
    var n := |s| - 1;
    if s[n].id != id {
      ListToMapFrom(s[..n], id);
      var k :| 0 <= k < n && s[..n][k] == ListToMap(s[..n])[id];
      assert s[k] == ListToMap(s)[id];
    }
  }

  /** A list with unique ids holds exactly the values of the dictionary it stands for. */
  lemma ListElementsAreValues(s: seq<PhotoMetadata>)
    requires UniqueIds(s)
    ensures forall x :: x in s <==> x in ListToMap(s).Values
  {
    forall x | x in s ensures x in ListToMap(s).Values {
      var i :| 0 <= i < |s| && s[i] == x;
      ListToMapAt(s, i);
    }
    forall x | x in ListToMap(s).Values ensures x in s {
      var id :| id in ListToMap(s) && ListToMap(s)[id] == x;
      ListToMapFrom(s, id);
    }
  }

  /** The last record's id does not occur earlier in a list with unique ids. */
  lemma LastIdFresh(s: seq<PhotoMetadata>)
    requires UniqueIds(s) && s != []
    ensures s[|s| - 1].id !in ListToMap(s[..|s| - 1])
  {
    ListToMapKeys(s[..|s| - 1]);
  }

  /** A list with unique ids has exactly one dictionary entry per element. */
  lemma {:induction false} UniqueListSize(s: seq<PhotoMetadata>)
    requires UniqueIds(s)
    ensures |ListToMap(s)| == |s|
  {
    if s != [] {
      UniqueListSize(s[..|s| - 1]);
      LastIdFresh(s);
    }
  }

  /**
   * `Array(dictionary.values)`: the stored records in some order the dictionary chooses.
   * Whatever the order, the list holds each record once and stands for the same dictionary.
   */
  method ValuesOf(m: Catalog) returns (s: seq<PhotoMetadata>)
    requires KeyedById(m)
    ensures UniqueIds(s) && ListToMap(s) == m && |s| == |m|
  {
    s := [];
    var rest := m.Keys;
    while rest != {}
      invariant rest <= m.Keys
      invariant UniqueIds(s)
      invariant forall i :: 0 <= i < |s| ==> s[i].id in m && s[i].id !in rest
      invariant ListToMap(s) == map k | k in m && k !in rest :: m[k]
      decreases rest
    {
      var k :| k in rest;
      var next := s + [m[k]];
      assert next[..|s|] == s;
      assert ListToMap(next) == ListToMap(s)[k := m[k]];
      s := next;
      rest := rest - {k};
    }
    assert ListToMap(s) == m;
    UniqueListSize(s);
  }

  // ----- Filtering -----

  /** `list.filter(keep)`: the kept records, in their original order. */
  function Filter(s: seq<PhotoMetadata>, keep: PhotoMetadata -> bool): (r: seq<PhotoMetadata>)
    ensures |r| <= |s|
    ensures forall x :: x in r ==> x in s && keep(x)
  {
    if s == [] then []
    else Filter(s[..|s| - 1], keep) + (if keep(s[|s| - 1]) then [s[|s| - 1]] else [])
  }

  /** The entries of a dictionary whose record passes `keep`. */
  function Restrict(m: Catalog, keep: PhotoMetadata -> bool): Catalog {
    map k | k in m && keep(m[k]) :: m[k]
  }

  /** Filtering a list with unique ids keeps the ids unique. */
  lemma {:induction false} FilterKeepsUnique(s: seq<PhotoMetadata>, keep: PhotoMetadata -> bool)
    requires UniqueIds(s)
    ensures UniqueIds(Filter(s, keep))
  {
    if s != [] {
      var n := |s| - 1;
      var pre := Filter(s[..n], keep);
      FilterKeepsUnique(s[..n], keep);
      if keep(s[n]) {
        var r := pre + [s[n]];
        forall i, j | 0 <= i < j < |r| ensures r[i].id != r[j].id {
          if j == |pre| {
            assert r[i] in s[..n];
          }
        }
      }
    }
  }

  lemma RestrictUpdate(m: Catalog, x: PhotoMetadata, keep: PhotoMetadata -> bool)
    requires x.id !in m
    ensures Restrict(m[x.id := x], keep) == if keep(x) then Restrict(m, keep)[x.id := x] else Restrict(m, keep)
  {
    var lhs := Restrict(m[x.id := x], keep);
    var rhs := if keep(x) then Restrict(m, keep)[x.id := x] else Restrict(m, keep);
    assert lhs.Keys == rhs.Keys;
    forall k | k in lhs ensures lhs[k] == rhs[k] {
    }
  }

  /**
   * A filtered list with unique ids stands for the dictionary restricted to the kept
   * records: nothing that passes is lost, nothing else survives.
   */
  lemma {:induction false} FilterStandsForRestrict(s: seq<PhotoMetadata>, keep: PhotoMetadata -> bool)
    requires UniqueIds(s)
    ensures ListToMap(Filter(s, keep)) == Restrict(ListToMap(s), keep)
  {
    if s != [] {
      var n := |s| - 1;
      var pre := Filter(s[..n], keep);
      FilterStandsForRestrict(s[..n], keep);
      LastIdFresh(s);
      RestrictUpdate(ListToMap(s[..n]), s[n], keep);
      if keep(s[n]) {
        var r := pre + [s[n]];
        assert r[..|pre|] == pre;
        assert Filter(s, keep) == r;
      } else {
        assert Filter(s, keep) == pre;
      }
    }
  }

  // ----- Sorting -----

  /** "Strictly before" on the chosen key: creation date, file name (by character code) or size. */
  predicate Less(key: SortBy, a: PhotoMetadata, b: PhotoMetadata) {
    match key
    case CreatedAt => a.createdAt < b.createdAt
    case Filename => StrLess(a.originalFilename, b.originalFilename)
    case Size => a.size < b.size
  }

  /**
   * The closure handed to `sort(by:)`: `comparison` for ascending, `!comparison` for
   * descending. The descending form answers `true` for equal keys, so it is not a strict
   * weak ordering; the listing promises only that keys are monotone, not how ties end up.
   */
  predicate AreInIncreasingOrder(key: SortBy, order: SortOrder, a: PhotoMetadata, b: PhotoMetadata) {
    if order == Asc then Less(key, a, b) else !Less(key, a, b)
  }

  /** `a` may stand before `b` in the sorted listing: keys non-decreasing for asc, non-increasing for desc. */
  predicate Precedes(key: SortBy, order: SortOrder, a: PhotoMetadata, b: PhotoMetadata) {
    if order == Asc then !Less(key, b, a) else !Less(key, a, b)
  }

  predicate Ordered(s: seq<PhotoMetadata>, key: SortBy, order: SortOrder) {
    forall i, j :: 0 <= i < j < |s| ==> Precedes(key, order, s[i], s[j])
  }

  /** The descending closure holds in both directions for records with equal keys. */
  lemma DescendingClosureNotStrict(key: SortBy, a: PhotoMetadata)
    ensures AreInIncreasingOrder(key, Desc, a, a)
  {
    if key == Filename {
      StrLessIrreflexive(a.originalFilename);
    }
  }

  lemma PrecedesTotal(key: SortBy, order: SortOrder, a: PhotoMetadata, b: PhotoMetadata)
    ensures Precedes(key, order, a, b) || Precedes(key, order, b, a)
  {
    if key == Filename && StrLess(a.originalFilename, b.originalFilename) && StrLess(b.originalFilename, a.originalFilename) {
      StrLessTransitive(a.originalFilename, b.originalFilename, a.originalFilename);
      StrLessIrreflexive(a.originalFilename);
    }
  }

  lemma PrecedesTransitive(key: SortBy, order: SortOrder, a: PhotoMetadata, b: PhotoMetadata, c: PhotoMetadata)
    requires Precedes(key, order, a, b) && Precedes(key, order, b, c)
    ensures Precedes(key, order, a, c)
  {
    if key == Filename {
      var x, y, z := a.originalFilename, b.originalFilename, c.originalFilename;
      StrLessTotal(x, y);
      StrLessTotal(y, z);
      StrLessTotal(x, z);
      if order == Asc && StrLess(z, x) {
        if StrLess(x, y) { StrLessTransitive(z, x, y); }
      } else if order == Desc && StrLess(x, z) {
        if StrLess(y, x) { StrLessTransitive(y, x, z); }
      }
    }
  }

  /** Placing `x` at index `j` keeps a sorted list sorted when `x` fits between its neighbours. */
  lemma InsertKeepsOrder(r: seq<PhotoMetadata>, x: PhotoMetadata, j: nat, key: SortBy, order: SortOrder)
    requires j <= |r| && Ordered(r, key, order)
    requires j > 0 ==> Precedes(key, order, r[j - 1], x)
    requires forall k :: j <= k < |r| ==> Precedes(key, order, x, r[k])
    ensures Ordered(r[..j] + [x] + r[j..], key, order)
  {
    var t := r[..j] + [x] + r[j..];
    forall a, b | 0 <= a < b < |t| ensures Precedes(key, order, t[a], t[b]) {
      if b < j {
        assert t[a] == r[a] && t[b] == r[b];
      } else if b == j {
        if a < j - 1 {
          PrecedesTransitive(key, order, r[a], r[j - 1], x);
        }
      } else if a < j {
        assert t[a] == r[a] && t[b] == r[b - 1];
      } else if a == j {
        assert t[b] == r[b - 1];
      } else {
        assert t[a] == r[a - 1] && t[b] == r[b - 1];
      }
    }
  }

  /** Inserts `x` into a sorted list after every element it may follow. */
  method InsertRecord(r: seq<PhotoMetadata>, x: PhotoMetadata, key: SortBy, order: SortOrder)
    returns (t: seq<PhotoMetadata>)
    requires Ordered(r, key, order)
    ensures Ordered(t, key, order)
    ensures multiset(t) == multiset(r) + multiset{x}
  {
    var j := |r|;
    while j > 0 && !Precedes(key, order, r[j - 1], x)
      invariant 0 <= j <= |r|
      invariant forall k :: j <= k < |r| ==> Precedes(key, order, x, r[k])
    {
      PrecedesTotal(key, order, r[j - 1], x);
      j := j - 1;
    }
    InsertKeepsOrder(r, x, j, key, order);
    t := r[..j] + [x] + r[j..];
    assert r == r[..j] + r[j..];
  }

  /**
   * `allMetadata.sort { ... }`: a permutation of the input whose keys are monotone in the
   * requested direction. The relative order of records with equal keys is not specified.
   */
  method SortRecords(s: seq<PhotoMetadata>, key: SortBy, order: SortOrder) returns (r: seq<PhotoMetadata>)
    ensures multiset(r) == multiset(s)
    ensures Ordered(r, key, order)
  {
    r := [];
    var i := 0;
    while i < |s|
      invariant 0 <= i <= |s|
      invariant multiset(r) == multiset(s[..i])
      invariant Ordered(r, key, order)
    {
      r := InsertRecord(r, s[i], key, order);
      assert s[..i + 1] == s[..i] + [s[i]];
      i := i + 1;
    }
    assert s[..|s|] == s;
  }

  /** A permutation has the same length and the same elements. */
  lemma PermutationSameElements(a: seq<PhotoMetadata>, b: seq<PhotoMetadata>)
    requires multiset(a) == multiset(b)
    ensures |a| == |b|
    ensures forall x :: x in a <==> x in b
  {
    assert |a| == |multiset(a)|;
    forall x ensures x in a <==> x in b {
      assert x in a <==> x in multiset(a);
    }
  }

  // ----- Paging -----

  function Min(a: int, b: int): int { if a <= b then a else b }

  /**
   * The 1-based page window: items `(page-1)*perPage ..< min(page*perPage, total)`,
   * or nothing when the page starts at or beyond the end.
   */
  function PageOf<T>(s: seq<T>, page: int, perPage: int): (r: seq<T>)
    requires page >= 1 && perPage >= 1
    ensures |r| <= perPage
  {
    var start := (page - 1) * perPage;
    if start >= |s| then [] else s[start .. Min(start + perPage, |s|)]
  }

  /** A page is full until the last one, which holds the rest; pages past the end are empty. */
  lemma PageLength<T>(s: seq<T>, page: int, perPage: int)
    requires page >= 1 && perPage >= 1
    ensures |PageOf(s, page, perPage)| ==
      if (page - 1) * perPage >= |s| then 0 else Min(perPage, |s| - (page - 1) * perPage)
  {
  }

  /** The pages 1 to `n`, concatenated. */
  function FirstPages<T>(s: seq<T>, perPage: int, n: nat): seq<T>
    requires perPage >= 1
  {
    if n == 0 then [] else FirstPages(s, perPage, n - 1) + PageOf(s, n, perPage)
  }

  /**
   * Pages tile the list without gap or overlap: the first `n` pages together are exactly the
   * first `min(n*perPage, |s|)` items, so every item appears on exactly one page.
   */
  lemma {:induction false} PagesTileList<T>(s: seq<T>, perPage: int, n: nat)
    requires perPage >= 1
    ensures FirstPages(s, perPage, n) == s[..Min(n * perPage, |s|)]
  {
    if n > 0 {
      PagesTileList(s, perPage, n - 1);
      var start := (n - 1) * perPage;
      assert n * perPage == start + perPage;
      if start < |s| {
        assert s[..Min(start + perPage, |s|)] == s[..start] + s[start .. Min(start + perPage, |s|)];
      }
    }
  }

  /** A page beyond the end is empty; the total is independent of the page. */
  lemma PageBeyondEndEmpty<T>(s: seq<T>, page: int, perPage: int)
    requires page >= 1 && perPage >= 1 && (page - 1) * perPage >= |s|
    ensures PageOf(s, page, perPage) == []
  {
  }
}

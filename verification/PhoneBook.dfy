/**
 The phone book (Erlang/les2_phone_book/src/phone.erl): two quicksorts and the search over the sorted book.
 Strings are lists of characters compared in Erlang's term order.
 */
module PhoneBook {
  import opened Wrappers

  datatype User = User(num: string, name: string, phone: string)

  datatype SearchType = ByPhone | ByName | ByNum | Unknown

  // --------------------------------------------------------------------- the code

  /** Erlang's < on strings: a proper prefix comes first, otherwise the first difference decides. */
  predicate Less(a: string, b: string) {
    b != [] && (a == [] || a[0] < b[0] || (a[0] == b[0] && Less(a[1..], b[1..])))
  }

  function Filter(p: User -> bool, s: seq<User>): (r: seq<User>)
    ensures |r| <= |s|
  {
    if s == [] then []
    else if p(s[0]) then [s[0]] + Filter(p, s[1..])
    else Filter(p, s[1..])
  }

  function Under(name: string): User -> bool { (u: User) => Less(u.name, name) }

  function From(name: string): User -> bool { (u: User) => !Less(u.name, name) }

  function QuickSort(list: seq<User>): seq<User>
    decreases |list|
  {
    if list == [] then []
    else
      QuickSort(Filter(Under(list[0].name), list[1..]))
      + [list[0]]
      + QuickSort(Filter(From(list[0].name), list[1..]))
  }

  function Field(u: User, kind: SearchType): string {
    match kind
    case ByPhone => u.phone
    case ByName => u.name
    case ByNum => u.num
    case Unknown => u.num
  }

  function Search(list: seq<User>, key: string, kind: SearchType): Option<User> {
    if list == [] then None
    else if Field(list[0], kind) == key then Some(list[0])
    else Search(list[1..], key, kind)
  }

  /** The accumulating partition of quicksort_tail: both parts come out reversed. */
  function Partition(h: int, small: seq<int>, great: seq<int>, list: seq<int>): (r: (seq<int>, seq<int>))
    ensures |r.0| + |r.1| == |small| + |great| + |list|
    decreases |list|
  {
    if list == [] then (small, great)
    else if h > list[0] then Partition(h, [list[0]] + small, great, list[1..])
    else Partition(h, small, [list[0]] + great, list[1..])
  }

  function QuickSortTail(list: seq<int>): seq<int>
    decreases |list|
  {
    if list == [] then []
    else
      var (small, great) := Partition(list[0], [], [], list[1..]);
      QuickSortTail(small) + [list[0]] + QuickSortTail(great)
  }

  // ------------------------------------------------------------------- term order

  /** Less is decided where the strings part: there the first one ends, or has the smaller character. */
  lemma {:induction false} LessAtFirstDifference(a: string, b: string, k: nat)
    requires k <= |a| && k <= |b| && a[..k] == b[..k]
    requires k == |a| || k == |b| || a[k] != b[k]
    ensures Less(a, b) <==> k < |b| && (k == |a| || a[k] < b[k])
  {
    if k > 0 {
      assert a[0] == a[..k][0] == b[..k][0] == b[0];
      assert a[1..][..k - 1] == a[..k][1..] == b[..k][1..] == b[1..][..k - 1];
      LessAtFirstDifference(a[1..], b[1..], k - 1);
    }
  }

  lemma {:induction false} LessIsIrreflexive(a: string)
    ensures !Less(a, a)
  {
    if a != [] {
      LessIsIrreflexive(a[1..]);
    }
  }

  lemma {:induction false} LessIsTransitive(a: string, b: string, c: string)
    requires Less(a, b) && Less(b, c)
    ensures Less(a, c)
  {
    if a != [] && a[0] == b[0] == c[0] {
      LessIsTransitive(a[1..], b[1..], c[1..]);
    }
  }

  lemma {:induction false} LessIsTotal(a: string, b: string)
    ensures a == b || Less(a, b) || Less(b, a)
  {
    if a != [] && b != [] && a[0] == b[0] {
      LessIsTotal(a[1..], b[1..]);
      assert a == [a[0]] + a[1..] && b == [b[0]] + b[1..];
    }
  }

  // ------------------------------------------------------------- filters and order

  function Named(name: string): User -> bool { (u: User) => u.name == name }

  function Matching(key: string, kind: SearchType): User -> bool { (u: User) => Field(u, kind) == key }

  ghost predicate Sorted(list: seq<User>) {
    forall i, j | 0 <= i < j < |list| :: !Less(list[j].name, list[i].name)
  }

  lemma {:induction false} FilterMembers(p: User -> bool, s: seq<User>)
    ensures forall x :: x in Filter(p, s) <==> x in s && p(x)
  {
    if s != [] {
      FilterMembers(p, s[1..]);
    }
  }

  lemma {:induction false} FilterConcat(p: User -> bool, a: seq<User>, b: seq<User>)
    ensures Filter(p, a + b) == Filter(p, a) + Filter(p, b)
  {
    if a == [] {
      assert a + b == b;
    } else {
      assert (a + b)[0] == a[0] && (a + b)[1..] == a[1..] + b;
      FilterConcat(p, a[1..], b);
    }
  }

  lemma {:induction false} FiltersCommute(p: User -> bool, q: User -> bool, s: seq<User>)
    ensures Filter(p, Filter(q, s)) == Filter(q, Filter(p, s))
  {
    if s != [] {
      FiltersCommute(p, q, s[1..]);
      FilterConcat(p, if q(s[0]) then [s[0]] else [], Filter(q, s[1..]));
      FilterConcat(q, if p(s[0]) then [s[0]] else [], Filter(p, s[1..]));
    }
  }

  lemma {:induction false} FilterAbsorbs(p: User -> bool, q: User -> bool, s: seq<User>)
    requires forall x | x in s :: p(x) ==> q(x)
    ensures Filter(p, Filter(q, s)) == Filter(p, s)
  {
    if s != [] {
      FilterAbsorbs(p, q, s[1..]);
      FilterConcat(p, if q(s[0]) then [s[0]] else [], Filter(q, s[1..]));
    }
  }

  lemma {:induction false} FilterExcludes(p: User -> bool, q: User -> bool, s: seq<User>)
    requires forall x | x in s :: p(x) ==> !q(x)
    ensures Filter(p, Filter(q, s)) == []
  {
    if s != [] {
      FilterExcludes(p, q, s[1..]);
      FilterConcat(p, if q(s[0]) then [s[0]] else [], Filter(q, s[1..]));
    }
  }

  lemma {:induction false} FilterSplitsMultiset(p: User -> bool, q: User -> bool, s: seq<User>)
    requires forall x | x in s :: q(x) <==> !p(x)
    ensures multiset(s) == multiset(Filter(p, s)) + multiset(Filter(q, s))
  {
    if s != [] {
      assert s == [s[0]] + s[1..];
      FilterSplitsMultiset(p, q, s[1..]);
    }
  }

  // ------------------------------------------------------------------ the stable sort

  lemma {:induction false} QuickSortPermutes(list: seq<User>)
    ensures multiset(QuickSort(list)) == multiset(list)
    decreases |list|
  {
    if list != [] {
      var h, tail := list[0].name, list[1..];
      assert list == [list[0]] + tail;
      FilterSplitsMultiset(Under(h), From(h), tail);
      QuickSortPermutes(Filter(Under(h), tail));
      QuickSortPermutes(Filter(From(h), tail));
    }
  }

  lemma InSort(u: User, list: seq<User>)
    ensures u in QuickSort(list) <==> u in list
  {
    QuickSortPermutes(list);
    assert u in multiset(list) <==> u in multiset(QuickSort(list));
  }

  lemma {:induction false} QuickSortSorts(list: seq<User>)
    ensures Sorted(QuickSort(list))
    decreases |list|
  {
    if list != [] {
      var h, tail := list[0].name, list[1..];
      var small, great := Filter(Under(h), tail), Filter(From(h), tail);
      QuickSortSorts(small);
      QuickSortSorts(great);
      FilterMembers(Under(h), tail);
      FilterMembers(From(h), tail);
      var s := QuickSort(list);
      var m := |QuickSort(small)|;
      forall i, j | 0 <= i < j < |s| ensures !Less(s[j].name, s[i].name) {
        LessIsIrreflexive(h);
        if i < m { InSort(s[i], small); }
        if j < m { InSort(s[j], small); }
        if i > m { InSort(s[i], great); }
        if j > m { InSort(s[j], great); }
        if i < m <= j && Less(s[j].name, s[i].name) {
          LessIsTransitive(s[j].name, s[i].name, h);
        }
      }
    }
  }

  /** Records with the same name keep their order. */
  lemma {:induction false} QuickSortIsStable(list: seq<User>, name: string)
    ensures Filter(Named(name), QuickSort(list)) == Filter(Named(name), list)
    decreases |list|
  {
    if list != [] {
      var h, tail := list[0].name, list[1..];
      var small, great := Filter(Under(h), tail), Filter(From(h), tail);
      QuickSortIsStable(small, name);
      QuickSortIsStable(great, name);
      FilterJoin(Named(name), QuickSort(small), list[0], QuickSort(great));
      NamedSplits(name, h, tail);
    }
  }

  lemma FilterJoin(p: User -> bool, a: seq<User>, u: User, b: seq<User>)
    ensures Filter(p, a + [u] + b) == Filter(p, a) + (if p(u) then [u] else []) + Filter(p, b)
  {
    FilterConcat(p, a + [u], b);
    FilterConcat(p, a, [u]);
  }

  lemma NamedSplits(name: string, h: string, tail: seq<User>)
    ensures var small, great := Filter(Named(name), Filter(Under(h), tail)), Filter(Named(name), Filter(From(h), tail));
            if Less(name, h)
            then small == Filter(Named(name), tail) && great == [] && name != h
            else small == [] && great == Filter(Named(name), tail)
  {
    LessIsIrreflexive(h);
    if Less(name, h) {
      FilterAbsorbs(Named(name), Under(h), tail);
      FilterExcludes(Named(name), From(h), tail);
    } else {
      FilterExcludes(Named(name), Under(h), tail);
      FilterAbsorbs(Named(name), From(h), tail);
    }
  }

  lemma FilterHead(p: User -> bool, s: seq<User>)
    requires s != []
    ensures Filter(p, s[1..]) == if p(s[0]) then Filter(p, s)[1..] else Filter(p, s)
  {
  }

  /** Order by name and order among equal names determine the list. */
  lemma {:induction false} StableSortIsUnique(a: seq<User>, b: seq<User>)
    requires Sorted(a) && Sorted(b)
    requires forall name :: Filter(Named(name), a) == Filter(Named(name), b)
    ensures a == b
    decreases |a|
  {
    if a != [] {
      FilterMembers(Named(a[0].name), a);
      FilterMembers(Named(a[0].name), b);
    }
    if b != [] {
      FilterMembers(Named(b[0].name), a);
      FilterMembers(Named(b[0].name), b);
    }
    if a != [] && b != [] {
      var x, y := a[0].name, b[0].name;
      assert a[0] in b && b[0] in a;
      LessIsTotal(x, y);
      assert x == y;
      assert Filter(Named(x), a)[0] == a[0];
      forall name ensures Filter(Named(name), a[1..]) == Filter(Named(name), b[1..]) {
        FilterHead(Named(name), a);
        FilterHead(Named(name), b);
        assert Filter(Named(name), a) == Filter(Named(name), b);
      }
      StableSortIsUnique(a[1..], b[1..]);
      assert a == [a[0]] + a[1..] && b == [b[0]] + b[1..];
    }
  }

  /** The sort is the one stable sort: any sorted list with the same per-name order equals it. */
  lemma QuickSortIsTheStableSort(list: seq<User>, s: seq<User>)
    ensures s == QuickSort(list) <==>
            Sorted(s) && forall name :: Filter(Named(name), s) == Filter(Named(name), list)
  {
    QuickSortSorts(list);
    forall name ensures Filter(Named(name), QuickSort(list)) == Filter(Named(name), list) {
      QuickSortIsStable(list, name);
    }
    if Sorted(s) && forall name :: Filter(Named(name), s) == Filter(Named(name), list) {
      StableSortIsUnique(s, QuickSort(list));
    }
  }

  // -------------------------------------------------------- what the search finds

  lemma {:induction false} SearchIsFirstMatch(list: seq<User>, key: string, kind: SearchType)
    ensures var m := Filter(Matching(key, kind), list);
            Search(list, key, kind) == if m == [] then None else Some(m[0])
  {
    if list != [] {
      SearchIsFirstMatch(list[1..], key, kind);
    }
  }

  lemma {:induction false} FilterKeepsSorted(p: User -> bool, list: seq<User>)
    requires Sorted(list)
    ensures Sorted(Filter(p, list))
  {
    if list != [] {
      FilterKeepsSorted(p, list[1..]);
      var f := Filter(p, list);
      if p(list[0]) {
        forall i, j | 0 <= i < j < |f| ensures !Less(f[j].name, f[i].name) {
          FilterMembers(p, list[1..]);
          assert f[j] in Filter(p, list[1..]);
          if i > 0 {
            assert f[i] == Filter(p, list[1..])[i - 1] && f[j] == Filter(p, list[1..])[j - 1];
          }
        }
      }
    }
  }

  /** Filtering the sorted book is sorting the filtered book. */
  lemma SortCommutesWithFilter(p: User -> bool, list: seq<User>)
    ensures Filter(p, QuickSort(list)) == QuickSort(Filter(p, list))
  {
    QuickSortSorts(list);
    FilterKeepsSorted(p, QuickSort(list));
    forall name ensures Filter(Named(name), Filter(p, QuickSort(list))) == Filter(Named(name), Filter(p, list)) {
      FiltersCommute(Named(name), p, QuickSort(list));
      FiltersCommute(Named(name), p, list);
      QuickSortIsStable(list, name);
    }
    QuickSortIsTheStableSort(Filter(p, list), Filter(p, QuickSort(list)));
  }

  /** By any field, the search over the sorted book returns the match with the least name,
      and among those the one that came first in the file. */
  lemma SearchFindsStableMinimum(list: seq<User>, key: string, kind: SearchType)
    ensures Search(QuickSort(list), key, kind).None? <==> forall u | u in list :: Field(u, kind) != key
    ensures Search(QuickSort(list), key, kind).Some? ==>
            exists i | 0 <= i < |list| && Search(QuickSort(list), key, kind).value == list[i] ::
              && Field(list[i], kind) == key
              && forall j | 0 <= j < |list| && Field(list[j], kind) == key ::
                   && !Less(list[j].name, list[i].name)
                   && (j < i ==> list[j].name != list[i].name)
  {
    var p := Matching(key, kind);
    var m := Filter(p, list);
    SearchIsFirstMatch(QuickSort(list), key, kind);
    SortCommutesWithFilter(p, list);
    FilterMembers(p, list);
    if m == [] {
      forall u | u in list ensures Field(u, kind) != key {
        assert !p(u);
      }
    } else {
      var s := QuickSort(m);
      QuickSortPermutes(m);
      assert |multiset(s)| == |s| && |multiset(m)| == |m|;
      var u := s[0];
      InSort(u, m);
      QuickSortSorts(m);
      QuickSortIsStable(m, u.name);
      var i := FirstOfFilter(Named(u.name), p, list, u);
      forall j | 0 <= j < |list| && Field(list[j], kind) == key
        ensures !Less(list[j].name, list[i].name) && (j < i ==> list[j].name != list[i].name)
      {
        assert p(list[j]);
        InSort(list[j], m);
        LessIsIrreflexive(u.name);
      }
    }
  }

  lemma {:induction false} FirstOfFilter(q: User -> bool, p: User -> bool, list: seq<User>, u: User) returns (i: nat)
    requires Filter(q, Filter(p, list)) != [] && Filter(q, Filter(p, list))[0] == u
    ensures i < |list| && list[i] == u && p(u) && q(u)
    ensures forall j | 0 <= j < i :: !(p(list[j]) && q(list[j]))
  {
    if p(list[0]) && q(list[0]) {
      i := 0;
    } else {
      if p(list[0]) {
        var f := Filter(p, list);
        assert f[0] == list[0] && f[1..] == Filter(p, list[1..]);
        FilterHead(q, f);
      } else {
        FilterHead(p, list);
      }
      i := FirstOfFilter(q, p, list[1..], u);
      i := i + 1;
    }
  }

  /** found is the record with property p that has the least name, and among those came first in the file. */
  ghost predicate LeastNameFirst(list: seq<User>, p: User -> bool, found: Option<User>) {
    && (found.None? <==> forall u | u in list :: !p(u))
    && (found.Some? ==>
          exists i | 0 <= i < |list| && found.value == list[i] ::
            && p(list[i])
            && forall j | 0 <= j < |list| && p(list[j]) ::
                 && !Less(list[j].name, list[i].name)
                 && (j < i ==> list[j].name != list[i].name))
  }

  function WithPhone(phone: string): User -> bool { (u: User) => u.phone == phone }

  function WithNum(num: string): User -> bool { (u: User) => u.num == num }

  /** A search by phone compares phones. */
  lemma SearchByPhoneFindsLeastName(list: seq<User>, phone: string)
    ensures LeastNameFirst(list, WithPhone(phone), Search(QuickSort(list), phone, ByPhone))
  {
    SearchFindsStableMinimum(list, phone, ByPhone);
  }

  /** A search by number, or by anything the program does not know, compares numbers. */
  lemma SearchByNumFindsLeastName(list: seq<User>, num: string, kind: SearchType)
    requires kind != ByPhone && kind != ByName
    ensures LeastNameFirst(list, WithNum(num), Search(QuickSort(list), num, kind))
  {
    SearchFindsStableMinimum(list, num, kind);
  }

  /** A name search returns the earliest record of the file with that name. */
  lemma SearchByNameFindsEarliest(list: seq<User>, name: string)
    ensures var found := Search(QuickSort(list), name, ByName);
            var m := Filter(Named(name), list);
            found == if m == [] then None else Some(m[0])
  {
    SearchIsFirstMatch(QuickSort(list), name, ByName);
    QuickSortIsStable(list, name);
    SameFilter(Matching(name, ByName), Named(name), QuickSort(list));
  }

  lemma {:induction false} SameFilter(p: User -> bool, q: User -> bool, s: seq<User>)
    requires forall x | x in s :: p(x) <==> q(x)
    ensures Filter(p, s) == Filter(q, s)
  {
    if s != [] {
      SameFilter(p, q, s[1..]);
    }
  }

  // ------------------------------------------------------------------ quicksort_tail

  ghost predicate Ascending(list: seq<int>) {
    forall i, j | 0 <= i < j < |list| :: list[i] <= list[j]
  }

  lemma {:induction false} PartitionSplits(h: int, small: seq<int>, great: seq<int>, list: seq<int>)
    requires (forall x | x in small :: x < h) && (forall x | x in great :: h <= x)
    ensures var (s, g) := Partition(h, small, great, list);
            && (forall x | x in s :: x < h) && (forall x | x in g :: h <= x)
            && multiset(s) + multiset(g) == multiset(small) + multiset(great) + multiset(list)
    decreases |list|
  {
    if list != [] {
      assert list == [list[0]] + list[1..];
      if h > list[0] {
        PartitionSplits(h, [list[0]] + small, great, list[1..]);
      } else {
        PartitionSplits(h, small, [list[0]] + great, list[1..]);
      }
    }
  }

  lemma {:induction false} QuickSortTailPermutes(list: seq<int>)
    ensures multiset(QuickSortTail(list)) == multiset(list)
    decreases |list|
  {
    if list != [] {
      var h, tail := list[0], list[1..];
      var (small, great) := Partition(h, [], [], tail);
      PartitionSplits(h, [], [], tail);
      QuickSortTailPermutes(small);
      QuickSortTailPermutes(great);
      HeadMultiset(list);
      assert multiset(small) + multiset(great) == multiset(tail);
    }
  }

  lemma {:induction false} QuickSortTailSorts(list: seq<int>)
    ensures Ascending(QuickSortTail(list))
    decreases |list|
  {
    if list != [] {
      var h := list[0];
      var (small, great) := Partition(h, [], [], list[1..]);
      PartitionSplits(h, [], [], list[1..]);
      QuickSortTailSorts(small);
      QuickSortTailSorts(great);
      var s, g := QuickSortTail(small), QuickSortTail(great);
      QuickSortTailPermutes(small);
      QuickSortTailPermutes(great);
      SameElements(s, small);
      SameElements(g, great);
      AscendingJoin(s, h, g);
    }
  }

  lemma HeadMultiset(a: seq<int>)
    requires a != []
    ensures multiset(a) == multiset{a[0]} + multiset(a[1..])
  {
    assert a == [a[0]] + a[1..];
  }

  lemma SameElements(a: seq<int>, b: seq<int>)
    requires multiset(a) == multiset(b)
    ensures forall x :: x in a <==> x in b
  {
    forall x ensures x in a <==> x in b {
      assert x in multiset(a) <==> x in multiset(b);
    }
  }

  lemma AscendingJoin(s: seq<int>, h: int, g: seq<int>)
    requires Ascending(s) && Ascending(g)
    requires (forall x | x in s :: x < h) && (forall x | x in g :: h <= x)
    ensures Ascending(s + [h] + g)
  {
    var r := s + [h] + g;
    forall i, j | 0 <= i < j < |r| ensures r[i] <= r[j] {
      if i < |s| { assert r[i] in s; }
      if j < |s| { assert r[j] in s; }
      if i > |s| { assert r[i] in g; }
      if j > |s| { assert r[j] in g; }
    }
  }

  lemma {:induction false} AscendingIsUnique(a: seq<int>, b: seq<int>)
    requires Ascending(a) && Ascending(b) && multiset(a) == multiset(b)
    ensures a == b
    decreases |a|
  {
    assert |multiset(a)| == |a| && |multiset(b)| == |b|;
    SameElements(a, b);
    if a != [] {
      assert a[0] in b && b[0] in a;
      HeadMultiset(a);
      HeadMultiset(b);
      assert a[0] == b[0];
      TailsAgree(a, b);
      AscendingIsUnique(a[1..], b[1..]);
      assert a == [a[0]] + a[1..] && b == [b[0]] + b[1..];
    }
  }

  lemma TailsAgree(a: seq<int>, b: seq<int>)
    requires a != [] && b != [] && a[0] == b[0] && multiset(a) == multiset(b)
    ensures multiset(a[1..]) == multiset(b[1..])
  {
    HeadMultiset(a);
    HeadMultiset(b);
    assert multiset(a[1..]) == multiset(a) - multiset{a[0]};
    assert multiset(b[1..]) == multiset(b) - multiset{b[0]};
  }

  /** Although both parts come out reversed, the result is the ascending arrangement of the list. */
  lemma QuickSortTailIsTheSort(list: seq<int>, s: seq<int>)
    ensures s == QuickSortTail(list) <==> Ascending(s) && multiset(s) == multiset(list)
  {
    QuickSortTailSorts(list);
    QuickSortTailPermutes(list);
    if Ascending(s) && multiset(s) == multiset(list) {
      AscendingIsUnique(s, QuickSortTail(list));
    }
  }
}

/** The stable sort that array sorting is: insertion before the first element that is not smaller. */
module StableSort {
  function Insert<T>(le: (T, T) -> bool, x: T, s: seq<T>): (r: seq<T>)
    ensures multiset(r) == multiset{x} + multiset(s)
  {
    if s == [] then [x]
    else if le(x, s[0]) then [x] + s
    else
      assert s == [s[0]] + s[1..];
      [s[0]] + Insert(le, x, s[1..])
  }

  function Sort<T>(le: (T, T) -> bool, s: seq<T>): (r: seq<T>)
    ensures multiset(r) == multiset(s) && |r| == |s|
  {
    if s == [] then []
    else
      assert s == [s[0]] + s[1..];
      var r := Insert(le, s[0], Sort(le, s[1..]));
      assert |multiset(r)| == |r|;
      r
  }

  ghost predicate Sorted<T>(le: (T, T) -> bool, s: seq<T>) {
    forall i, j :: 0 <= i < j < |s| ==> le(s[i], s[j])
  }

  /** A comparator under which any two elements are ordered. */
  ghost predicate TotalOrder<T(!new)>(le: (T, T) -> bool) {
    && (forall a, b :: le(a, b) || le(b, a))
    && (forall a, b, c :: le(a, b) && le(b, c) ==> le(a, c))
  }

  lemma {:induction false} InsertSorted<T(!new)>(le: (T, T) -> bool, x: T, s: seq<T>)
    requires TotalOrder(le) && Sorted(le, s)
    ensures Sorted(le, Insert(le, x, s))
  {
    if s == [] {
    } else {
      if le(x, s[0]) {
      } else {
        var t := Insert(le, x, s[1..]);
        InsertSorted(le, x, s[1..]);
        forall j | 0 <= j < |t| ensures le(s[0], t[j]) {
          assert t[j] in multiset(t);
          assert t[j] == x || t[j] in s[1..];
        }
      }
    }
  }

  lemma {:induction false} SortSorted<T(!new)>(le: (T, T) -> bool, s: seq<T>)
    requires TotalOrder(le)
    ensures Sorted(le, Sort(le, s))
  {
    if s == [] {
    } else {
      SortSorted(le, s[1..]);
      InsertSorted(le, s[0], Sort(le, s[1..]));
    }
  }

  // ---------- stability ----------

  predicate Alike<T>(le: (T, T) -> bool, x: T, y: T) { le(x, y) && le(y, x) }

  function AlikeTo<T>(le: (T, T) -> bool, x: T, s: seq<T>): seq<T> {
    if s == [] then [] else (if Alike(le, x, s[0]) then [s[0]] else []) + AlikeTo(le, x, s[1..])
  }

  lemma AlikeCons<T>(le: (T, T) -> bool, z: T, x: T, s: seq<T>)
    ensures AlikeTo(le, z, [x] + s) == (if Alike(le, z, x) then [x] else []) + AlikeTo(le, z, s)
  {
    assert ([x] + s)[1..] == s;
  }

  lemma NotBothAlike<T(!new)>(le: (T, T) -> bool, x: T, y: T, z: T)
    requires TotalOrder(le) && !le(x, y)
    ensures !Alike(le, z, x) || !Alike(le, z, y)
  {
    assert le(x, z) && le(z, y) ==> le(x, y);
  }

  lemma {:induction false} InsertStable<T(!new)>(le: (T, T) -> bool, x: T, s: seq<T>, z: T)
    requires TotalOrder(le)
    ensures AlikeTo(le, z, Insert(le, x, s)) == AlikeTo(le, z, [x] + s)
  {
    hide AlikeTo, Alike, TotalOrder;
    if s == [] {
      assert [x] + s == [x];
    } else {
      if le(x, s[0]) {
      } else {
        InsertStable(le, x, s[1..], z);
        NotBothAlike(le, x, s[0], z);
        AlikeCons(le, z, s[0], Insert(le, x, s[1..]));
        AlikeCons(le, z, x, s[1..]);
        AlikeCons(le, z, x, s);
        AlikeCons(le, z, s[0], s[1..]);
        assert s == [s[0]] + s[1..];
      }
    }
  }

  /** Sorting is stable: elements that are neither smaller nor greater than each other keep their order. */
  lemma {:induction false} SortStable<T(!new)>(le: (T, T) -> bool, s: seq<T>, z: T)
    requires TotalOrder(le)
    ensures AlikeTo(le, z, Sort(le, s)) == AlikeTo(le, z, s)
  {
    hide TotalOrder;
    if s == [] {
    } else {
      SortStable(le, s[1..], z);
      InsertStable(le, s[0], Sort(le, s[1..]), z);
      AlikeCons(le, z, s[0], Sort(le, s[1..]));
    }
  }
}

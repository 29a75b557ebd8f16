/** Sorting by a total order: the result is the only arrangement of the elements that is in order. */
module Sorting {
  type Order<!T> = (T, T) -> bool

  /** What a total order promises about three elements. */
  ghost predicate OrderedAt<T(!new)>(le: Order<T>, a: T, b: T, c: T) {
    && (le(a, b) || le(b, a))
    && (le(a, b) && le(b, a) ==> a == b)
    && (le(a, b) && le(b, c) ==> le(a, c))
  }

  ghost predicate Total<T(!new)>(le: Order<T>) {
    forall a, b, c :: OrderedAt(le, a, b, c)
  }

  ghost predicate Sorted<T>(s: seq<T>, le: Order<T>) {
    forall i, j | 0 <= i < j < |s| :: le(s[i], s[j])
  }

  function Insert<T>(x: T, s: seq<T>, le: Order<T>): seq<T> {
    if s == [] || le(x, s[0]) then [x] + s else [s[0]] + Insert(x, s[1..], le)
  }

  function Sort<T>(s: seq<T>, le: Order<T>): seq<T> {
    if s == [] then [] else Insert(s[0], Sort(s[1..], le), le)
  }

  lemma {:induction false} InsertKeepsElements<T>(x: T, s: seq<T>, le: Order<T>)
    ensures multiset(Insert(x, s, le)) == multiset(s) + multiset{x}
  {
    if s != [] {
      assert s == [s[0]] + s[1..];
      InsertKeepsElements(x, s[1..], le);
    }
  }

  lemma {:induction false} InsertSorts<T(!new)>(x: T, s: seq<T>, le: Order<T>)
    requires Total(le) && Sorted(s, le)
    ensures Sorted(Insert(x, s, le), le)
  {
    if s != [] {
      assert OrderedAt(le, x, s[0], x);
      if le(x, s[0]) {
        forall i | 0 < i < |s| ensures le(x, s[i]) {
          assert OrderedAt(le, x, s[0], s[i]);
        }
      } else {
        InsertSorts(x, s[1..], le);
        InsertKeepsElements(x, s[1..], le);
        var rest := Insert(x, s[1..], le);
        forall i | 0 <= i < |rest| ensures le(s[0], rest[i]) {
          assert rest[i] in multiset(rest);
        }
      }
    }
  }

  lemma {:induction false} SortSorts<T(!new)>(s: seq<T>, le: Order<T>)
    requires Total(le)
    ensures Sorted(Sort(s, le), le) && multiset(Sort(s, le)) == multiset(s)
  {
    if s != [] {
      SortSorts(s[1..], le);
      InsertSorts(s[0], Sort(s[1..], le), le);
      InsertKeepsElements(s[0], Sort(s[1..], le), le);
      assert s == [s[0]] + s[1..];
    }
  }

  lemma HeadIsLeast<T(!new)>(s: seq<T>, x: T, le: Order<T>)
    requires Total(le) && Sorted(s, le) && x in s
    ensures le(s[0], x)
  {
    assert OrderedAt(le, x, x, x);
  }

  lemma SortedHeadsAgree<T(!new)>(a: seq<T>, b: seq<T>, le: Order<T>)
    requires Total(le) && a != [] && Sorted(a, le) && Sorted(b, le) && multiset(a) == multiset(b)
    ensures b != [] && a[0] == b[0]
  {
    assert a[0] in multiset(b);
    assert b[0] in multiset(a);
    HeadIsLeast(b, a[0], le);
    HeadIsLeast(a, b[0], le);
    assert OrderedAt(le, a[0], b[0], a[0]);
  }

  lemma TailElements<T>(s: seq<T>)
    requires s != []
    ensures s == [s[0]] + s[1..] && multiset(s[1..]) == multiset(s) - multiset{s[0]}
  {
    assert s == [s[0]] + s[1..];
  }

  lemma {:induction false} SortedIsUnique<T(!new)>(a: seq<T>, b: seq<T>, le: Order<T>)
    requires Total(le) && Sorted(a, le) && Sorted(b, le) && multiset(a) == multiset(b)
    ensures a == b
  {
    if a == [] {
      assert |multiset(b)| == 0;
    } else {
      SortedHeadsAgree(a, b, le);
      TailElements(a);
      TailElements(b);
      SortedIsUnique(a[1..], b[1..], le);
    }
  }

  /** Sorting gives the one and only arrangement of the elements that is in order. */
  lemma SortIsTheListing<T(!new)>(s: seq<T>, listing: seq<T>, le: Order<T>)
    requires Total(le)
    ensures listing == Sort(s, le) <==> multiset(listing) == multiset(s) && Sorted(listing, le)
  {
    SortSorts(s, le);
    if multiset(listing) == multiset(s) && Sorted(listing, le) {
      SortedIsUnique(listing, Sort(s, le), le);
    }
  }

  /// ## Strings

  /** The order in which Python sorts strings. */
  predicate AtMost(a: string, b: string) {
    a == "" || (b != "" && (a[0] < b[0] || (a[0] == b[0] && AtMost(a[1..], b[1..]))))
  }

  lemma {:induction false} AtMostTotal(a: string, b: string)
    ensures AtMost(a, b) || AtMost(b, a)
  {
    if a != "" && b != "" && a[0] == b[0] {
      AtMostTotal(a[1..], b[1..]);
    }
  }

  lemma {:induction false} AtMostAntisymmetric(a: string, b: string)
    requires AtMost(a, b) && AtMost(b, a)
    ensures a == b
  {
    if a != "" {
      AtMostAntisymmetric(a[1..], b[1..]);
      assert a == [a[0]] + a[1..] && b == [b[0]] + b[1..];
    }
  }

  lemma {:induction false} AtMostTransitive(a: string, b: string, c: string)
    requires AtMost(a, b) && AtMost(b, c)
    ensures AtMost(a, c)
  {
    if a != "" && a[0] == b[0] == c[0] {
      AtMostTransitive(a[1..], b[1..], c[1..]);
    }
  }

  lemma AtMostIsTotal()
    ensures Total(AtMost)
  {
    forall a, b, c ensures OrderedAt(AtMost, a, b, c) {
      AtMostTotal(a, b);
      if AtMost(a, b) && AtMost(b, a) {
        AtMostAntisymmetric(a, b);
      }
      if AtMost(a, b) && AtMost(b, c) {
        AtMostTransitive(a, b, c);
      }
    }
  }
}

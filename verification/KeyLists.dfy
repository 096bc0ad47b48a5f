// The project and source lists of a new API key, sorted(set(...)) in panda_trace/store.py.
module KeyLists {
  import opened Base
  import opened StoreModel

  // Code point order: the first difference decides, and a prefix comes first.
  ghost predicate Less(a: string, b: string) {
    exists i :: DiffersAt(a, b, i)
  }

  predicate DiffersAt(a: string, b: string, i: int) {
    0 <= i <= |a| && i < |b| && a[..i] == b[..i] && (i == |a| || a[i] < b[i])
  }

  lemma {:induction false} BeforeIff(a: string, b: string)
    ensures Before(a, b) <==> Less(a, b)
  {
    if a != "" && b != "" {
      BeforeIff(a[1..], b[1..]);
      if a[0] == b[0] {
        if i :| DiffersAt(a[1..], b[1..], i) {
          assert a[..i + 1] == [a[0]] + a[1..][..i] && b[..i + 1] == [b[0]] + b[1..][..i];
          assert DiffersAt(a, b, i + 1);
        }
        if i :| DiffersAt(a, b, i) {
          assert a[1..][..i - 1] == a[..i][1..] && b[1..][..i - 1] == b[..i][1..];
          assert DiffersAt(a[1..], b[1..], i - 1);
        }
      } else {
        assert a[0] < b[0] ==> DiffersAt(a, b, 0);
        if i :| DiffersAt(a, b, i) {
          assert i > 0 ==> a[..i][0] == b[..i][0];
        }
      }
    } else if b != "" {
      assert DiffersAt(a, b, 0);
    }
  }

  lemma {:induction false} BeforeOrAfter(a: string, b: string)
    ensures a == b || Before(a, b) || Before(b, a)
  {
    if a != "" && b != "" {
      BeforeOrAfter(a[1..], b[1..]);
      assert a == [a[0]] + a[1..] && b == [b[0]] + b[1..];
    }
  }

  lemma {:induction false} BeforeTransitive(a: string, b: string, c: string)
    requires Before(a, b) && Before(b, c)
    ensures Before(a, c)
  {
    if a != "" && a[0] == b[0] == c[0] {
      BeforeTransitive(a[1..], b[1..], c[1..]);
    }
  }

  predicate Ascending(xs: seq<string>) {
    forall i, j :: 0 <= i < j < |xs| ==> Before(xs[i], xs[j])
  }

  lemma {:induction false} InsertedAscends(x: string, xs: seq<string>)
    requires Ascending(xs)
    ensures Ascending(InsertSorted(x, xs))
  {
    hide Before;
    if xs != [] && x != xs[0] {
      if Before(x, xs[0]) {
        forall i | 0 <= i < |xs|
          ensures Before(x, xs[i])
        {
          if i > 0 {
            BeforeTransitive(x, xs[0], xs[i]);
          }
        }
      } else {
        BeforeOrAfter(x, xs[0]);
        InsertedAscends(x, xs[1..]);
        var rest := InsertSorted(x, xs[1..]);
        forall i | 0 <= i < |rest|
          ensures Before(xs[0], rest[i])
        {
          assert rest[i] in rest;
        }
      }
    }
  }

  lemma {:induction false} SortedUniqueAscends(xs: seq<string>)
    ensures Ascending(SortedUnique(xs))
  {
    if xs != [] {
      SortedUniqueAscends(xs[1..]);
      InsertedAscends(xs[0], SortedUnique(xs[1..]));
    }
  }

  // The list of a key holds what was asked for, in code point order, each once.
  lemma SortedUniqueIs(xs: seq<string>)
    ensures forall x :: x in SortedUnique(xs) <==> x in xs
    ensures forall i, j :: 0 <= i < j < |SortedUnique(xs)| ==> Less(SortedUnique(xs)[i], SortedUnique(xs)[j])
  {
    SortedUniqueAscends(xs);
    hide SortedUnique, Before, Less;
    var r := SortedUnique(xs);
    forall i, j | 0 <= i < j < |r|
      ensures Less(r[i], r[j])
    {
      BeforeIff(r[i], r[j]);
    }
  }
}

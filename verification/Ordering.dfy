/** Go's string order, and sorting as the one canonical listing of a set. */
module Ordering {
  import opened Text

  // Strict lexicographic order by rune, which is also the byte order of UTF-8.
  predicate Less(a: string, b: string)
    decreases |b|
  {
    b != "" && (a == "" || a[0] < b[0] || (a[0] == b[0] && Less(a[1..], b[1..])))
  }

  lemma {:induction false} LessTotal(a: string, b: string)
    ensures Less(a, b) || a == b || Less(b, a)
    ensures Less(a, b) ==> a != b && !Less(b, a)
    decreases |a|
  {
    if a != "" && b != "" && a[0] == b[0] {
      LessTotal(a[1..], b[1..]);
      assert a == [a[0]] + a[1..] && b == [b[0]] + b[1..];
    }
  }

  lemma {:induction false} LessTransitive(a: string, b: string, c: string)
    requires Less(a, b) && Less(b, c)
    ensures Less(a, c)
    decreases |a|
  {
    if a != "" && a[0] == b[0] == c[0] {
      LessTransitive(a[1..], b[1..], c[1..]);
    }
  }

  lemma NotLess(x: string, y: string, z: string)
    requires Less(x, y) && !Less(z, y)
    ensures !Less(z, x)
  {
    if Less(z, x) {
      LessTransitive(z, x, y);
    }
  }

  // In front: a goes on in b, or is smaller where they first differ.
  predicate FirstDiffers(a: string, b: string, i: int) {
    0 <= i <= |a| && i < |b| && a[..i] == b[..i] && (i == |a| || a[i] < b[i])
  }

  lemma {:induction false} LessMeaning(a: string, b: string)
    ensures Less(a, b) <==> exists i :: FirstDiffers(a, b, i)
    decreases |b|
  {
    if b != "" && (a == "" || a[0] < b[0]) {
      assert FirstDiffers(a, b, 0);
    } else if a != "" && b != "" && a[0] == b[0] {
      LessMeaning(a[1..], b[1..]);
      if i :| FirstDiffers(a[1..], b[1..], i) {
        assert a[..i + 1] == [a[0]] + a[1..][..i] && b[..i + 1] == [b[0]] + b[1..][..i];
        assert FirstDiffers(a, b, i + 1);
      }
      if i :| FirstDiffers(a, b, i) {
        assert i > 0 && a[1..][..i - 1] == a[..i][1..] && b[1..][..i - 1] == b[..i][1..];
        assert FirstDiffers(a[1..], b[1..], i - 1);
      }
    }
  }

  predicate Sorted(s: seq<string>) {
    forall i, j | 0 <= i < j < |s| :: !Less(s[j], s[i])
  }

  function Insert(x: string, s: seq<string>): seq<string> {
    if s == [] || Less(x, s[0]) then [x] + s else [s[0]] + Insert(x, s[1..])
  }

  // slices.Sort
  function Sort(s: seq<string>): seq<string> {
    if s == [] then [] else Insert(s[0], Sort(s[1..]))
  }

  lemma {:induction false} InsertSorted(x: string, s: seq<string>)
    requires Sorted(s)
    ensures Sorted(Insert(x, s)) && multiset(Insert(x, s)) == multiset{x} + multiset(s)
  {
    if s == [] {
    } else if Less(x, s[0]) {
      forall j | 0 <= j < |s| ensures !Less(s[j], x) {
        LessTotal(x, s[0]);
        LessTotal(s[0], s[0]);
        NotLess(x, s[0], s[j]);
      }
    } else {
      InsertSorted(x, s[1..]);
      var t := Insert(x, s[1..]);
      assert s == [s[0]] + s[1..];
      forall j | 0 <= j < |t| ensures !Less(t[j], s[0]) {
        assert t[j] in multiset(t);
        assert t[j] == x || t[j] in s[1..];
        if t[j] != x {
          var k :| 0 <= k < |s[1..]| && s[1..][k] == t[j];
          assert s[k + 1] == t[j];
        }
      }
    }
  }

  lemma {:induction false} SortSorts(s: seq<string>)
    ensures Sorted(Sort(s)) && multiset(Sort(s)) == multiset(s)
  {
    if s != [] {
      SortSorts(s[1..]);
      InsertSorted(s[0], Sort(s[1..]));
      assert s == [s[0]] + s[1..];
    }
  }

  // The head of a sorted sequence is below every element.
  /** Sorting gives the same strings, each equal to the next, or smaller where they first differ. */
  lemma SortMeaning(s: seq<string>, i: nat, j: nat)
    requires i < j < |Sort(s)|
    ensures multiset(Sort(s)) == multiset(s)
    ensures Sort(s)[i] == Sort(s)[j] || exists k :: FirstDiffers(Sort(s)[i], Sort(s)[j], k)
  {
    SortSorts(s);
    LessTotal(Sort(s)[i], Sort(s)[j]);
    LessMeaning(Sort(s)[i], Sort(s)[j]);
  }

  lemma HeadLeast(s: seq<string>, x: string)
    requires Sorted(s) && x in s
    ensures !Less(x, s[0])
  {
    var k :| 0 <= k < |s| && s[k] == x;
    LessTotal(x, x);
    assert k > 0 ==> !Less(s[k], s[0]);
  }

  lemma SortedHeads(a: seq<string>, b: seq<string>)
    requires Sorted(a) && Sorted(b) && a != [] && multiset(a) == multiset(b)
    ensures b != [] && a[0] == b[0]
  {
    assert |b| == |multiset(b)| == |multiset(a)| > 0;
    assert a[0] in multiset(b) && b[0] in multiset(a);
    HeadLeast(a, b[0]);
    HeadLeast(b, a[0]);
    LessTotal(a[0], b[0]);
  }

  // Two sorted sequences with the same elements are the same sequence.
  lemma {:induction false} SortedUnique(a: seq<string>, b: seq<string>)
    requires Sorted(a) && Sorted(b) && multiset(a) == multiset(b)
    ensures a == b
    decreases |a|
  {
    if a == [] {
      assert |b| == |multiset(b)| == 0;
    } else {
      SortedHeads(a, b);
      TailMultiset(a);
      TailMultiset(b);
      SortedUnique(a[1..], b[1..]);
      assert a == [a[0]] + a[1..] && b == [b[0]] + b[1..];
    }
  }

  lemma TailMultiset(s: seq<string>)
    requires s != []
    ensures multiset(s[1..]) == multiset(s) - multiset{s[0]}
  {
    assert s == [s[0]] + s[1..];
  }

  /** Sorting forgets the order its input came in. */
  lemma SortPermutation(a: seq<string>, b: seq<string>)
    requires multiset(a) == multiset(b)
    ensures Sort(a) == Sort(b)
  {
    SortSorts(a);
    SortSorts(b);
    SortedUnique(Sort(a), Sort(b));
  }

  // ---- a set's listing ------------------------------------------------------------------------

  ghost predicate Lists(l: seq<string>, s: set<string>) {
    NoDuplicates(l) && forall x :: x in l <==> x in s
  }

  ghost function Enumerate(s: set<string>): seq<string> {
    if s == {} then [] else var x :| x in s; [x] + Enumerate(s - {x})
  }

  /** The elements of `s` in increasing order. */
  ghost function Listing(s: set<string>): seq<string> {
    Sort(Enumerate(s))
  }

  lemma {:induction false} EnumerateLists(s: set<string>)
    ensures Lists(Enumerate(s), s)
  {
    if s != {} {
      var e := Enumerate(s);
      EnumerateLists(s - {e[0]});
      assert e[1..] == Enumerate(s - {e[0]});
      assert forall x :: x in e <==> x == e[0] || x in e[1..];
    }
  }

  lemma {:induction false} ListsMultiset(l: seq<string>, s: set<string>)
    requires Lists(l, s)
    ensures multiset(l) == multiset(s)
    decreases |l|
  {
    if l == [] {
      assert s == {};
    } else {
      assert l == [l[0]] + l[1..];
      assert forall x :: x in l <==> x == l[0] || x in l[1..];
      ListsMultiset(l[1..], s - {l[0]});
      assert multiset(s) == multiset{l[0]} + multiset(s - {l[0]});
    }
  }

  lemma MultisetNoDuplicates(l: seq<string>, s: set<string>)
    requires multiset(l) == multiset(s)
    ensures Lists(l, s)
  {
    forall x ensures x in l <==> x in s {
      assert x in l <==> x in multiset(l);
    }
    forall i, j | 0 <= i < j < |l| ensures l[i] != l[j] {
      assert l == l[..j] + [l[j]] + l[j + 1..];
      assert l[i] in l[..j];
      assert multiset(l)[l[j]] == multiset(l[..j])[l[j]] + 1 + multiset(l[j + 1..])[l[j]];
      assert multiset(s)[l[j]] <= 1;
    }
  }

  lemma ListingLists(s: set<string>)
    ensures Lists(Listing(s), s) && Sorted(Listing(s))
  {
    EnumerateLists(s);
    ListsMultiset(Enumerate(s), s);
    SortSorts(Enumerate(s));
    MultisetNoDuplicates(Listing(s), s);
  }

  /** Sorting any duplicate-free enumeration of a set gives the set's one listing. */
  lemma SortLists(l: seq<string>, s: set<string>)
    requires Lists(l, s)
    ensures Sort(l) == Listing(s)
  {
    ListsMultiset(l, s);
    EnumerateLists(s);
    ListsMultiset(Enumerate(s), s);
    SortPermutation(l, Enumerate(s));
  }

  lemma ListsAppend(l: seq<string>, s: set<string>, x: string)
    requires Lists(l, s) && x !in s
    ensures Lists(l + [x], s + {x})
  {
  }

  // The Go idiom `for k := range m { if p(k) { out = append(out, k) } }`, in whatever order.
  method Collect(keys: set<string>, p: string --> bool) returns (out: seq<string>)
    requires forall k | k in keys :: p.requires(k)
    ensures Lists(out, set k | k in keys && p(k))
  {
    out := [];
    var todo := keys;
    ghost var kept := {};
    while todo != {}
      invariant todo <= keys
      invariant Lists(out, kept)
      invariant forall k :: k in kept <==> k in keys && k !in todo && p(k)
      decreases todo
    {
      var k :| k in todo;
      todo := todo - {k};
      if p(k) {
        ListsAppend(out, kept, k);
        out, kept := out + [k], kept + {k};
      }
    }
    assert kept == set k | k in keys && p(k);
  }
}

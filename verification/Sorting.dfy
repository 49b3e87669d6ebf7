/** Sorting strings, by character codes. */
module Sorting {

  predicate Leq(a: string, b: string) {
    a == "" || (b != "" && (a[0] < b[0] || (a[0] == b[0] && Leq(a[1..], b[1..]))))
  }

  lemma {:induction false} LeqIsTotal(a: string, b: string)
    ensures Leq(a, b) || Leq(b, a)
  {
    if a != "" && b != "" {
      LeqIsTotal(a[1..], b[1..]);
    }
  }

  lemma {:induction false} LeqIsAntisymmetric(a: string, b: string)
    requires Leq(a, b) && Leq(b, a)
    ensures a == b
  {
    if a != "" {
      LeqIsAntisymmetric(a[1..], b[1..]);
      assert a == [a[0]] + a[1..] && b == [b[0]] + b[1..];
    }
  }

  lemma {:induction false} LeqIsTransitive(a: string, b: string, c: string)
    requires Leq(a, b) && Leq(b, c)
    ensures Leq(a, c)
  {
    if a != "" && a[0] == b[0] == c[0] {
      LeqIsTransitive(a[1..], b[1..], c[1..]);
    }
  }

  predicate IsSorted(s: seq<string>) {
    forall i, j | 0 <= i < j < |s| :: Leq(s[i], s[j])
  }

  function Insert(x: string, s: seq<string>): (r: seq<string>)
    requires IsSorted(s)
    ensures multiset(r) == multiset(s) + multiset{x} && IsSorted(r)
  {
    if s == [] then [x]
    else
      LeqIsTotal(x, s[0]);
      assert s == [s[0]] + s[1..];
      if Leq(x, s[0]) then
        FirstIsLeast(x, s);
        [x] + s
      else
        var rest := Insert(x, s[1..]);
        SmallerHead(s[0], rest, x, s[1..]);
        [s[0]] + rest
  }

  lemma FirstIsLeast(x: string, s: seq<string>)
    requires s != [] && IsSorted(s) && Leq(x, s[0])
    ensures IsSorted([x] + s)
  {
    forall j | 0 <= j < |s| ensures Leq(x, s[j]) {
      if j > 0 {
        LeqIsTransitive(x, s[0], s[j]);
      }
    }
  }

  lemma SmallerHead(head: string, rest: seq<string>, x: string, s: seq<string>)
    requires IsSorted(rest) && multiset(rest) == multiset(s) + multiset{x} && Leq(head, x)
    requires forall j | 0 <= j < |s| :: Leq(head, s[j])
    ensures IsSorted([head] + rest)
  {
    forall j | 0 <= j < |rest| ensures Leq(head, rest[j]) {
      assert rest[j] in multiset(rest);
      if rest[j] != x {
        assert rest[j] in multiset(s);
      }
    }
  }

  function Sorted(s: seq<string>): (r: seq<string>)
    ensures multiset(r) == multiset(s) && IsSorted(r)
  {
    if s == [] then []
    else
      assert s == [s[0]] + s[1..];
      Insert(s[0], Sorted(s[1..]))
  }

  lemma HeadIsLeast(s: seq<string>, x: string)
    requires IsSorted(s) && x in s
    ensures x == s[0] || Leq(s[0], x)
  {
    var i :| 0 <= i < |s| && s[i] == x;
  }

  lemma HeadsAgree(a: seq<string>, b: seq<string>)
    requires IsSorted(a) && IsSorted(b) && multiset(a) == multiset(b) && a != [] && b != []
    ensures a[0] == b[0]
  {
    assert a[0] in multiset(b) && b[0] in multiset(a);
    HeadIsLeast(b, a[0]);
    HeadIsLeast(a, b[0]);
    if a[0] != b[0] {
      LeqIsAntisymmetric(a[0], b[0]);
    }
  }

  lemma {:induction false} SortedIsUnique(a: seq<string>, b: seq<string>)
    requires IsSorted(a) && IsSorted(b) && multiset(a) == multiset(b)
    ensures a == b
  {
    assert |a| == |multiset(a)| == |b|;
    if a != [] {
      HeadsAgree(a, b);
      assert a == [a[0]] + a[1..] && b == [b[0]] + b[1..];
      assert multiset(a[1..]) == multiset(a) - multiset{a[0]} == multiset(b[1..]);
      SortedIsUnique(a[1..], b[1..]);
    }
  }

  /** Sorting tells two lists apart exactly by their multisets. */
  lemma SortedComparesMultisets(a: seq<string>, b: seq<string>)
    ensures Sorted(a) == Sorted(b) <==> multiset(a) == multiset(b)
  {
    if multiset(a) == multiset(b) {
      SortedIsUnique(Sorted(a), Sorted(b));
    }
  }
}

/** The two array updates the like/unlike toggle makes on a document's id
    list: Mongoose's `push`, which appends, and `pull`, which removes every
    element equal to the argument. */
module Lists {

  /** `list.pull(x)`: the list without any occurrence of `x`, the other
      elements in their original order. */
  function Pull(s: seq<string>, x: string): (r: seq<string>)
    ensures x !in r
    ensures x !in s ==> r == s
  {
    if s == [] then []
    else
      var rest := Pull(s[1..], x);
      assert s == [s[0]] + s[1..];
      if s[0] == x then rest else [s[0]] + rest
  }

  /** `pull` works element by element, so it keeps relative order: pulling
      from a concatenation is concatenating the pulled parts. */
  lemma {:induction false} PullConcat(a: seq<string>, b: seq<string>, x: string)
    ensures Pull(a + b, x) == Pull(a, x) + Pull(b, x)
  {
    if a == [] {
      assert a + b == b;
    } else {
      assert (a + b)[1..] == a[1..] + b;
      PullConcat(a[1..], b, x);
    }
  }

  /** `pull` undoes a `push` of an element the list did not hold. */
  lemma PullUndoesPush(s: seq<string>, x: string)
    requires x !in s
    ensures Pull(s + [x], x) == s
  {
    PullConcat(s, [x], x);
  }

  /** `pull` removes exactly the occurrences of `x`: every other element
      keeps its number of occurrences. */
  lemma {:induction false} PullCounts(s: seq<string>, x: string)
    ensures forall y :: y != x ==> multiset(Pull(s, x))[y] == multiset(s)[y]
    ensures |Pull(s, x)| == |s| - multiset(s)[x]
  {
    if s != [] {
      PullCounts(s[1..], x);
      assert s == [s[0]] + s[1..];
    }
  }

  /** An element survives `pull(x)` exactly when it was in the list and is
      not `x`: nothing new appears, and every other element stays. */
  lemma {:induction false} PullSubset(s: seq<string>, x: string, y: string)
    ensures y in Pull(s, x) <==> y in s && y != x
  {
    if s != [] {
      PullSubset(s[1..], x, y);
      assert s == [s[0]] + s[1..];
    }
  }

  /** A list with no repeated element. */
  predicate NoDuplicates(s: seq<string>) {
    forall i, j :: 0 <= i < j < |s| ==> s[i] != s[j]
  }

  /** Pulling from a list without duplicates leaves one without duplicates. */
  lemma {:induction false} PullNoDuplicates(s: seq<string>, x: string)
    requires NoDuplicates(s)
    ensures NoDuplicates(Pull(s, x))
  {
    if s != [] {
      assert NoDuplicates(s[1..]);
      PullNoDuplicates(s[1..], x);
      PullSubset(s[1..], x, s[0]);
      var rest := Pull(s[1..], x);
      if s[0] != x {
        assert s[0] !in s[1..];
        assert s[0] !in rest;
        assert Pull(s, x) == [s[0]] + rest;
      }
    }
  }
}

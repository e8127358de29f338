/** LINQ's `Where(...).ToArray()`: order-preserving selection from a sequence. */
module Seqs {

  /**
   * The selection as it runs, item by item from the front. `Filter` is this
   * with its contract; proofs by induction work on this form so that the
   * contract's quantifiers stay out of them.
   */
  function Select<T>(s: seq<T>, p: T -> bool): seq<T>
  {
    if s == [] then [] else (if p(s[0]) then [s[0]] else []) + Select(s[1..], p)
  }

  lemma {:induction false} SelectKeeps<T(!new)>(s: seq<T>, p: T -> bool)
    ensures |Select(s, p)| <= |s|
    ensures forall x :: x in Select(s, p) <==> x in s && p(x)
    ensures Select(s, p) == [] <==> forall i :: 0 <= i < |s| ==> !p(s[i])
  {
    if s != [] {
      SelectKeeps(s[1..], p);
      assert s == [s[0]] + s[1..];
      assert forall i :: 1 <= i < |s| ==> s[i] == s[1..][i - 1];
    }
  }

  function Filter<T(!new)>(s: seq<T>, p: T -> bool): (r: seq<T>)
    ensures |r| <= |s|
    ensures forall x :: x in r <==> x in s && p(x)
    ensures r == [] <==> forall i :: 0 <= i < |s| ==> !p(s[i])
  {
    SelectKeeps(s, p);
    Select(s, p)
  }

  lemma {:induction false} SelectAppend<T>(a: seq<T>, b: seq<T>, p: T -> bool)
    ensures Select(a + b, p) == Select(a, p) + Select(b, p)
  {
    if a == [] {
      assert a + b == b;
    } else {
      var head := if p(a[0]) then [a[0]] else [];
      assert (a + b)[0] == a[0] && (a + b)[1..] == a[1..] + b;
      SelectAppend(a[1..], b, p);
      assert head + (Select(a[1..], p) + Select(b, p)) == (head + Select(a[1..], p)) + Select(b, p);
    }
  }

  /** Selecting from a concatenation selects from each part, in order. */
  lemma FilterAppend<T(!new)>(a: seq<T>, b: seq<T>, p: T -> bool)
    ensures Filter(a + b, p) == Filter(a, p) + Filter(b, p)
  {
    SelectAppend(a, b, p);
  }

  /** Selecting after one more item: the selection so far, then the item if it is kept, so order is preserved. */
  lemma FilterSnoc<T(!new)>(s: seq<T>, x: T, p: T -> bool)
    ensures Filter(s + [x], p) == Filter(s, p) + (if p(x) then [x] else [])
  {
    SelectAppend(s, [x], p);
    assert [x][1..] == [];
  }

  lemma {:induction false} SelectMultiplicity<T>(s: seq<T>, p: T -> bool, x: T)
    ensures multiset(Select(s, p))[x] == (if p(x) then multiset(s)[x] else 0)
  {
    if s != [] {
      SelectMultiplicity(s[1..], p, x);
      assert s == [s[0]] + s[1..];
    }
  }

  /** Every kept item occurs as often as in the input, and no other item occurs at all. */
  lemma FilterMultiplicity<T(!new)>(s: seq<T>, p: T -> bool, x: T)
    ensures multiset(Filter(s, p))[x] == (if p(x) then multiset(s)[x] else 0)
  {
    SelectMultiplicity(s, p, x);
  }
}

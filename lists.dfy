/**
 * List difference with the semantics of java.util.List.removeAll, and the
 * mutable list (an ArrayList) on which the group bean performs it.
 */
module Lists {

  /** The set of elements of a list. */
  function Elements(s: seq<string>): (r: set<string>)
  {
    set x | x in s
  }

  /**
   * What remains of xs after xs.removeAll(ys): every element of xs that does
   * not occur in ys, in the order of xs, with its duplicates.
   */
  function Difference(xs: seq<string>, ys: seq<string>): (r: seq<string>)
    ensures |r| <= |xs|
  {
    if xs == [] then []
    else (if xs[0] in ys then [] else [xs[0]]) + Difference(xs[1..], ys)
  }

  /** Difference works element by element: it distributes over concatenation. */
  lemma {:induction false} DifferenceConcat(a: seq<string>, b: seq<string>, ys: seq<string>)
    ensures Difference(a + b, ys) == Difference(a, ys) + Difference(b, ys)
  {
    if a == [] {
      assert a + b == b;
    } else {
      assert (a + b)[0] == a[0];
      assert (a + b)[1..] == a[1..] + b;
      DifferenceConcat(a[1..], b, ys);
    }
  }

  /** Appending one element to xs appends it to the difference unless ys holds it. */
  lemma {:induction false} DifferenceAppend(xs: seq<string>, x: string, ys: seq<string>)
    ensures Difference(xs + [x], ys) == Difference(xs, ys) + (if x in ys then [] else [x])
  {
    DifferenceConcat(xs, [x], ys);
    assert [x][1..] == [];
  }

  /**
   * Duplicates are kept: an element of ys is gone altogether, any other
   * element occurs exactly as often as in xs.
   */
  lemma {:induction false} DifferenceMultiplicity(xs: seq<string>, ys: seq<string>, x: string)
    ensures multiset(Difference(xs, ys))[x] == if x in ys then 0 else multiset(xs)[x]
  {
    if xs != [] {
      DifferenceMultiplicity(xs[1..], ys, x);
      assert xs == [xs[0]] + xs[1..];
    }
  }

  /** An element is left in the difference exactly when xs holds it and ys does not. */
  lemma {:induction false} DifferenceMembership(xs: seq<string>, ys: seq<string>, x: string)
    ensures x in Difference(xs, ys) <==> x in xs && x !in ys
  {
    DifferenceMultiplicity(xs, ys, x);
    assert x in Difference(xs, ys) <==> x in multiset(Difference(xs, ys));
    assert x in xs <==> x in multiset(xs);
  }

  /** As sets, the difference of lists is the difference of their element sets. */
  lemma {:induction false} DifferenceElements(xs: seq<string>, ys: seq<string>)
    ensures Elements(Difference(xs, ys)) == Elements(xs) - Elements(ys)
  {
    forall x ensures x in Elements(Difference(xs, ys)) <==> x in Elements(xs) - Elements(ys) {
      DifferenceMembership(xs, ys, x);
    }
  }

  /** The difference is empty exactly when every element of xs occurs in ys. */
  lemma {:induction false} DifferenceEmpty(xs: seq<string>, ys: seq<string>)
    ensures Difference(xs, ys) == [] <==> Elements(xs) <= Elements(ys)
  {
    DifferenceElements(xs, ys);
    var d := Difference(xs, ys);
    if d == [] {
      forall x | x in Elements(xs) ensures x in Elements(ys) {
        assert x !in Elements(d);
      }
    } else {
      assert d[0] in Elements(d);
    }
  }

  /** s is obtained from t by deleting elements, the rest keeping their order. */
  predicate Subsequence(s: seq<string>, t: seq<string>)
  {
    if s == [] then true
    else if t == [] then false
    else (s[0] == t[0] && Subsequence(s[1..], t[1..])) || Subsequence(s, t[1..])
  }

  /** The difference keeps the order of xs: it is a subsequence of xs. */
  lemma {:induction false} DifferenceSubsequence(xs: seq<string>, ys: seq<string>)
    ensures Subsequence(Difference(xs, ys), xs)
  {
    if xs != [] {
      DifferenceSubsequence(xs[1..], ys);
      var d := Difference(xs, ys);
      if xs[0] !in ys {
        assert d[0] == xs[0] && d[1..] == Difference(xs[1..], ys);
      } else {
        assert d == Difference(xs[1..], ys);
      }
    }
  }

  /** Removing elements none of which occur leaves the list as it was. */
  lemma {:induction false} DifferenceOfDisjoint(xs: seq<string>, ys: seq<string>)
    requires Elements(xs) !! Elements(ys)
    ensures Difference(xs, ys) == xs
  {
    if xs != [] {
      assert xs[0] in Elements(xs);
      assert Elements(xs[1..]) <= Elements(xs);
      DifferenceOfDisjoint(xs[1..], ys);
      assert xs == [xs[0]] + xs[1..];
    }
  }

  /** A resizable list of elements that its owner updates in place (a java.util.ArrayList). */
  class ArrayList {
    var elements: seq<string>

    /** A fresh list holding a copy of source (Lists.newArrayList(source)). */
    constructor (source: seq<string>)
      ensures elements == source
    {
      elements := source;
    }

    /** Removes from this list, in place, every element that occurs in c. */
    method RemoveAll(c: seq<string>)
      modifies this
      ensures elements == Difference(old(elements), c)
    {
      var kept: seq<string> := [];
      var i := 0;
      while i < |elements|
        invariant 0 <= i <= |elements|
        invariant elements == old(elements)
        invariant kept == Difference(elements[..i], c)
      {
        assert elements[..i + 1] == elements[..i] + [elements[i]];
        DifferenceAppend(elements[..i], elements[i], c);
        if elements[i] !in c {
          kept := kept + [elements[i]];
        }
        i := i + 1;
      }
      assert elements[..i] == elements;
      elements := kept;
    }
  }
}

/**
 * Case-insensitive string comparison (`StringComparer.OrdinalIgnoreCase`) and the
 * case-insensitive string set (`HashSet<string>` built with that comparer).
 */
module CaseFold {

  /** Folds one character: the ASCII capitals become lower case, every other character is kept. */
  function FoldChar(c: char): char
  {
    if 'A' <= c <= 'Z' then (c as int + 32) as char else c
  }

  /** The normal form under which two strings compare equal ignoring case. */
  function Fold(s: string): (r: string)
    ensures |r| == |s|
  {
    if s == [] then [] else [FoldChar(s[0])] + Fold(s[1..])
  }

  /** Folding twice is folding once, so folded keys are their own normal form. */
  lemma {:induction false} FoldIdempotent(s: string)
    ensures Fold(Fold(s)) == Fold(s)
  {
    if s != [] {
      var t := Fold(s);
      assert t == [FoldChar(s[0])] + Fold(s[1..]);
      assert t[1..] == Fold(s[1..]);
      FoldIdempotent(s[1..]);
    }
  }

  /**
   * A case-insensitive set of strings: the members in the order they were first added,
   * each kept with the spelling it was added with.
   */
  datatype CiSet = CiSet(items: seq<string>)
  {
    /** The folded forms of the members: what membership is decided on. */
    function Keys(): set<string>
    {
      set x | x in items :: Fold(x)
    }

    /** `HashSet.Contains` under OrdinalIgnoreCase. */
    predicate Contains(k: string): (found: bool)
      ensures found <==> exists x :: x in items && Fold(x) == Fold(k)
      ensures k in items ==> found
    {
      Fold(k) in Keys()
    }

    /** No two members are equal ignoring case. */
    predicate NoCaseDuplicates()
    {
      forall i, j :: 0 <= i < j < |items| ==> Fold(items[i]) != Fold(items[j])
    }

    /** `HashSet.Add`: a string already present ignoring case leaves the set as it is. */
    function Add(s: string): (r: CiSet)
      ensures r.Keys() == Keys() + {Fold(s)}
      ensures r.Contains(s)
      ensures forall k :: r.Contains(k) <==> Contains(k) || Fold(k) == Fold(s)
      ensures NoCaseDuplicates() ==> r.NoCaseDuplicates()
    {
      if Contains(s) then this
      else
        var r := CiSet(items + [s]);
        assert forall i :: 0 <= i < |items| ==> items[i] in items;
        assert r.Keys() == Keys() + {Fold(s)} by {
          forall y | y in r.Keys() ensures y in Keys() + {Fold(s)} {
            var x :| x in items + [s] && Fold(x) == y;
            if x != s { assert x in items; }
          }
        }
        r
    }
  }

  /** Asking a set for the folded form of a string is asking it for the string itself. */
  lemma ContainsFolded(s: CiSet, k: string)
    ensures s.Contains(Fold(k)) <==> s.Contains(k)
  {
    FoldIdempotent(k);
  }

  /** A freshly constructed set. */
  const Empty := CiSet([])
}

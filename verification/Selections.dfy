// Order-preserving selections from a sequence: without repeats, by a condition, the first few.

module Selections {
  function Distinct<T(==)>(s: seq<T>): seq<T> {
    if s == [] then []
    else
      var r := Distinct(s[..|s|-1]);
      if s[|s|-1] in r then r else r + [s[|s|-1]]
  }

  function Chosen<T>(s: seq<T>, p: T -> bool): seq<T> {
    if s == [] then [] else if p(s[|s|-1]) then Chosen(s[..|s|-1], p) + [s[|s|-1]] else Chosen(s[..|s|-1], p)
  }

  function Take<T>(s: seq<T>, n: int): seq<T> { if n <= 0 then [] else if |s| <= n then s else s[..n] }

  // s[:n], where a negative n counts from the end.
  function UpTo<T>(s: seq<T>, n: int): seq<T> { if n >= 0 then Take(s, n) else Take(s, |s| + n) }

  function Elems<T(!new)>(s: seq<T>): set<T> { set x | x in s }

  ghost predicate NoRepeats<T(!new)>(s: seq<T>) { forall i, j | 0 <= i < j < |s| :: s[i] != s[j] }

  lemma SplitLast<T>(s: seq<T>)
    requires s != []
    ensures s == s[..|s|-1] + [s[|s|-1]]
  {
  }

  lemma AddedLast<T>(s: seq<T>, x: T)
    ensures (s + [x])[..|s+[x]|-1] == s && (s + [x])[|s+[x]|-1] == x
  {
  }

  lemma DistinctAdd<T>(s: seq<T>, x: T)
    ensures Distinct(s + [x]) == if x in Distinct(s) then Distinct(s) else Distinct(s) + [x]
  {
    AddedLast(s, x);
  }

  lemma ElemsAdd<T(!new)>(s: seq<T>, x: T)
    ensures Elems(s + [x]) == Elems(s) + {x}
    ensures x in Elems(s) <==> x in s
  {
  }

  lemma ChosenTo<T>(s: seq<T>, i: nat, p: T -> bool)
    requires i < |s|
    ensures Chosen(s[..i+1], p) == if p(s[i]) then Chosen(s[..i], p) + [s[i]] else Chosen(s[..i], p)
  {
    assert s[..i+1][..i] == s[..i];
  }

  lemma {:induction false} DistinctHas<T(!new)>(s: seq<T>, x: T)
    ensures x in Distinct(s) <==> x in s
  {
    if s != [] {
      DistinctHas(s[..|s|-1], x);
      SplitLast(s);
    }
  }

  lemma {:induction false} ChosenHas<T(!new)>(s: seq<T>, p: T -> bool, x: T)
    ensures x in Chosen(s, p) <==> x in s && p(x)
  {
    if s != [] {
      ChosenHas(s[..|s|-1], p, x);
      SplitLast(s);
    }
  }

  lemma {:induction false} DistinctHasNoRepeats<T(!new)>(s: seq<T>)
    ensures NoRepeats(Distinct(s))
  {
    if s != [] { DistinctHasNoRepeats(s[..|s|-1]); }
  }

  lemma {:induction false} DistinctGrows<T>(s: seq<T>, t: seq<T>)
    ensures Distinct(s) <= Distinct(s + t)
  {
    if t == [] {
      assert s + t == s;
    } else {
      DistinctGrows(s, t[..|t|-1]);
      assert (s + t)[..|s+t|-1] == s + t[..|t|-1];
    }
  }

  lemma {:induction false} DistinctCounts<T(!new)>(s: seq<T>)
    ensures |Distinct(s)| == |Elems(s)|
  {
    if s != [] {
      var init, last := s[..|s|-1], s[|s|-1];
      DistinctCounts(init);
      DistinctHas(init, last);
      SplitLast(s);
      assert Elems(s) == Elems(init) + {last};
    }
  }

  lemma {:induction false} ChosenOfBoth<T(!new)>(s: seq<T>, t: seq<T>, p: T -> bool)
    ensures Chosen(s + t, p) == Chosen(s, p) + Chosen(t, p)
  {
    if t == [] {
      assert s + t == s;
    } else {
      assert (s + t)[..|s+t|-1] == s + t[..|t|-1];
      ChosenOfBoth(s, t[..|t|-1], p);
    }
  }

  lemma {:induction false} ChosenHasNoRepeats<T(!new)>(s: seq<T>, p: T -> bool)
    requires NoRepeats(s)
    ensures NoRepeats(Chosen(s, p))
  {
    if s != [] {
      ChosenHasNoRepeats(s[..|s|-1], p);
      ChosenHas(s[..|s|-1], p, s[|s|-1]);
    }
  }

  lemma {:induction false} SameChosen<T(!new)>(s: seq<T>, p: T -> bool, q: T -> bool)
    requires forall x | x in s :: p(x) == q(x)
    ensures Chosen(s, p) == Chosen(s, q)
  {
    if s != [] { SameChosen(s[..|s|-1], p, q); }
  }

  lemma {:induction false} WholeIsChosen<T(!new)>(s: seq<T>, p: T -> bool)
    requires forall i | 0 <= i < |s| :: p(s[i])
    ensures Chosen(s, p) == s
  {
    if s != [] { WholeIsChosen(s[..|s|-1], p); }
  }

  lemma {:induction false} DistinctIsWhole<T(!new)>(s: seq<T>)
    requires NoRepeats(s)
    ensures Distinct(s) == s
  {
    if s != [] {
      DistinctIsWhole(s[..|s|-1]);
      SplitLast(s);
    }
  }

  // Distinct keeps the order of first occurrences.
  lemma {:induction false} DistinctFirst<T(!new)>(s: seq<T>, a: nat, b: nat) returns (k: nat)
    requires a < b < |Distinct(s)|
    ensures k < |s| && s[k] == Distinct(s)[a] && Distinct(s)[b] !in s[..k+1]
  {
    var init, r := s[..|s|-1], Distinct(s[..|s|-1]);
    SplitLast(s);
    if b < |r| {
      k := DistinctFirst(init, a, b);
      assert s[..k+1] == init[..k+1];
    } else {
      DistinctHas(init, r[a]);
      DistinctHas(init, s[|s|-1]);
      k :| 0 <= k < |init| && init[k] == r[a];
      assert forall x | x in s[..k+1] :: x in init;
    }
  }

  // A chosen element, and what is chosen before it.
  lemma {:induction false} ChosenAt<T(!new)>(s: seq<T>, p: T -> bool, k: nat) returns (i: nat)
    requires k < |Chosen(s, p)|
    ensures i < |s| && s[i] == Chosen(s, p)[k] && Chosen(s[..i], p) == Chosen(s, p)[..k]
  {
    var init := s[..|s|-1];
    if k < |Chosen(init, p)| {
      i := ChosenAt(init, p, k);
      assert s[..i] == init[..i];
    } else {
      i := |s| - 1;
    }
  }

  // So is the order of those chosen without repeats.
  lemma FirstChosen<T(!new)>(s: seq<T>, p: T -> bool, a: nat, b: nat) returns (i: nat)
    requires a < b < |Distinct(Chosen(s, p))|
    ensures i < |s| && s[i] == Distinct(Chosen(s, p))[a] && Distinct(Chosen(s, p))[b] !in s[..i+1]
  {
    var r, chosen := Distinct(Chosen(s, p)), Chosen(s, p);
    var k := DistinctFirst(chosen, a, b);
    i := ChosenAt(s, p, k);
    DistinctHas(chosen, r[b]);
    ChosenHas(s, p, r[b]);
    ChosenHas(s[..i], p, r[b]);
    assert s[..i+1] == s[..i] + [s[i]] && chosen[..k+1] == chosen[..k] + [chosen[k]];
  }

  // Chosen elements keep their order.
  lemma {:induction false} ChosenOrder<T(!new)>(s: seq<T>, p: T -> bool, a: nat, b: nat) returns (i: nat, j: nat)
    requires a < b < |Chosen(s, p)|
    ensures i < j < |s| && s[i] == Chosen(s, p)[a] && s[j] == Chosen(s, p)[b]
  {
    var init := s[..|s|-1];
    if b < |Chosen(init, p)| {
      i, j := ChosenOrder(init, p, a, b);
    } else {
      i := ChosenAt(init, p, a);
      j := |s| - 1;
    }
  }
}

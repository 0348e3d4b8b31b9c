/** Counting and duplicate removal on sequences. */
module Sequences {

  function Count<T(==)>(s: seq<T>, x: T): nat {
    if s == [] then 0
    else Count(s[..|s| - 1], x) + if s[|s| - 1] == x then 1 else 0
  }

  lemma CountAppend<T>(s: seq<T>, y: T, x: T)
    ensures Count(s + [y], x) == Count(s, x) + if y == x then 1 else 0
  {
    assert (s + [y])[..|s|] == s;
  }

  ghost predicate NoRepeats<T>(s: seq<T>) {
    forall i, j :: 0 <= i < j < |s| ==> s[i] != s[j]
  }

  /** `s` with every occurrence of a value after its first removed. */
  function FirstOccurrences<T(==)>(s: seq<T>): seq<T> {
    if s == [] then []
    else
      var front := s[..|s| - 1];
      FirstOccurrences(front) + if s[|s| - 1] in front then [] else [s[|s| - 1]]
  }

  lemma FirstOccurrencesAppend<T>(s: seq<T>, x: T)
    ensures FirstOccurrences(s + [x]) == FirstOccurrences(s) + if x in s then [] else [x]
  {
    assert (s + [x])[..|s|] == s;
  }

  /** Nothing is lost, nothing is invented and nothing stays twice. */
  lemma {:induction false} FirstOccurrencesMembers<T>(s: seq<T>)
    ensures forall x :: x in FirstOccurrences(s) <==> x in s
    ensures NoRepeats(FirstOccurrences(s))
  {
    if s != [] {
      FirstOccurrencesMembers(s[..|s| - 1]);
      assert s == s[..|s| - 1] + [s[|s| - 1]];
    }
  }

  /** Index `i` holds the first occurrence of its value. */
  ghost predicate IsFirst<T>(s: seq<T>, i: nat)
    requires i < |s|
  {
    s[i] !in s[..i]
  }

  /** What is kept is kept in its original order: the values of `FirstOccurrences(s)`
      sit at increasing positions of `s`, each of them a first occurrence. */
  lemma {:induction false} FirstOccurrencesOrder<T>(s: seq<T>) returns (at: seq<nat>)
    ensures |at| == |FirstOccurrences(s)|
    ensures forall k :: 0 <= k < |at| ==> at[k] < |s| && s[at[k]] == FirstOccurrences(s)[k] && IsFirst(s, at[k])
    ensures forall k, m :: 0 <= k < m < |at| ==> at[k] < at[m]
  {
    if s == [] {
      at := [];
    } else {
      var front := s[..|s| - 1];
      at := FirstOccurrencesOrder(front);
      forall k | 0 <= k < |at| ensures IsFirst(s, at[k]) {
        assert IsFirst(front, at[k]);
        assert s[..at[k]] == front[..at[k]];
      }
      if s[|s| - 1] !in front {
        at := at + [|s| - 1];
      }
    }
  }

  function Members<T>(s: seq<T>): set<T> {
    set x | x in s
  }

  lemma MembersAppend<T>(s: seq<T>, x: T)
    ensures Members(s + [x]) == Members(s) + {x}
  {
  }
}

/** What several of the models use: optional values, counting, sequences without repetition, singly linked lists
    by index. */
module Basics {
  const NONE := -1   // a null link

  datatype Option<T> = None | Some(value: T)

  function Bit(b: bool): nat {
    if b then 1 else 0
  }

  function Min(a: int, b: int): int {
    if a < b then a else b
  }

  /** Element i of a list, or the null link past its ends. */
  function At(q: seq<int>, i: int): int {
    if 0 <= i < |q| then q[i] else NONE
  }

  lemma CountWithout<T>(S: set<T>, a: T)
    ensures |S| == |S - {a}| + Bit(a in S)
  {
    if a in S { assert S == (S - {a}) + {a}; } else { assert S == S - {a}; }
  }

  ghost predicate NoDup<T>(q: seq<T>) {
    forall i, j :: 0 <= i < j < |q| ==> q[i] != q[j]
  }

  function IndexOf<T(==)>(q: seq<T>, x: T): (i: nat)
    requires x in q
    ensures i < |q| && q[i] == x
  {
    if q[0] == x then 0 else 1 + IndexOf(q[1..], x)
  }

  /** From first, the next links visit the elements of c and then end. */
  ghost predicate Linked(next: seq<int>, first: int, c: seq<int>)
    decreases |c|
  {
    if c == [] then first == NONE
    else first == c[0] && 0 <= first < |next| && Linked(next, next[first], c[1..])
  }

  /** Where the i-th element of a list points. */
  lemma {:induction false} LinkedAt(next: seq<int>, first: int, c: seq<int>, i: nat)
    requires Linked(next, first, c) && i < |c|
    ensures first == c[0] && 0 <= c[i] < |next| && next[c[i]] == At(c, i + 1)
    decreases i
  {
    if i > 0 {
      LinkedAt(next, next[first], c[1..], i - 1);
    } else if |c| > 1 {
      assert c[1..][0] == c[1];
    }
  }

  /** The same element by element. */
  lemma {:induction false} LinkedIff(next: seq<int>, first: int, c: seq<int>)
    ensures Linked(next, first, c) <==>
              first == At(c, 0) && forall i :: 0 <= i < |c| ==> 0 <= c[i] < |next| && next[c[i]] == At(c, i + 1)
    decreases |c|
  {
    if c != [] {
      if first == c[0] && 0 <= first < |next| {
        LinkedIff(next, next[first], c[1..]);
        assert next[first] == At(c, 1) <==> next[first] == At(c[1..], 0);
        assert forall i :: 1 <= i < |c| ==> c[i] == c[1..][i - 1] && At(c, i + 1) == At(c[1..], i);
        if Linked(next, first, c) {
          forall i | 0 <= i < |c| ensures 0 <= c[i] < |next| && next[c[i]] == At(c, i + 1) {
            LinkedAt(next, first, c, i);
          }
        }
      }
    }
  }

  /** Links elsewhere, and further ones, do not matter to a list. */
  lemma {:induction false} LinkedFrame(next: seq<int>, next2: seq<int>, first: int, c: seq<int>)
    requires Linked(next, first, c) && |next| <= |next2|
    requires forall s :: s in c && 0 <= s < |next| ==> next2[s] == next[s]
    ensures Linked(next2, first, c)
    decreases |c|
  {
    if c != [] {
      assert c[0] in c;
      assert forall s :: s in c[1..] ==> s in c;
      LinkedFrame(next, next2, next[first], c[1..]);
    }
  }
}

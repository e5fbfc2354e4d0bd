/**
 * The `MutableList` operations the editor's list handlers use, on the
 * list's contents: `indexOf`, `remove(element)` and `add(index, element)`,
 * and what a remove followed by an add at a neighbouring index does.
 */
module Lists {

  /** `indexOf(x)`: the position of the first occurrence of `x`, or -1. */
  function IndexOf<T(==)>(s: seq<T>, x: T): (i: int)
    ensures -1 <= i < |s|
    ensures i == -1 <==> x !in s
    ensures 0 <= i ==> s[i] == x && x !in s[..i]
  {
    if |s| == 0 then -1
    else if s[0] == x then 0
    else
      var j := IndexOf(s[1..], x);
      assert 0 <= j ==> s[..j + 1] == [s[0]] + s[1..][..j];
      if j < 0 then -1 else j + 1
  }

  /**
   * `remove(x)`: the list without the first occurrence of `x`; a list that
   * does not hold `x` is left as it is. What comes before that occurrence
   * is kept in place and what comes after it moves up by one.
   */
  function Removed<T(==)>(s: seq<T>, x: T): (r: seq<T>)
    ensures x !in s ==> r == s
    ensures x in s ==> |r| == |s| - 1
    ensures multiset(r) == multiset(s) - multiset{x}
    ensures x in s ==> forall k :: 0 <= k < IndexOf(s, x) ==> r[k] == s[k]
    ensures x in s ==> forall k :: IndexOf(s, x) <= k < |r| ==> r[k] == s[k + 1]
  {
    var i := IndexOf(s, x);
    if i < 0 then s else RemovedAt(s, i)
  }

  /** `add(i, x)` for an index within `0..size`. */
  function InsertAt<T>(s: seq<T>, i: nat, x: T): (r: seq<T>)
    requires i <= |s|
    ensures |r| == |s| + 1 && r[i] == x
    ensures forall k :: 0 <= k < i ==> r[k] == s[k]
    ensures forall k :: i < k < |r| ==> r[k] == s[k - 1]
  {
    s[..i] + [x] + s[i..]
  }

  /** `removeAt(i)` for an index within the list. */
  function RemovedAt<T>(s: seq<T>, i: nat): (r: seq<T>)
    requires i < |s|
    ensures |r| == |s| - 1
    ensures multiset(r) == multiset(s) - multiset{s[i]}
    ensures forall k :: 0 <= k < i ==> r[k] == s[k]
    ensures forall k :: i <= k < |r| ==> r[k] == s[k + 1]
  {
    var before, after := s[..i], s[i + 1..];
    assert s == before + [s[i]] + after;
    before + after
  }

  /**
   * Removing the first occurrence of `x`, found at `i > 0`, and adding it
   * back at `i - 1` swaps it with its predecessor; nothing else moves, and
   * the contents are a permutation of the original.
   */
  lemma MoveUpSwaps<T>(s: seq<T>, x: T)
    requires IndexOf(s, x) > 0
    ensures InsertAt(Removed(s, x), IndexOf(s, x) - 1, x)
            == s[IndexOf(s, x) - 1 := x][IndexOf(s, x) := s[IndexOf(s, x) - 1]]
    ensures multiset(InsertAt(Removed(s, x), IndexOf(s, x) - 1, x)) == multiset(s)
  {
    var i := IndexOf(s, x);
    var rem := Removed(s, x);
    assert rem == s[..i] + s[i + 1..];
    var moved := InsertAt(rem, i - 1, x);
    assert moved == rem[..i - 1] + [x] + rem[i - 1..];
    SwapWithPrevious(s, i);
    Swapped(s, i - 1, i);
    assert s[i] == x;
  }

  /**
   * Removing the first occurrence of `x`, found at `i`, and adding it back
   * at `i + 1` swaps it with its successor, provided it has one.
   */
  lemma MoveDownSwaps<T>(s: seq<T>, x: T)
    requires 0 <= IndexOf(s, x) < |s| - 1
    ensures InsertAt(Removed(s, x), IndexOf(s, x) + 1, x)
            == s[IndexOf(s, x) := s[IndexOf(s, x) + 1]][IndexOf(s, x) + 1 := x]
    ensures multiset(InsertAt(Removed(s, x), IndexOf(s, x) + 1, x)) == multiset(s)
  {
    var i := IndexOf(s, x);
    var rem := Removed(s, x);
    assert rem == s[..i] + s[i + 1..];
    var moved := InsertAt(rem, i + 1, x);
    assert moved == rem[..i + 1] + [x] + rem[i + 1..];
    SwapWithNext(s, i);
    Swapped(s, i, i + 1);
    assert s[i] == x;
  }

  /** Cutting out position `i` and putting that element back one place earlier. */
  lemma SwapWithPrevious<T>(s: seq<T>, i: nat)
    requires 0 < i < |s|
    ensures var r := s[..i] + s[i + 1..];
            r[..i - 1] + [s[i]] + r[i - 1..] == s[i - 1 := s[i]][i := s[i - 1]]
  {
    var r := s[..i] + s[i + 1..];
    assert r[..i - 1] == s[..i - 1];
    assert r[i - 1..] == [s[i - 1]] + s[i + 1..];
    assert s[i - 1 := s[i]][i := s[i - 1]] == s[..i - 1] + [s[i], s[i - 1]] + s[i + 1..];
  }

  /** Cutting out position `i` and putting that element back one place later. */
  lemma SwapWithNext<T>(s: seq<T>, i: nat)
    requires i + 1 < |s|
    ensures var r := s[..i] + s[i + 1..];
            r[..i + 1] + [s[i]] + r[i + 1..] == s[i := s[i + 1]][i + 1 := s[i]]
  {
    var r := s[..i] + s[i + 1..];
    assert r[..i + 1] == s[..i] + [s[i + 1]];
    assert r[i + 1..] == s[i + 2..];
    assert s[i := s[i + 1]][i + 1 := s[i]] == s[..i] + [s[i + 1], s[i]] + s[i + 2..];
  }

  /**
   * Move-up's two steps on a list whose first `x` is at `i > 0`:
   * `remove(x)`, then `add(i - 1, x)`. The result is the list with `x` and
   * its predecessor exchanged.
   */
  function MovedUp<T(==)>(s: seq<T>, x: T, i: int): (r: seq<T>)
    requires i == IndexOf(s, x) && 0 < i
    ensures r == s[i - 1 := x][i := s[i - 1]]
    ensures multiset(r) == multiset(s)
  {
    MoveUpSwaps(s, x);
    InsertAt(Removed(s, x), i - 1, x)
  }

  /**
   * Move-down's two steps on a list whose first `x` is at `i`, not last:
   * `remove(x)`, then `add(i + 1, x)`. The result is the list with `x` and
   * its successor exchanged.
   */
  function MovedDown<T(==)>(s: seq<T>, x: T, i: int): (r: seq<T>)
    requires i == IndexOf(s, x) && 0 <= i < |s| - 1
    ensures r == s[i := s[i + 1]][i + 1 := x]
    ensures multiset(r) == multiset(s)
  {
    MoveDownSwaps(s, x);
    InsertAt(Removed(s, x), i + 1, x)
  }

  /**
   * When `x` is last, the index `i + 1` at which move-down adds it back is
   * past the end of the shortened list, so `add(i + 1, x)` is out of range.
   */
  lemma MoveDownOfLastIsOutOfRange<T>(s: seq<T>, x: T)
    requires s != [] && IndexOf(s, x) == |s| - 1
    ensures IndexOf(s, x) + 1 > |Removed(s, x)|
  {
  }

  /** Exchanging two positions keeps the same elements. */
  lemma Swapped<T>(s: seq<T>, i: nat, j: nat)
    requires i < j < |s|
    ensures multiset(s[i := s[j]][j := s[i]]) == multiset(s)
  {
  }
}

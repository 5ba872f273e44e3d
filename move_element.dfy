/**
 * `moveElement`: move one entry of a list by an offset, on a copy.
 */
module MoveElement {

  /** Reference definition, position by position: the entry at `from` lands
      at `to` and the entries in between shift by one towards `from`. */
  function Moved<T>(s: seq<T>, from: nat, to: nat): (r: seq<T>)
    requires from < |s| && to < |s|
    ensures |r| == |s|
    ensures r[to] == s[from]
  {
    seq(|s|, k requires 0 <= k < |s| =>
      if k == to then s[from]
      else if from < to && from <= k < to then s[k + 1]
      else if to < from && to < k <= from then s[k - 1]
      else s[k])
  }

  /** Moving by a zero offset changes nothing. */
  lemma MovedInPlace<T>(s: seq<T>, i: nat)
    requires i < |s|
    ensures Moved(s, i, i) == s
  {
  }

  /** Moving back undoes a move. */
  lemma MovedBack<T>(s: seq<T>, from: nat, to: nat)
    requires from < |s| && to < |s|
    ensures Moved(Moved(s, from, to), to, from) == s
  {
    var m := Moved(s, from, to);
    var b := Moved(m, to, from);
    forall k | 0 <= k < |s| ensures b[k] == s[k] {
      if k == from {
      } else if from < to && from < k <= to {
        assert b[k] == m[k - 1];
      } else if to < from && to <= k < from {
        assert b[k] == m[k + 1];
      }
    }
  }

  /** Entries outside the moved range keep their positions. */
  lemma MovedOutside<T>(s: seq<T>, from: nat, to: nat, k: nat)
    requires from < |s| && to < |s| && k < |s|
    requires (k < from && k < to) || (k > from && k > to)
    ensures Moved(s, from, to)[k] == s[k]
  {
  }

  /** `moveElement(array, index, offset)`. The copy is cut at `index` and the
      entry reinserted at `index + offset`; an out-of-range target returns
      the input as it is. */
  method Move<T>(list: seq<T>, index: int, offset: int) returns (r: seq<T>)
    requires 0 <= index + offset < |list| ==> 0 <= index < |list|
    ensures !(0 <= index + offset < |list|) ==> r == list
    ensures 0 <= index + offset < |list| ==>
      r == Moved(list, index, index + offset) && multiset(r) == multiset(list)
  {
    var newIndex := index + offset;
    if newIndex < 0 || newIndex >= |list| {
      return list;
    }
    var item := list[index];
    var newArray := list;
    newArray := newArray[..index] + newArray[index + 1..];
    SpliceMultiset(list, index, newIndex);
    newArray := newArray[..newIndex] + [item] + newArray[newIndex..];
    SpliceIsMoved(list, index, newIndex);
    r := newArray;
  }

  /** Cutting the entry out and putting it back keeps the multiset. */
  lemma SpliceMultiset<T>(list: seq<T>, index: nat, j: nat)
    requires index < |list| && j < |list|
    ensures var cut := list[..index] + list[index + 1..];
      multiset(cut[..j] + [list[index]] + cut[j..]) == multiset(list)
  {
    var cut := list[..index] + list[index + 1..];
    assert list == list[..index] + [list[index]] + list[index + 1..];
    assert cut == cut[..j] + cut[j..];
    assert multiset(cut) == multiset(cut[..j]) + multiset(cut[j..]);
    assert multiset(cut) == multiset(list[..index]) + multiset(list[index + 1..]);
    assert multiset(list) == multiset(list[..index]) + multiset{list[index]} + multiset(list[index + 1..]);
    assert multiset(cut[..j] + [list[index]] + cut[j..]) == multiset(cut[..j]) + multiset{list[index]} + multiset(cut[j..]);
    assert multiset(cut[..j]) + multiset{list[index]} + multiset(cut[j..]) == multiset(cut) + multiset{list[index]};
    assert multiset(list) == multiset(cut) + multiset{list[index]};
  }

  /** The two splices of the source place the entry as `Moved` says. */
  lemma SpliceIsMoved<T>(list: seq<T>, index: nat, newIndex: nat)
    requires index < |list| && newIndex < |list|
    ensures var cut := list[..index] + list[index + 1..];
      cut[..newIndex] + [list[index]] + cut[newIndex..] == Moved(list, index, newIndex)
  {
    var cut := list[..index] + list[index + 1..];
    var r := cut[..newIndex] + [list[index]] + cut[newIndex..];
    forall k | 0 <= k < |list| ensures r[k] == Moved(list, index, newIndex)[k] {
      if k < newIndex {
        assert r[k] == cut[k];
      } else if k > newIndex {
        assert r[k] == cut[k - 1];
      }
    }
  }
}

/**
 * The keyed selection store of the media picker (`useSelectionState`): an
 * ordered list of selected records, where two records count as the same
 * selection when they agree on every key field.
 */
module SelectionState {
  import opened JsValues
  import opened Seqs

  /** `keys.every(key => a[key] === b[key])` */
  predicate KeyEq(keys: seq<string>, a: JsObject, b: JsObject)
  {
    forall k :: k in keys ==> Get(a, k) == Get(b, k)
  }

  lemma KeyEqIsEquivalence(keys: seq<string>, a: JsObject, b: JsObject, c: JsObject)
    ensures KeyEq(keys, a, a)
    ensures KeyEq(keys, a, b) ==> KeyEq(keys, b, a)
    ensures KeyEq(keys, a, b) && KeyEq(keys, b, c) ==> KeyEq(keys, a, c)
  {
  }

  /** Some element of `s` key-matches `x`. */
  predicate Matches(keys: seq<string>, x: JsObject, s: seq<JsObject>)
  {
    exists i :: 0 <= i < |s| && KeyEq(keys, s[i], x)
  }

  /** No two elements of `s` key-match. */
  predicate NoDup(keys: seq<string>, s: seq<JsObject>)
  {
    forall i, j :: 0 <= i < j < |s| ==> !KeyEq(keys, s[i], s[j])
  }

  /** `s.findIndex(y => keys.every(key => y[key] === x[key]))` */
  function FindMatch(keys: seq<string>, s: seq<JsObject>, x: JsObject): (i: int)
    ensures -1 <= i < |s|
    ensures i >= 0 <==> Matches(keys, x, s)
    ensures i >= 0 ==> KeyEq(keys, s[i], x) && !Matches(keys, x, s[..i])
    decreases |s|
  {
    if s == [] then -1
    else if KeyEq(keys, s[0], x) then 0
    else
      var j := FindMatch(keys, s[1..], x);
      if j < 0 then -1
      else
        assert forall m :: 0 <= m < j + 1 ==> s[..j + 1][m] == s[m];
        assert forall m :: 0 < m < j + 1 ==> s[m] == s[1..][..j][m - 1];
        j + 1
  }

  /** `s.filter(y => !xs.find(x => keys.every(key => y[key] === x[key])))`:
      the elements of `s` that key-match none of `xs`. */
  function Unmatched(keys: seq<string>, s: seq<JsObject>, xs: seq<JsObject>): (r: seq<JsObject>)
    ensures Subsequence(r, s)
    ensures forall i :: 0 <= i < |r| ==> r[i] in s && !Matches(keys, r[i], xs)
    ensures forall i :: 0 <= i < |s| && !Matches(keys, s[i], xs) ==> s[i] in r
    ensures forall i :: 0 <= i < |s| ==>
      multiset(r)[s[i]] == if Matches(keys, s[i], xs) then 0 else multiset(s)[s[i]]
  {
    FilterIsSubsequence(s, y => !Matches(keys, y, xs));
    FilterCount(s, y => !Matches(keys, y, xs));
    Filter(s, y => !Matches(keys, y, xs))
  }

  /** When nothing in `s` key-matches `xs`, filtering leaves `s` intact. */
  lemma UnmatchedKeepsAll(keys: seq<string>, s: seq<JsObject>, xs: seq<JsObject>)
    requires forall i :: 0 <= i < |s| ==> !Matches(keys, s[i], xs)
    ensures Unmatched(keys, s, xs) == s
  {
    FilterAll(s, y => !Matches(keys, y, xs));
  }

  /** A filtered list of unique elements stays unique. */
  lemma {:induction false} UnmatchedNoDup(keys: seq<string>, s: seq<JsObject>, xs: seq<JsObject>)
    requires NoDup(keys, s)
    ensures NoDup(keys, Unmatched(keys, s, xs))
    decreases |s|
  {
    if s != [] {
      NoDupTail(keys, s);
      UnmatchedNoDup(keys, s[1..], xs);
      var t := Unmatched(keys, s[1..], xs);
      UnmatchedCons(keys, s, xs);
      if !Matches(keys, s[0], xs) {
        forall j | 0 <= j < |t| ensures !KeyEq(keys, s[0], t[j]) {
          HeadNotInTail(keys, s, t[j]);
        }
        NoDupCons(keys, s[0], t);
      }
    }
  }

  /** `Unmatched` on a list given by its head and tail. */
  lemma UnmatchedCons(keys: seq<string>, s: seq<JsObject>, xs: seq<JsObject>)
    requires s != []
    ensures Unmatched(keys, s, xs) ==
      if Matches(keys, s[0], xs) then Unmatched(keys, s[1..], xs) else [s[0]] + Unmatched(keys, s[1..], xs)
  {
  }

  lemma NoDupTail(keys: seq<string>, s: seq<JsObject>)
    requires s != [] && NoDup(keys, s)
    ensures NoDup(keys, s[1..])
  {
    forall i, j | 0 <= i < j < |s| - 1 ensures !KeyEq(keys, s[1..][i], s[1..][j]) {
      assert s[1..][i] == s[i + 1] && s[1..][j] == s[j + 1];
    }
  }

  /** In a list without key-duplicates the head key-matches nothing after it. */
  lemma HeadNotInTail(keys: seq<string>, s: seq<JsObject>, y: JsObject)
    requires s != [] && NoDup(keys, s) && y in s[1..]
    ensures !KeyEq(keys, s[0], y)
  {
    var m :| 0 <= m < |s| - 1 && s[1..][m] == y;
    assert s[m + 1] == y;
  }

  lemma NoDupCons(keys: seq<string>, x: JsObject, t: seq<JsObject>)
    requires NoDup(keys, t)
    requires forall j :: 0 <= j < |t| ==> !KeyEq(keys, x, t[j])
    ensures NoDup(keys, [x] + t)
  {
    var r := [x] + t;
    forall i, j | 0 <= i < j < |r| ensures !KeyEq(keys, r[i], r[j]) {
      assert r[j] == t[j - 1];
      if i > 0 {
        assert r[i] == t[i - 1];
      }
    }
  }

  /** New list after `selectOne(x)`: toggles `x`. */
  function Toggled(keys: seq<string>, prev: seq<JsObject>, x: JsObject): seq<JsObject>
  {
    if FindMatch(keys, prev, x) >= 0 then Unmatched(keys, prev, [x]) else prev + [x]
  }

  /** New list after `selectAll(next)`. */
  function AllSelected(keys: seq<string>, prev: seq<JsObject>, next: seq<JsObject>): seq<JsObject>
  {
    next + Unmatched(keys, prev, next)
  }

  /** New list after `selectMultiple(next)`. */
  function MultipleSelected(keys: seq<string>, prev: seq<JsObject>, next: seq<JsObject>): seq<JsObject>
  {
    prev + Unmatched(keys, next, prev)
  }

  /** `selectOne` removes every key-match of `x` and keeps every other
      element, each copy in order; it appends `x` when there is no match. */
  lemma ToggledSpec(keys: seq<string>, prev: seq<JsObject>, x: JsObject)
    ensures Matches(keys, x, prev) ==>
      forall i :: 0 <= i < |Toggled(keys, prev, x)| ==> !KeyEq(keys, Toggled(keys, prev, x)[i], x)
    ensures Matches(keys, x, prev) ==> Subsequence(Toggled(keys, prev, x), prev)
    ensures Matches(keys, x, prev) ==>
      forall i :: 0 <= i < |prev| && !KeyEq(keys, prev[i], x) ==> prev[i] in Toggled(keys, prev, x)
    ensures Matches(keys, x, prev) ==> forall i :: 0 <= i < |prev| ==>
      multiset(Toggled(keys, prev, x))[prev[i]] == if KeyEq(keys, prev[i], x) then 0 else multiset(prev)[prev[i]]
    ensures !Matches(keys, x, prev) ==> Toggled(keys, prev, x) == prev + [x]
  {
    if Matches(keys, x, prev) {
      var r := Toggled(keys, prev, x);
      assert r == Unmatched(keys, prev, [x]);
      forall y: JsObject
        ensures Matches(keys, y, [x]) <==> KeyEq(keys, y, x)
      {
        MatchesSingleton(keys, y, x);
      }
    }
  }

  /** Toggling an absent record twice restores the list. */
  lemma {:induction false} ToggleTwice(keys: seq<string>, prev: seq<JsObject>, x: JsObject)
    requires !Matches(keys, x, prev)
    ensures Toggled(keys, Toggled(keys, prev, x), x) == prev
  {
    var once := prev + [x];
    assert once[|prev|] == x;
    assert KeyEq(keys, once[|prev|], x);
    assert Toggled(keys, prev, x) == once;
    var p := y => !Matches(keys, y, [x]);
    FilterAppend(prev, [x], p);
    forall i | 0 <= i < |prev| ensures p(prev[i]) {
      MatchesSingleton(keys, prev[i], x);
    }
    FilterAll(prev, p);
    assert !p(x) by { assert KeyEq(keys, [x][0], x); }
    assert Filter([x], p) == [];
  }

  /** `selectOne` keeps the list free of key-duplicates. */
  lemma ToggledNoDup(keys: seq<string>, prev: seq<JsObject>, x: JsObject)
    requires NoDup(keys, prev)
    ensures NoDup(keys, Toggled(keys, prev, x))
  {
    if FindMatch(keys, prev, x) >= 0 {
      UnmatchedNoDup(keys, prev, [x]);
    } else {
      var r := prev + [x];
      forall i, j | 0 <= i < j < |r| ensures !KeyEq(keys, r[i], r[j]) {
        if j == |prev| {
          assert r[i] == prev[i] && r[j] == x;
        } else {
          assert r[i] == prev[i] && r[j] == prev[j];
        }
      }
    }
  }

  /** `selectAll` puts `next` first, then the prior records that match none
      of it, in their prior order. */
  lemma AllSelectedSpec(keys: seq<string>, prev: seq<JsObject>, next: seq<JsObject>)
    ensures AllSelected(keys, prev, next)[..|next|] == next
    ensures Subsequence(AllSelected(keys, prev, next)[|next|..], prev)
    ensures forall i :: |next| <= i < |AllSelected(keys, prev, next)| ==>
      !Matches(keys, AllSelected(keys, prev, next)[i], next)
    ensures forall i :: 0 <= i < |prev| && !Matches(keys, prev[i], next) ==>
      prev[i] in AllSelected(keys, prev, next)[|next|..]
  {
    var r := AllSelected(keys, prev, next);
    assert r[|next|..] == Unmatched(keys, prev, next);
    forall i | |next| <= i < |r| ensures !Matches(keys, r[i], next) {
      assert r[i] == r[|next|..][i - |next|];
    }
  }

  /** The two halves of a concatenation with no key-match between them. */
  lemma ConcatNoDup(keys: seq<string>, a: seq<JsObject>, b: seq<JsObject>)
    requires NoDup(keys, a) && NoDup(keys, b)
    requires forall j :: 0 <= j < |b| ==> !Matches(keys, b[j], a)
    ensures NoDup(keys, a + b)
  {
    var r := a + b;
    forall i, j | 0 <= i < j < |r| ensures !KeyEq(keys, r[i], r[j]) {
      if j < |a| {
        assert r[i] == a[i] && r[j] == a[j];
      } else if i >= |a| {
        assert r[i] == b[i - |a|] && r[j] == b[j - |a|];
      } else {
        assert r[i] == a[i] && r[j] == b[j - |a|];
        assert !KeyEq(keys, a[i], b[j - |a|]);
      }
    }
  }

  lemma AllSelectedNoDup(keys: seq<string>, prev: seq<JsObject>, next: seq<JsObject>)
    requires NoDup(keys, prev) && NoDup(keys, next)
    ensures NoDup(keys, AllSelected(keys, prev, next))
  {
    var u := Unmatched(keys, prev, next);
    UnmatchedNoDup(keys, prev, next);
    ConcatNoDup(keys, next, u);
  }

  lemma MatchesSingleton(keys: seq<string>, y: JsObject, x: JsObject)
    ensures Matches(keys, y, [x]) <==> KeyEq(keys, y, x)
  {
    assert [x][0] == x;
  }

  /** `selectMultiple` keeps the prior list as a prefix and appends the new
      records that match no prior one. */
  lemma MultipleSelectedSpec(keys: seq<string>, prev: seq<JsObject>, next: seq<JsObject>)
    ensures MultipleSelected(keys, prev, next)[..|prev|] == prev
    ensures Subsequence(MultipleSelected(keys, prev, next)[|prev|..], next)
    ensures forall i :: |prev| <= i < |MultipleSelected(keys, prev, next)| ==>
      !Matches(keys, MultipleSelected(keys, prev, next)[i], prev)
    ensures forall i :: 0 <= i < |next| && !Matches(keys, next[i], prev) ==>
      next[i] in MultipleSelected(keys, prev, next)[|prev|..]
  {
    var r := MultipleSelected(keys, prev, next);
    assert r[|prev|..] == Unmatched(keys, next, prev);
    forall i | |prev| <= i < |r| ensures !Matches(keys, r[i], prev) {
      assert r[i] == r[|prev|..][i - |prev|];
    }
  }

  lemma MultipleSelectedNoDup(keys: seq<string>, prev: seq<JsObject>, next: seq<JsObject>)
    requires NoDup(keys, prev) && NoDup(keys, next)
    ensures NoDup(keys, MultipleSelected(keys, prev, next))
  {
    UnmatchedNoDup(keys, next, prev);
    ConcatNoDup(keys, prev, Unmatched(keys, next, prev));
  }

  lemma DeselectedNoDup(keys: seq<string>, prev: seq<JsObject>, next: seq<JsObject>)
    requires NoDup(keys, prev)
    ensures NoDup(keys, Unmatched(keys, prev, next))
  {
    UnmatchedNoDup(keys, prev, next);
  }

  /** The store; `selections` is the single state cell every operation replaces. */
  class SelectionStore {
    const keys: seq<string>
    var selections: seq<JsObject>

    constructor (keys: seq<string>, initialValue: seq<JsObject>)
      ensures this.keys == keys && selections == initialValue
    {
      this.keys := keys;
      selections := initialValue;
    }

    /** Toggle: drop every key-match of `x`, or append `x` when none exists. */
    method SelectOne(x: JsObject)
      modifies this
      ensures selections == Toggled(keys, old(selections), x)
      ensures Matches(keys, x, old(selections)) ==> Subsequence(selections, old(selections))
      ensures !Matches(keys, x, old(selections)) ==> selections == old(selections) + [x]
      ensures NoDup(keys, old(selections)) ==> NoDup(keys, selections)
    {
      ghost var prev := selections;
      if FindMatch(keys, selections, x) >= 0 {
        selections := Unmatched(keys, selections, [x]);
      } else {
        selections := selections + [x];
      }
      if NoDup(keys, prev) { ToggledNoDup(keys, prev, x); }
    }

    method SelectAll(next: seq<JsObject>)
      modifies this
      ensures selections == AllSelected(keys, old(selections), next)
      ensures selections[..|next|] == next
      ensures Subsequence(selections[|next|..], old(selections))
      ensures NoDup(keys, old(selections)) && NoDup(keys, next) ==> NoDup(keys, selections)
    {
      ghost var prev := selections;
      selections := next + Unmatched(keys, selections, next);
      AllSelectedSpec(keys, prev, next);
      if NoDup(keys, prev) && NoDup(keys, next) { AllSelectedNoDup(keys, prev, next); }
    }

    method DeselectAll()
      modifies this
      ensures selections == []
    {
      selections := [];
    }

    method SelectOnly(x: JsObject)
      modifies this
      ensures selections == [x]
    {
      selections := [x];
    }

    method SelectMultiple(next: seq<JsObject>)
      modifies this
      ensures selections == MultipleSelected(keys, old(selections), next)
      ensures selections[..|old(selections)|] == old(selections)
      ensures Subsequence(selections[|old(selections)|..], next)
      ensures NoDup(keys, old(selections)) && NoDup(keys, next) ==> NoDup(keys, selections)
    {
      ghost var prev := selections;
      selections := selections + Unmatched(keys, next, selections);
      MultipleSelectedSpec(keys, prev, next);
      if NoDup(keys, prev) && NoDup(keys, next) { MultipleSelectedNoDup(keys, prev, next); }
    }

    method DeselectMultiple(next: seq<JsObject>)
      modifies this
      ensures selections == Unmatched(keys, old(selections), next)
      ensures NoDup(keys, old(selections)) ==> NoDup(keys, selections)
    {
      ghost var prev := selections;
      selections := Unmatched(keys, selections, next);
      if NoDup(keys, prev) { DeselectedNoDup(keys, prev, next); }
    }

    method SetSelections(next: seq<JsObject>)
      modifies this
      ensures selections == next
    {
      selections := next;
    }
  }
}

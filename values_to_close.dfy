/**
 * `getValuesToClose`: collapsing a folder in the tree picker also collapses
 * every folder below it. The walk keeps a stack of values whose children
 * are still to be listed.
 */
module ValuesToClose {
  import opened JsValues
  import opened Seqs
  import opened FlattenTree

  /** The entries whose `parent` is `v` (line 13). */
  function ChildrenOf(options: seq<FlattenedNode>, v: JsValue): (r: seq<FlattenedNode>)
    ensures forall m :: 0 <= m < |r| ==> r[m] in options && r[m].parent == v
    ensures forall k :: 0 <= k < |options| && options[k].parent == v ==> options[k] in r
    ensures Subsequence(r, options)
    ensures forall k :: 0 <= k < |options| ==>
      multiset(r)[options[k]] == if options[k].parent == v then multiset(options)[options[k]] else 0
  {
    FilterIsSubsequence(options, (o: FlattenedNode) => o.parent == v);
    FilterCount(options, (o: FlattenedNode) => o.parent == v);
    Filter(options, (o: FlattenedNode) => o.parent == v)
  }

  /** The positions `0 .. n - 1`. */
  function Indices(n: nat): (r: set<int>)
    ensures forall k :: k in r <==> 0 <= k < n
  {
    if n == 0 then {} else Indices(n - 1) + {n - 1}
  }

  function ValueOf(o: FlattenedNode): JsValue
  {
    o.value
  }

  /** `r[m]` is the value of a child of some earlier value of `r`. */
  ghost predicate ChildOfEarlier(options: seq<FlattenedNode>, r: seq<JsValue>, m: int)
    requires 0 <= m < |r|
  {
    exists k :: 0 <= k < |options| && options[k].value == r[m] && options[k].parent in r[..m]
  }

  /** Every entry that has been pushed lies deeper than the entry (if any)
      holding the start value. */
  ghost predicate BelowStart(options: seq<FlattenedNode>, value: JsValue, k: int)
    requires 0 <= k < |options|
  {
    forall j :: 0 <= j < |options| && options[j].value == value ==> options[j].depth < options[k].depth
  }

  ghost predicate Pushed(options: seq<FlattenedNode>, remaining: set<int>, v: JsValue)
  {
    exists k :: 0 <= k < |options| && k !in remaining && options[k].value == v
  }

  /** Later values were pushed as children of earlier ones. */
  ghost predicate Sound(options: seq<FlattenedNode>, r: seq<JsValue>, remaining: set<int>)
  {
    forall m :: 1 <= m < |r| ==> ChildOfEarlier(options, r, m) && Pushed(options, remaining, r[m])
  }

  /** Each collected value is either popped or still on the stack. */
  ghost predicate Covers(r: seq<JsValue>, stack: seq<JsValue>, popped: set<JsValue>)
  {
    (forall v :: v in r <==> v in popped || v in stack) &&
    (forall v :: v in stack ==> v !in popped)
  }

  /** The children of popped values are pushed, and pushed entries are
      children of popped values, collected, and below the start. */
  ghost predicate PushedFacts(options: seq<FlattenedNode>, value: JsValue, r: seq<JsValue>,
                              popped: set<JsValue>, remaining: set<int>)
  {
    (forall k :: 0 <= k < |options| && options[k].parent in popped ==> k !in remaining) &&
    (forall k :: 0 <= k < |options| && k !in remaining ==>
       options[k].parent in popped && options[k].value in r && BelowStart(options, value, k))
  }

  /** The loop invariant. `popped` holds the values already taken off the
      stack; `remaining` the entries not pushed yet. */
  ghost predicate Inv(options: seq<FlattenedNode>, value: JsValue, r: seq<JsValue>, stack: seq<JsValue>,
                      popped: set<JsValue>, remaining: set<int>)
  {
    (forall k :: k in remaining ==> 0 <= k < |options|) &&
    |r| >= 1 && r[0] == value &&
    Distinct(r) && Distinct(stack) &&
    Sound(options, r, remaining) &&
    Covers(r, stack, popped) &&
    PushedFacts(options, value, r, popped, remaining)
  }

  /** A child of any value collected so far lies below the start entry. */
  lemma ChildBelowStart(options: seq<FlattenedNode>, value: JsValue, r: seq<JsValue>, stack: seq<JsValue>,
                        popped: set<JsValue>, remaining: set<int>, k: int)
    requires Ranked(options) && UniqueValues(options)
    requires Inv(options, value, r, stack, popped, remaining)
    requires 0 <= k < |options| && options[k].parent in r
    ensures BelowStart(options, value, k)
  {
    var current := options[k].parent;
    var m :| 0 <= m < |r| && r[m] == current;
    if m > 0 {
      assert Pushed(options, remaining, r[m]);
      var k2 :| 0 <= k2 < |options| && k2 !in remaining && options[k2].value == current;
      assert BelowStart(options, value, k2);
      assert options[k2].depth < options[k].depth;
    }
  }

  /** The new values of one round are fresh and distinct. */
  lemma FreshChildren(options: seq<FlattenedNode>, value: JsValue, r: seq<JsValue>, stack: seq<JsValue>,
                      popped: set<JsValue>, remaining: set<int>, current: JsValue)
    requires Ranked(options) && UniqueValues(options)
    requires Inv(options, value, r, stack, popped, remaining)
    requires current in stack
    ensures var vs := Map(ChildrenOf(options, current), ValueOf);
      Distinct(vs) && (forall t :: 0 <= t < |vs| ==> vs[t] !in r) &&
      (forall k :: 0 <= k < |options| && options[k].parent == current ==> k in remaining && BelowStart(options, value, k))
  {
    var children := ChildrenOf(options, current);
    var vs := Map(children, ValueOf);
    assert Distinct(options);
    FilterDistinct(options, (o: FlattenedNode) => o.parent == current);
    forall a, b | 0 <= a < b < |vs|
      ensures vs[a] != vs[b]
    {
      var ka :| 0 <= ka < |options| && options[ka] == children[a];
      var kb :| 0 <= kb < |options| && options[kb] == children[b];
    }
    forall k | 0 <= k < |options| && options[k].parent == current
      ensures k in remaining && BelowStart(options, value, k)
    {
      ChildBelowStart(options, value, r, stack, popped, remaining, k);
    }
    forall t | 0 <= t < |vs|
      ensures vs[t] !in r
    {
      var k :| 0 <= k < |options| && options[k] == children[t];
      assert k in remaining && BelowStart(options, value, k);
      assert r[0] != vs[t];
      forall m | 1 <= m < |r|
        ensures r[m] != vs[t]
      {
        assert Pushed(options, remaining, r[m]);
        var k2 :| 0 <= k2 < |options| && k2 !in remaining && options[k2].value == r[m];
        assert k2 != k;
      }
    }
  }

  lemma StepDistinct(r: seq<JsValue>, stack: seq<JsValue>, vs: seq<JsValue>)
    requires Distinct(r) && Distinct(stack) && Distinct(vs) && stack != []
    requires forall t :: 0 <= t < |vs| ==> vs[t] !in r
    requires forall v :: v in stack ==> v in r
    ensures Distinct(r + vs) && Distinct(stack[..|stack| - 1] + vs)
  {
    var r' := r + vs;
    forall i, j | 0 <= i < j < |r'|
      ensures r'[i] != r'[j]
    {
      if j >= |r| && i < |r| {
        assert r'[j] == vs[j - |r|] && r'[i] == r[i];
      }
    }
    var s0 := stack[..|stack| - 1];
    var stack' := s0 + vs;
    forall i, j | 0 <= i < j < |stack'|
      ensures stack'[i] != stack'[j]
    {
      if j >= |s0| && i < |s0| {
        assert stack'[j] == vs[j - |s0|] && stack'[i] == stack[i];
        assert stack[i] in stack;
      } else if j < |s0| {
        assert stack'[j] == stack[j] && stack'[i] == stack[i];
      }
    }
  }

  lemma StepCovers(r: seq<JsValue>, stack: seq<JsValue>, popped: set<JsValue>, vs: seq<JsValue>)
    requires Covers(r, stack, popped) && Distinct(stack) && stack != []
    requires forall t :: 0 <= t < |vs| ==> vs[t] !in r
    ensures Covers(r + vs, stack[..|stack| - 1] + vs, popped + {stack[|stack| - 1]})
  {
    var current := stack[|stack| - 1];
    var s0 := stack[..|stack| - 1];
    assert stack == s0 + [current];
    assert current !in s0;
    forall v
      ensures v in r + vs <==> v in popped + {current} || v in s0 + vs
    {
      assert v in stack <==> v in s0 || v == current;
    }
  }

  lemma StepSound(options: seq<FlattenedNode>, r: seq<JsValue>, remaining: set<int>,
                  current: JsValue, newIdx: set<int>)
    requires Sound(options, r, remaining) && current in r
    requires newIdx == set k | 0 <= k < |options| && options[k].parent == current
    ensures Sound(options, r + Map(ChildrenOf(options, current), ValueOf), remaining - newIdx)
  {
    var children := ChildrenOf(options, current);
    var vs := Map(children, ValueOf);
    var remaining' := remaining - newIdx;
    var r' := r + vs;
    var mc :| 0 <= mc < |r| && r[mc] == current;
    forall m | 1 <= m < |r'|
      ensures ChildOfEarlier(options, r', m) && Pushed(options, remaining', r'[m])
    {
      if m < |r| {
        assert ChildOfEarlier(options, r, m) && Pushed(options, remaining, r[m]);
        assert r'[..m] == r[..m];
        var k :| 0 <= k < |options| && k !in remaining && options[k].value == r[m];
        assert k !in remaining';
      } else {
        var t := m - |r|;
        assert r'[m] == vs[t];
        var k :| 0 <= k < |options| && options[k] == children[t];
        assert k in newIdx;
        assert r'[..m][mc] == current;
      }
    }
  }

  lemma StepPushed(options: seq<FlattenedNode>, value: JsValue, r: seq<JsValue>, popped: set<JsValue>,
                   remaining: set<int>, current: JsValue, newIdx: set<int>)
    requires PushedFacts(options, value, r, popped, remaining)
    requires newIdx == set k | 0 <= k < |options| && options[k].parent == current
    requires forall k :: 0 <= k < |options| && options[k].parent == current ==> BelowStart(options, value, k)
    ensures PushedFacts(options, value, r + Map(ChildrenOf(options, current), ValueOf),
                        popped + {current}, remaining - newIdx)
  {
    var children := ChildrenOf(options, current);
    var vs := Map(children, ValueOf);
    forall k | 0 <= k < |options| && k !in remaining - newIdx
      ensures options[k].value in r + vs
    {
      if k in newIdx {
        assert options[k] in children;
        var t :| 0 <= t < |children| && children[t] == options[k];
        assert vs[t] == options[k].value;
      }
    }
  }

  /** One round of the loop keeps the invariant and shrinks the measure. */
  lemma Step(options: seq<FlattenedNode>, value: JsValue, r: seq<JsValue>, stack: seq<JsValue>,
             popped: set<JsValue>, remaining: set<int>, newIdx: set<int>)
    requires Ranked(options) && UniqueValues(options)
    requires Inv(options, value, r, stack, popped, remaining)
    requires stack != []
    requires newIdx == set k | 0 <= k < |options| && options[k].parent == stack[|stack| - 1]
    ensures Inv(options, value, r + Map(ChildrenOf(options, stack[|stack| - 1]), ValueOf),
                stack[..|stack| - 1] + Map(ChildrenOf(options, stack[|stack| - 1]), ValueOf),
                popped + {stack[|stack| - 1]}, remaining - newIdx)
    ensures remaining - newIdx < remaining ||
            (remaining - newIdx == remaining && ChildrenOf(options, stack[|stack| - 1]) == [])
  {
    var current := stack[|stack| - 1];
    var children := ChildrenOf(options, current);
    var vs := Map(children, ValueOf);
    FreshChildren(options, value, r, stack, popped, remaining, current);
    assert current in r;
    StepDistinct(r, stack, vs);
    StepCovers(r, stack, popped, vs);
    StepSound(options, r, remaining, current, newIdx);
    StepPushed(options, value, r, popped, remaining, current, newIdx);
    if children != [] {
      var k :| 0 <= k < |options| && options[k] == children[0];
      assert k in remaining && k in newIdx;
    } else {
      assert newIdx == {} by {
        forall k | 0 <= k < |options| && options[k].parent == current
          ensures options[k] in children
        {
        }
      }
    }
  }

  /** `getValuesToClose(options, value)`. On options with unique values and
      acyclic links the result starts with `value`, repeats nothing, holds
      only children of values before them, and holds every child of every
      value in it: exactly `value` and all its descendants. */
  method GetValuesToClose(options: seq<FlattenedNode>, value: JsValue) returns (r: seq<JsValue>)
    requires Ranked(options) && UniqueValues(options)
    ensures |r| >= 1 && r[0] == value
    ensures Distinct(r)
    ensures forall m :: 1 <= m < |r| ==> ChildOfEarlier(options, r, m)
    ensures forall k :: 0 <= k < |options| && options[k].parent in r ==> options[k].value in r
  {
    r := [value];
    var stack := [value];
    ghost var popped: set<JsValue> := {};
    ghost var remaining: set<int> := Indices(|options|);
    while stack != []
      invariant Inv(options, value, r, stack, popped, remaining)
      decreases remaining, |stack|
    {
      ghost var newIdx := set k | 0 <= k < |options| && options[k].parent == stack[|stack| - 1];
      Step(options, value, r, stack, popped, remaining, newIdx);
      var current := stack[|stack| - 1];
      stack := stack[..|stack| - 1];
      var children := ChildrenOf(options, current);
      var vs := Map(children, ValueOf);
      r := r + vs;
      stack := stack + vs;
      popped := popped + {current};
      remaining := remaining - newIdx;
    }
  }

  /** A value without children closes alone (line 8 and an empty first
      round). */
  lemma {:induction false} Leaf(options: seq<FlattenedNode>, value: JsValue, r: seq<JsValue>)
    requires |r| >= 1 && r[0] == value
    requires forall m :: 1 <= m < |r| ==> ChildOfEarlier(options, r, m)
    ensures (forall k :: 0 <= k < |options| ==> options[k].parent != value) ==> r == [value]
  {
    if |r| > 1 {
      assert ChildOfEarlier(options, r, 1);
      assert r[..1] == [value];
    }
  }
}

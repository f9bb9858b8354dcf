/** The order in which an ordered map visits step keys: by run, then by step, each as text. */
module KeyOrder {
  import opened Collections
  import opened DurableLog

  predicate TextBefore(a: string, b: string) {
    b != "" && (a == "" || a[0] < b[0] || (a[0] == b[0] && TextBefore(a[1..], b[1..])))
  }

  predicate KeyBefore(a: StepKey, b: StepKey) {
    TextBefore(a.runId, b.runId) || (a.runId == b.runId && TextBefore(a.stepId, b.stepId))
  }

  lemma {:induction false} TextTotal(a: string, b: string)
    ensures TextBefore(a, b) || a == b || TextBefore(b, a)
    ensures !(TextBefore(a, b) && TextBefore(b, a)) && !TextBefore(a, a)
  {
    if a != "" && b != "" {
      TextTotal(a[1..], b[1..]);
      assert a == [a[0]] + a[1..] && b == [b[0]] + b[1..];
    }
    if a != "" {
      TextTotal(a[1..], a[1..]);
    }
  }

  lemma {:induction false} TextTransitive(a: string, b: string, c: string)
    requires TextBefore(a, b) && TextBefore(b, c)
    ensures TextBefore(a, c)
  {
    if a != "" && a[0] == b[0] == c[0] {
      TextTransitive(a[1..], b[1..], c[1..]);
    }
  }

  /** Any two different keys are ordered, one way only. */
  lemma KeyTotal(a: StepKey, b: StepKey)
    ensures KeyBefore(a, b) || a == b || KeyBefore(b, a)
    ensures !(KeyBefore(a, b) && KeyBefore(b, a)) && !KeyBefore(a, a)
  {
    TextTotal(a.runId, b.runId);
    TextTotal(a.stepId, b.stepId);
    TextTotal(a.runId, a.runId);
  }

  lemma KeyTransitive(a: StepKey, b: StepKey, c: StepKey)
    requires KeyBefore(a, b) && KeyBefore(b, c)
    ensures KeyBefore(a, c)
  {
    if TextBefore(a.runId, b.runId) && TextBefore(b.runId, c.runId) {
      TextTransitive(a.runId, b.runId, c.runId);
    }
    if TextBefore(a.stepId, b.stepId) && TextBefore(b.stepId, c.stepId) {
      TextTransitive(a.stepId, b.stepId, c.stepId);
    }
  }

  ghost predicate Sorted(keys: seq<StepKey>) {
    forall i, j | 0 <= i < j < |keys| :: KeyBefore(keys[i], keys[j])
  }

  predicate IsLeast(s: set<StepKey>, m: StepKey) {
    m in s && forall x | x in s :: m == x || KeyBefore(m, x)
  }

  lemma LeastKeyExists(s: set<StepKey>) returns (m: StepKey)
    requires s != {}
    ensures IsLeast(s, m)
  {
    var y := Member(s);
    if s == {y} {
      m := y;
    } else {
      var least := LeastKeyExists(s - {y});
      KeyTotal(y, least);
      m := if KeyBefore(y, least) then y else least;
      forall x | x in s ensures m == x || KeyBefore(m, x) {
        if x != y {
          assert x in s - {y};
          if m == y && x != least {
            KeyTransitive(y, least, x);
          }
        }
      }
    }
  }

  function LeastKey(s: set<StepKey>): (m: StepKey)
    requires s != {}
    ensures m in s && forall x | x in s :: m == x || KeyBefore(m, x)
  {
    assert exists m :: IsLeast(s, m) by {
      var m := LeastKeyExists(s);
    }
    LeastKeyUnique(s);
    var m :| m in s && IsLeast(s, m);
    m
  }

  lemma LeastKeyUnique(s: set<StepKey>)
    ensures forall m, n | IsLeast(s, m) && IsLeast(s, n) :: m == n
  {
    forall m, n | IsLeast(s, m) && IsLeast(s, n) ensures m == n {
      KeyTotal(m, n);
    }
  }

  /** A set of keys in the order an ordered map visits them. */
  function InKeyOrder(keys: set<StepKey>): (r: seq<StepKey>)
    ensures Sorted(r) && Elements(r) == keys && |r| == |keys|
    decreases |keys|
  {
    if keys == {} then []
    else
      var m := LeastKey(keys);
      var rest := InKeyOrder(keys - {m});
      PrependSorted(m, rest, keys);
      [m] + rest
  }

  lemma PrependSorted(m: StepKey, rest: seq<StepKey>, keys: set<StepKey>)
    requires m in keys && Elements(rest) == keys - {m} && Sorted(rest)
    requires forall x | x in keys :: m == x || KeyBefore(m, x)
    ensures Sorted([m] + rest) && Elements([m] + rest) == keys
  {
    forall i | 0 <= i < |rest| ensures KeyBefore(m, rest[i]) {
      assert rest[i] in Elements(rest);
    }
    assert forall y :: y in [m] + rest <==> y == m || y in rest;
    assert forall y :: y in keys <==> y == m || y in Elements(rest);
  }

  /** There is one such order. */
  lemma {:induction false} SortedUnique(a: seq<StepKey>, b: seq<StepKey>)
    requires Sorted(a) && Sorted(b) && Elements(a) == Elements(b)
    ensures a == b
  {
    SortedCount(a);
    SortedCount(b);
    if a != [] {
      FirstIsLeast(a);
      FirstIsLeast(b);
      LeastKeyUnique(Elements(a));
      TailElements(a);
      TailElements(b);
      SortedUnique(a[1..], b[1..]);
    }
  }

  lemma SortedCount(a: seq<StepKey>)
    requires Sorted(a)
    ensures |Elements(a)| == |a|
  {
    forall i, j | 0 <= i < j < |a| ensures a[i] != a[j] {
      KeyTotal(a[i], a[i]);
    }
    DistinctCount(a);
  }

  lemma FirstIsLeast(a: seq<StepKey>)
    requires Sorted(a) && a != []
    ensures IsLeast(Elements(a), a[0])
  {
  }

  lemma TailElements(a: seq<StepKey>)
    requires Sorted(a) && a != []
    ensures Elements(a[1..]) == Elements(a) - {a[0]}
  {
    KeyTotal(a[0], a[0]);
    forall x | x in a[1..] ensures x != a[0] {
      var i :| 1 <= i < |a| && a[i] == x;
    }
  }
}

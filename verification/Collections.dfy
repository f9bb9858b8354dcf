/** Small vocabulary shared by every module: optional values, results, and the ordered-set
    operations the Rust code gets from `BTreeSet` and `BTreeMap`. */
module Collections {
  datatype Option<+T> = None | Some(value: T)

  type Byte = x: int | 0 <= x < 256

  datatype Result<+T, +E> = Ok(value: T) | Err(error: E)

  function OrElse<T>(first: Option<T>, second: Option<T>): Option<T> {
    if first.Some? then first else second
  }

  function Elements<T(==)>(s: seq<T>): set<T> {
    set x | x in s
  }

  ghost predicate Distinct<T>(s: seq<T>) {
    forall i, j | 0 <= i < j < |s| :: s[i] != s[j]
  }

  ghost predicate Ascends(s: seq<int>) {
    forall i, j | 0 <= i < j < |s| :: s[i] < s[j]
  }

  lemma Member<T>(s: set<T>) returns (x: T)
    requires s != {}
    ensures x in s
  {
    x :| x in s;
  }

  lemma EmptyDifference<T>(a: set<T>, b: set<T>)
    requires a - b == {}
    ensures a <= b
  {
    assert forall x | x in a :: x in a - b || x in b;
  }

  lemma Outsider<T>(a: set<T>, b: set<T>) returns (x: T)
    requires !(a <= b)
    ensures x in a && x !in b
  {
    x :| x in a && x !in b;
  }

  /** The entry `BTreeSet::pop_first` would take. */
  function Least(s: set<int>): (m: int)
    requires s != {}
    ensures m in s && forall x | x in s :: m <= x
  {
    LeastExists(s);
    var m :| m in s && forall x | x in s :: m <= x;
    m
  }

  lemma LeastExists(s: set<int>)
    requires s != {}
    ensures exists m :: m in s && forall x | x in s :: m <= x
  {
    var y := Member(s);
    if s == {y} {
      assert y in s && forall x | x in s :: y <= x;
    } else {
      LeastExists(s - {y});
      var m :| m in s - {y} && forall x | x in s - {y} :: m <= x;
      var least := if y <= m then y else m;
      assert forall x | x in s :: x == y || x in s - {y};
      assert least in s && forall x | x in s :: least <= x;
    }
  }

  /** A set's members in iteration order. */
  function Ascending(s: set<int>): (r: seq<int>)
    ensures Ascends(r)
    ensures Elements(r) == s
    ensures |r| == |s|
    decreases |s|
  {
    if s == {} then []
    else
      var m := Least(s);
      var rest := Ascending(s - {m});
      PrependAscends(m, rest, s);
      [m] + rest
  }

  lemma PrependAscends(m: int, rest: seq<int>, s: set<int>)
    requires m in s && Elements(rest) == s - {m} && Ascends(rest)
    requires forall x | x in s :: m <= x
    ensures Ascends([m] + rest)
    ensures Elements([m] + rest) == s
  {
    forall i | 0 <= i < |rest| ensures m < rest[i] {
      assert rest[i] in Elements(rest);
    }
    assert forall y :: y in [m] + rest <==> y == m || y in rest;
    assert forall y :: y in s <==> y == m || y in Elements(rest);
  }

  lemma {:induction false} AscendingUnique(a: seq<int>, b: seq<int>)
    requires Ascends(a) && Ascends(b) && Elements(a) == Elements(b)
    ensures a == b
  {
    DistinctCount(a);
    DistinctCount(b);
    if a != [] {
      assert a[0] in Elements(b) && b[0] in Elements(a);
      assert a[0] == b[0];
      assert Elements(a[1..]) == Elements(a) - {a[0]};
      assert Elements(b[1..]) == Elements(b) - {b[0]};
      AscendingUnique(a[1..], b[1..]);
    }
  }

  lemma {:induction false} DistinctCount<T>(s: seq<T>)
    requires Distinct(s)
    ensures |Elements(s)| == |s|
  {
    if s != [] {
      var init, last := s[..|s| - 1], s[|s| - 1];
      DistinctCount(init);
      assert Elements(s) == Elements(init) + {last};
    }
  }

  lemma ElementsAppend<T>(s: seq<T>, x: T)
    ensures Elements(s + [x]) == Elements(s) + {x}
  {
    assert forall y :: y in s + [x] <==> y in s || y == x;
  }

  lemma SubsetCount<T>(a: set<T>, b: set<T>)
    requires a <= b
    ensures |a| <= |b|
    ensures |a| == |b| ==> a == b
  {
    assert b == a + (b - a);
  }

  lemma CountExcept<T>(a: set<T>, b: set<T>, x: T)
    requires a - {x} == b - {x}
    ensures |b| == |a| + (if x in b then 1 else 0) - (if x in a then 1 else 0)
  {
    assert |a - {x}| == |a| - if x in a then 1 else 0;
    assert |b - {x}| == |b| - if x in b then 1 else 0;
  }

  lemma CountApart<T>(a: set<T>, b: set<T>, both: set<T>)
    requires forall x :: x in both <==> x in a || x in b
    requires forall x | x in a :: x !in b
    ensures |both| == |a| + |b|
  {
    assert both == a + b;
    assert |a + b| == |a| + |b - a|;
    assert b - a == b;
  }
}

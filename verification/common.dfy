/** Shared vocabulary: optional values, and duplicate-free sequences that stand in
    for the ordered sets the zone check iterates over. */
module Common {

  datatype Option<+T> = None | Some(value: T)

  /** No element occurs twice. */
  ghost predicate Distinct<T>(s: seq<T>) {
    forall i, j :: 0 <= i < j < |s| ==> s[i] != s[j]
  }

  function Elems<T>(s: seq<T>): set<T> {
    set x | x in s
  }

  /** Set insertion that remembers the order of first arrival: appends `x`
      unless it is already present. */
  function Insert<T(==)>(s: seq<T>, x: T): seq<T> {
    if x in s then s else s + [x]
  }

  /** Insertion adds exactly `x`, keeps what was there in its place, and
      keeps a duplicate-free sequence duplicate-free. */
  lemma InsertFacts<T>(s: seq<T>, x: T)
    ensures Elems(Insert(s, x)) == Elems(s) + {x}
    ensures forall y :: y in Insert(s, x) <==> y in s || y == x
    ensures Distinct(s) ==> Distinct(Insert(s, x))
    ensures s <= Insert(s, x) && |Insert(s, x)| <= |s| + 1
  {
  }

  /** Dropping the last element of a duplicate-free sequence leaves one
      that does not contain it. */
  lemma DistinctSnoc<T>(s: seq<T>)
    requires s != [] && Distinct(s)
    ensures Distinct(s[..|s| - 1]) && s[|s| - 1] !in s[..|s| - 1]
    ensures s == s[..|s| - 1] + [s[|s| - 1]]
  {
    var q := s[..|s| - 1];
    assert forall i :: 0 <= i < |q| ==> q[i] == s[i] != s[|s| - 1];
  }

  /** A duplicate-free sequence has as many elements as its set. */
  lemma {:induction false} DistinctCard<T>(s: seq<T>)
    requires Distinct(s)
    ensures |Elems(s)| == |s|
  {
    if s != [] {
      var p := s[..|s| - 1];
      var x := s[|s| - 1];
      assert s == p + [x];
      assert Elems(s) == Elems(p) + {x};
      assert Distinct(p);
      assert forall i :: 0 <= i < |p| ==> p[i] == s[i] != x;
      DistinctCard(p);
    }
  }

  /** The indices of a sequence satisfying `p`. */
  function IndicesWhere<T>(xs: seq<T>, p: T -> bool): set<int> {
    set i | 0 <= i < |xs| && p(xs[i])
  }

  /** The distinct elements of a sequence satisfying `p`. */
  function Matching<T>(xs: seq<T>, p: T -> bool): set<T> {
    set x | x in xs && p(x)
  }

  /** No index qualifies exactly when no element satisfies `p`. */
  lemma IndicesWhereNone<T>(xs: seq<T>, p: T -> bool)
    ensures |IndicesWhere(xs, p)| == 0 <==> forall x :: x in xs ==> !p(x)
  {
    if exists x :: x in xs && p(x) {
      var x :| x in xs && p(x);
      var i :| 0 <= i < |xs| && xs[i] == x;
      assert i in IndicesWhere(xs, p);
    }
  }

  /** Extending a sequence by one element adds at most that element's index. */
  lemma IndicesWhereSnoc<T>(xs: seq<T>, x: T, p: T -> bool)
    ensures IndicesWhere(xs + [x], p)
         == IndicesWhere(xs, p) + (if p(x) then {|xs|} else {})
  {
    var ys := xs + [x];
    forall i | 0 <= i < |xs| ensures ys[i] == xs[i] { }
  }

  lemma MatchingSnoc<T>(xs: seq<T>, x: T, p: T -> bool)
    ensures Matching(xs + [x], p) == Matching(xs, p) + (if p(x) then {x} else {})
  {
    assert forall y :: y in xs + [x] <==> y in xs || y == x;
  }

  /** In a duplicate-free sequence, counting positions and counting values agree. */
  lemma {:induction false} IndicesWhereDistinct<T>(xs: seq<T>, p: T -> bool)
    requires Distinct(xs)
    ensures |IndicesWhere(xs, p)| == |Matching(xs, p)|
  {
    if xs == [] {
      assert IndicesWhere(xs, p) == {};
      assert Matching(xs, p) == {};
    } else {
      var q := xs[..|xs| - 1];
      var x := xs[|xs| - 1];
      assert xs == q + [x];
      assert Distinct(q);
      assert x !in q by {
        assert forall i :: 0 <= i < |q| ==> q[i] == xs[i] != x;
      }
      IndicesWhereDistinct(q, p);
      IndicesWhereSnoc(q, x, p);
      MatchingSnoc(q, x, p);
      assert |q| !in IndicesWhere(q, p);
      assert x !in Matching(q, p);
    }
  }

  /** Every element of `bs` paired with `a`. */
  function PairsWith<A(==), B>(a: A, bs: set<B>): set<(A, B)> {
    set b | b in bs :: (a, b)
  }

  /** Pairing every element of a set with one fixed value keeps its size. */
  lemma {:induction false} PairCard<A, B>(a: A, bs: set<B>)
    ensures |PairsWith(a, bs)| == |bs|
    decreases |bs|
  {
    if bs != {} {
      var b :| b in bs;
      var rest := bs - {b};
      PairCard(a, rest);
      assert PairsWith(a, bs) == PairsWith(a, rest) + {(a, b)};
      assert (a, b) !in PairsWith(a, rest);
    }
  }
}

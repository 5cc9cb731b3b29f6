/** Equality and ordering of captured traces, over the address sequences in
    capture order. Everything here is pure: comparing traces never needs the
    debug service. */
module TraceOrder {
  import opened FrameStore

  /** std::equal(a.begin, a.end, b.begin): compares the first |a| addresses
      of `b` with those of `a`, one by one. */
  function RangeEqual(a: seq<Address>, b: seq<Address>): (r: bool)
    requires |a| <= |b|
    ensures r <==> a == b[..|a|]
  {
    if |a| == 0 then true
    else if a[0] != b[0] then false
    else
      var r := RangeEqual(a[1..], b[1..]);
      assert r ==> a == [a[0]] + a[1..] == [b[0]] + b[1..][..|a| - 1] == b[..|a|];
      assert a == b[..|a|] ==> a[1..] == b[1..][..|a| - 1];
      r
  }

  /** std::lexicographical_compare over two address ranges. A proper prefix
      comes before the longer range, and nothing comes before the empty one. */
  function LexicographicalCompare(a: seq<Address>, b: seq<Address>): (r: bool)
    ensures a < b ==> r
    ensures r ==> |b| > 0
  {
    if |a| == 0 then |b| != 0
    else if |b| == 0 then false
    else if a[0] < b[0] then true
    else if b[0] < a[0] then false
    else
      assert a < b ==> a[1..] < b[1..];
      LexicographicalCompare(a[1..], b[1..])
  }

  /** The textbook definition of "a comes before b": the two agree up to
      position k, and there either `a` has ended while `b` goes on, or both go
      on and `a` holds the smaller address. */
  ghost predicate LessAt(a: seq<Address>, b: seq<Address>, k: nat)
  {
    && k <= |a| && k <= |b|
    && a[..k] == b[..k]
    && ((k == |a| && k < |b|) || (k < |a| && k < |b| && a[k] < b[k]))
  }

  lemma LessAtTail(a: seq<Address>, b: seq<Address>, k: nat)
    requires 0 < |a| && 0 < |b| && a[0] == b[0]
    ensures LessAt(a, b, k + 1) <==> LessAt(a[1..], b[1..], k)
  {
    if k + 1 <= |a| && k + 1 <= |b| {
      assert a[..k + 1] == [a[0]] + a[1..][..k];
      assert b[..k + 1] == [b[0]] + b[1..][..k];
    }
  }

  /** std::lexicographical_compare agrees with the textbook definition. */
  lemma {:induction false} LexicographicalCompareIsLessAt(a: seq<Address>, b: seq<Address>)
    ensures LexicographicalCompare(a, b) <==> exists k: nat :: LessAt(a, b, k)
  {
    if |a| == 0 || |b| == 0 {
      if LexicographicalCompare(a, b) {
        assert LessAt(a, b, 0);
      }
    } else if a[0] < b[0] {
      assert LessAt(a, b, 0);
    } else if b[0] < a[0] {
      assert forall k: nat :: !LessAt(a, b, k);
    } else {
      LexicographicalCompareIsLessAt(a[1..], b[1..]);
      if LexicographicalCompare(a, b) {
        var k :| LessAt(a[1..], b[1..], k);
        LessAtTail(a, b, k);
      } else {
        forall k: nat | 0 < k ensures !LessAt(a, b, k) {
          LessAtTail(a, b, k - 1);
        }
      }
    }
  }

  lemma {:induction false} LexIrreflexive(a: seq<Address>)
    ensures !LexicographicalCompare(a, a)
  {
    if |a| > 0 {
      LexIrreflexive(a[1..]);
    }
  }

  lemma {:induction false} LexAsymmetric(a: seq<Address>, b: seq<Address>)
    ensures LexicographicalCompare(a, b) ==> !LexicographicalCompare(b, a)
  {
    if |a| > 0 && |b| > 0 && a[0] == b[0] {
      LexAsymmetric(a[1..], b[1..]);
    }
  }

  lemma {:induction false} LexTransitive(a: seq<Address>, b: seq<Address>, c: seq<Address>)
    requires LexicographicalCompare(a, b) && LexicographicalCompare(b, c)
    ensures LexicographicalCompare(a, c)
  {
    if |a| > 0 && |b| > 0 && |c| > 0 && a[0] == b[0] && b[0] == c[0] {
      LexTransitive(a[1..], b[1..], c[1..]);
    }
  }

  /** Any two different address sequences are ordered one way or the other. */
  lemma {:induction false} LexConnected(a: seq<Address>, b: seq<Address>)
    requires a != b
    ensures LexicographicalCompare(a, b) || LexicographicalCompare(b, a)
  {
    if |a| > 0 && |b| > 0 && a[0] == b[0] {
      assert a == [a[0]] + a[1..] && b == [b[0]] + b[1..];
      LexConnected(a[1..], b[1..]);
    }
  }

  /** operator== on the captured sequences (apart from the identity
      shortcut): counts first, then element-wise. It holds exactly when the
      address sequences are the same, so it is reflexive, symmetric and
      transitive. */
  predicate TraceEqual(a: seq<Address>, b: seq<Address>): (r: bool)
    ensures r <==> a == b
  {
    |a| == |b| && RangeEqual(a, b)
  }

  /** operator< on the captured sequences (apart from the identity
      shortcut): the shorter trace first, equal lengths lexicographically. */
  predicate TraceLess(a: seq<Address>, b: seq<Address>): (r: bool)
    ensures |a| < |b| ==> r
    ensures r ==> |a| <= |b|
  {
    if |a| != |b| then |a| < |b| else LexicographicalCompare(a, b)
  }

  lemma TraceLessIrreflexive(a: seq<Address>)
    ensures !TraceLess(a, a)
  {
    LexIrreflexive(a);
  }

  lemma TraceLessAsymmetric(a: seq<Address>, b: seq<Address>)
    ensures TraceLess(a, b) ==> !TraceLess(b, a)
  {
    LexAsymmetric(a, b);
  }

  lemma TraceLessTransitive(a: seq<Address>, b: seq<Address>, c: seq<Address>)
    requires TraceLess(a, b) && TraceLess(b, c)
    ensures TraceLess(a, c)
  {
    if |a| == |b| == |c| {
      LexTransitive(a, b, c);
    }
  }

  /** Traces that are not ordered either way are equal: together with the
      three laws above this makes TraceLess a strict weak ordering whose
      equivalence is TraceEqual. For traces with the same frame count exactly
      one of a < b, b < a and a == b holds. */
  lemma TraceTrichotomy(a: seq<Address>, b: seq<Address>)
    ensures TraceLess(a, b) || TraceLess(b, a) || TraceEqual(a, b)
    ensures !(TraceLess(a, b) && TraceLess(b, a))
    ensures TraceEqual(a, b) ==> !TraceLess(a, b) && !TraceLess(b, a)
  {
    TraceLessAsymmetric(a, b);
    if a == b {
      TraceLessIrreflexive(a);
    } else if |a| == |b| {
      LexConnected(a, b);
    }
  }

  /** Traces with different frame counts are never equal, and are ordered by
      count alone whatever their addresses. */
  lemma DifferentCountsDecide(a: seq<Address>, b: seq<Address>)
    requires |a| != |b|
    ensures !TraceEqual(a, b)
    ensures TraceLess(a, b) <==> |a| < |b|
  {
  }
}

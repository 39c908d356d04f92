/** "Keep the first element of each key, drop the elements without a key":
    the rule behind both the filing deduplication loop of the EDGAR client
    (a `seen` set of accession numbers) and the holdings table's
    INSERT OR IGNORE under a unique index (the index is the `seen` set). */
module FirstOccurrence {
  import opened Wrappers

  /** Walk `xs` from left to right and keep an element when it has a key that
      is not yet in `seen`; that key is then seen. */
  function KeepFirst<T, K(==)>(xs: seq<T>, key: T -> Option<K>, seen: set<K>): (r: seq<T>)
    ensures |r| <= |xs|
  {
    if xs == [] then []
    else match key(xs[0])
      case None => KeepFirst(xs[1..], key, seen)
      case Some(k) =>
        if k in seen then KeepFirst(xs[1..], key, seen)
        else [xs[0]] + KeepFirst(xs[1..], key, seen + {k})
  }

  /** `xs[i]` has a key, that key was not seen before the walk, and no earlier
      element of `xs` has it. */
  ghost predicate IsFirst<T, K>(xs: seq<T>, key: T -> Option<K>, seen: set<K>, i: int)
    requires 0 <= i < |xs|
  {
    && key(xs[i]).Some?
    && key(xs[i]).value !in seen
    && forall j :: 0 <= j < i ==> key(xs[j]) != key(xs[i])
  }

  ghost predicate Increasing(idx: seq<nat>)
  {
    forall a, b :: 0 <= a < b < |idx| ==> idx[a] < idx[b]
  }

  function Shift(idx: seq<nat>): (r: seq<nat>)
    ensures |r| == |idx|
    ensures forall p :: 0 <= p < |idx| ==> r[p] == idx[p] + 1
  {
    seq(|idx|, p requires 0 <= p < |idx| => idx[p] + 1)
  }

  /** Whether the walk keeps `x` when `seen` holds the keys taken so far. */
  predicate Keeps<T, K>(x: T, key: T -> Option<K>, seen: set<K>)
  {
    key(x).Some? && key(x).value !in seen
  }

  function SeenAfter<T, K>(x: T, key: T -> Option<K>, seen: set<K>): set<K>
  {
    if Keeps(x, key, seen) then seen + {key(x).value} else seen
  }

  lemma KeepFirstStep<T, K>(xs: seq<T>, key: T -> Option<K>, seen: set<K>)
    requires xs != []
    ensures KeepFirst(xs, key, seen)
         == (if Keeps(xs[0], key, seen) then [xs[0]] else []) + KeepFirst(xs[1..], key, SeenAfter(xs[0], key, seen))
  {
  }

  lemma IsFirstStep<T, K>(xs: seq<T>, key: T -> Option<K>, seen: set<K>, i: int)
    requires 1 <= i < |xs|
    ensures IsFirst(xs, key, seen, i) <==> IsFirst(xs[1..], key, SeenAfter(xs[0], key, seen), i - 1)
  {
    var seen' := SeenAfter(xs[0], key, seen);
    if IsFirst(xs[1..], key, seen', i - 1) {
      forall j | 0 <= j < i ensures key(xs[j]) != key(xs[i]) {
        if j > 0 {
          assert xs[j] == xs[1..][j - 1];
        }
      }
    }
    if IsFirst(xs, key, seen, i) {
      forall j | 0 <= j < i - 1 ensures key(xs[1..][j]) != key(xs[1..][i - 1]) {
        assert key(xs[j + 1]) != key(xs[i]);
      }
    }
  }

  lemma ShiftFacts(idx: seq<nat>)
    requires Increasing(idx)
    ensures Increasing(Shift(idx)) && Increasing([0] + Shift(idx))
    ensures 0 !in Shift(idx)
    ensures forall i: nat :: i in Shift(idx) <==> i >= 1 && i - 1 in idx
  {
    var r := Shift(idx);
    forall i: nat | i in r ensures i >= 1 && i - 1 in idx {
      var q :| 0 <= q < |r| && r[q] == i;
    }
    forall i: nat | i >= 1 && i - 1 in idx ensures i in r {
      var q :| 0 <= q < |idx| && idx[q] == i - 1;
      assert r[q] == i;
    }
    assert Increasing([0] + r) by {
      forall a, b | 0 <= a < b < |r| + 1 ensures ([0] + r)[a] < ([0] + r)[b] {
        if a > 0 {
          assert ([0] + r)[a] == r[a - 1];
        }
      }
    }
  }

  /** `r` is made of the elements of `xs` at the positions `idx`. */
  ghost predicate Picks<T>(xs: seq<T>, r: seq<T>, idx: seq<nat>)
  {
    |idx| == |r| && forall p :: 0 <= p < |idx| ==> idx[p] < |xs| && r[p] == xs[idx[p]]
  }

  /** `idx` holds exactly the positions of first occurrences. */
  ghost predicate FirstPositions<T, K>(xs: seq<T>, key: T -> Option<K>, seen: set<K>, idx: seq<nat>)
  {
    forall i :: 0 <= i < |xs| ==> (i in idx <==> IsFirst(xs, key, seen, i))
  }

  lemma PicksStep<T>(xs: seq<T>, tail: seq<T>, rest: seq<nat>, kept: bool)
    requires xs != [] && Picks(xs[1..], tail, rest)
    ensures Picks(xs, (if kept then [xs[0]] else []) + tail, if kept then [0] + Shift(rest) else Shift(rest))
  {
    var r := (if kept then [xs[0]] else []) + tail;
    var idx := if kept then [0] + Shift(rest) else Shift(rest);
    forall p | 0 <= p < |idx|
      ensures idx[p] < |xs| && r[p] == xs[idx[p]]
    {
      if !kept || p > 0 {
        var q := if kept then p - 1 else p;
        assert idx[p] == rest[q] + 1;
        assert r[p] == tail[q];
      }
    }
  }

  lemma FirstPositionsStep<T, K>(xs: seq<T>, key: T -> Option<K>, seen: set<K>, rest: seq<nat>)
    requires xs != [] && Increasing(rest)
    requires FirstPositions(xs[1..], key, SeenAfter(xs[0], key, seen), rest)
    ensures FirstPositions(xs, key, seen, if Keeps(xs[0], key, seen) then [0] + Shift(rest) else Shift(rest))
  {
    var idx := if Keeps(xs[0], key, seen) then [0] + Shift(rest) else Shift(rest);
    ShiftFacts(rest);
    forall i | 0 <= i < |xs|
      ensures i in idx <==> IsFirst(xs, key, seen, i)
    {
      if i > 0 {
        IsFirstStep(xs, key, seen, i);
        assert i in idx <==> i in Shift(rest);
      }
    }
  }

  /** The output is the subsequence of `xs` made of exactly the first
      occurrences of the unseen keys, in input order: `idx` lists the
      positions it was taken from. */
  lemma {:induction false} KeepFirstPositions<T, K>(xs: seq<T>, key: T -> Option<K>, seen: set<K>)
    returns (idx: seq<nat>)
    ensures Increasing(idx)
    ensures Picks(xs, KeepFirst(xs, key, seen), idx)
    ensures FirstPositions(xs, key, seen, idx)
  {
    if xs == [] {
      idx := [];
    } else {
      var kept := Keeps(xs[0], key, seen);
      var seen' := SeenAfter(xs[0], key, seen);
      var rest := KeepFirstPositions(xs[1..], key, seen');
      KeepFirstStep(xs, key, seen);
      ShiftFacts(rest);
      PicksStep(xs, KeepFirst(xs[1..], key, seen'), rest, kept);
      FirstPositionsStep(xs, key, seen, rest);
      idx := if kept then [0] + Shift(rest) else Shift(rest);
    }
  }

  /** No two kept elements share a key, and no kept key was seen before. */
  lemma {:induction false} KeepFirstDistinct<T, K>(xs: seq<T>, key: T -> Option<K>, seen: set<K>)
    ensures forall p :: 0 <= p < |KeepFirst(xs, key, seen)| ==>
      key(KeepFirst(xs, key, seen)[p]).Some? && key(KeepFirst(xs, key, seen)[p]).value !in seen
    ensures forall p, q :: 0 <= p < q < |KeepFirst(xs, key, seen)| ==>
      key(KeepFirst(xs, key, seen)[p]) != key(KeepFirst(xs, key, seen)[q])
  {
    var r := KeepFirst(xs, key, seen);
    var idx := KeepFirstPositions(xs, key, seen);
    forall p | 0 <= p < |r| ensures key(r[p]).Some? && key(r[p]).value !in seen {
      assert idx[p] in idx;
    }
    forall p, q | 0 <= p < q < |r| ensures key(r[p]) != key(r[q]) {
      assert idx[q] in idx && idx[p] < idx[q];
    }
  }

  /** Every key that occurs in `xs` and was not seen before is kept. */
  lemma {:induction false} KeepFirstCovers<T, K>(xs: seq<T>, key: T -> Option<K>, seen: set<K>, i: nat)
    requires i < |xs| && key(xs[i]).Some? && key(xs[i]).value !in seen
    ensures exists p :: 0 <= p < |KeepFirst(xs, key, seen)| && key(KeepFirst(xs, key, seen)[p]) == key(xs[i])
  {
    var r := KeepFirst(xs, key, seen);
    var idx := KeepFirstPositions(xs, key, seen);
    var m := i;
    while !IsFirst(xs, key, seen, m)
      invariant 0 <= m <= i && key(xs[m]) == key(xs[i])
      decreases m
    {
      var j :| 0 <= j < m && key(xs[j]) == key(xs[m]);
      m := j;
    }
    assert m in idx;
    var p :| 0 <= p < |idx| && idx[p] == m;
    assert r[p] == xs[m];
  }
}

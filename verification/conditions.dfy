/** The condition table: which image is cued and whether the trial belongs to a
    tilt slot, built with numpy's repeat and tile and then shuffled with one
    index permutation shared by both columns. */
module Conditions {
  import opened Config

  const CueBase: seq<int> := [1, 2]
  const TiltBase: seq<int> := [0, 0, 1]

  /** numpy.repeat: every element of s, k times in a row. */
  function Repeat<T>(s: seq<T>, k: nat): (r: seq<T>)
    ensures |r| == |s| * k
  {
    if s == [] then [] else Copies(s[0], k) + Repeat(s[1..], k)
  }

  /** k copies of y. */
  function Copies<T>(y: T, k: nat): (r: seq<T>)
    ensures |r| == k
  {
    if k == 0 then [] else [y] + Copies(y, k - 1)
  }

  /** numpy.tile: k copies of s laid end to end. */
  function Tile<T>(s: seq<T>, k: nat): (r: seq<T>)
    ensures |r| == |s| * k
  {
    if k == 0 then [] else s + Tile(s, k - 1)
  }

  function Zip<A, B>(a: seq<A>, b: seq<B>): (r: seq<(A, B)>)
    requires |a| == |b|
    ensures |r| == |a|
    ensures forall i :: 0 <= i < |r| ==> r[i].0 == a[i] && r[i].1 == b[i]
  {
    seq(|a|, i requires 0 <= i < |a| => (a[i], b[i]))
  }

  function Range(n: nat): (r: seq<int>)
    ensures |r| == n
  {
    seq(n, i => i)
  }

  /** What np.random.shuffle leaves in np.arange(n): a rearrangement of 0 .. n-1. */
  predicate IsPermutation(p: seq<int>, n: nat)
  {
    multiset(p) == multiset(Range(n))
  }

  /** numpy fancy indexing a[p]. */
  function Gather<T>(a: seq<T>, p: seq<int>): (r: seq<T>)
    requires forall i :: 0 <= i < |p| ==> 0 <= p[i] < |a|
    ensures |r| == |p|
  {
    seq(|p|, i requires 0 <= i < |p| => a[p[i]])
  }

  /** The cue column before the shuffle: 45 trials cueing image 1, then 45 cueing image 2. */
  const CueArray: seq<int> := Repeat(Repeat(CueBase, 3), RepPerCondition)

  /** The tilt column before the shuffle: the pattern 0, 0, 1 for each cue, every entry 15 times. */
  const TiltArray: seq<int> := Repeat(Tile(TiltBase, 2), RepPerCondition)

  datatype ConditionTable = ConditionTable(cues: seq<int>, tilts: seq<int>)

  lemma PermutationInRange(p: seq<int>, n: nat)
    requires IsPermutation(p, n)
    ensures |p| == n
    ensures forall i :: 0 <= i < |p| ==> 0 <= p[i] < n
  {
    calc {
      |p|;
      |multiset(p)|;
      |multiset(Range(n))|;
      n;
    }
    forall i | 0 <= i < |p|
      ensures 0 <= p[i] < n
    {
      assert p[i] in multiset(p);
      assert p[i] in multiset(Range(n));
      assert p[i] in Range(n);
    }
  }

  /** Lines 172-189: the shuffled condition table. Both columns are indexed by
      the same permutation, so every trial keeps its (cue, tilt) pairing. */
  function Shuffle(p: seq<int>): (c: ConditionTable)
    requires IsPermutation(p, NTrials)
    ensures |c.cues| == NTrials && |c.tilts| == NTrials
    ensures multiset(Zip(c.cues, c.tilts)) == multiset(Zip(CueArray, TiltArray))
    ensures forall i :: 0 <= i < |c.cues| ==> (c.cues[i] == 1 || c.cues[i] == 2)
    ensures forall i :: 0 <= i < |c.tilts| ==> (c.tilts[i] == 0 || c.tilts[i] == 1)
  {
    PermutationInRange(p, NTrials);
    BaseColumns();
    var c := ConditionTable(Gather(CueArray, p), Gather(TiltArray, p));
    ShuffleKeepsPairs(p);
    c
  }

  /** The unshuffled columns: their lengths and the values they hold. */
  lemma BaseColumns()
    ensures |CueArray| == NTrials && |TiltArray| == NTrials
    ensures forall i :: 0 <= i < |CueArray| ==> (CueArray[i] == 1 || CueArray[i] == 2)
    ensures forall i :: 0 <= i < |TiltArray| ==> (TiltArray[i] == 0 || TiltArray[i] == 1)
  {
    RepeatElements(Repeat(CueBase, 3), RepPerCondition);
    RepeatElements(CueBase, 3);
    RepeatElements(Tile(TiltBase, 2), RepPerCondition);
    TileElements(TiltBase, 2);
    forall i | 0 <= i < |CueArray|
      ensures CueArray[i] == 1 || CueArray[i] == 2
    {
      assert CueArray[i] in CueArray;
      assert CueArray[i] in Repeat(CueBase, 3);
    }
    forall i | 0 <= i < |TiltArray|
      ensures TiltArray[i] == 0 || TiltArray[i] == 1
    {
      assert TiltArray[i] in TiltArray;
      assert TiltArray[i] in Tile(TiltBase, 2);
    }
  }

  lemma {:induction false} RepeatElements<T>(s: seq<T>, k: nat)
    ensures forall x :: x in Repeat(s, k) ==> x in s
  {
    if s != [] {
      RepeatElements(s[1..], k);
      forall x | x in Repeat(s, k)
        ensures x in s
      {
        CopiesElements(s[0], k);
        if x !in Copies(s[0], k) {
          assert x in Repeat(s[1..], k);
          assert x in s[1..];
        }
      }
    }
  }

  lemma {:induction false} TileElements<T>(s: seq<T>, k: nat)
    ensures forall x :: x in Tile(s, k) ==> x in s
  {
    if k > 0 {
      TileElements(s, k - 1);
    }
  }

  /** Applying one permutation to both columns permutes their pairs. */
  lemma ShuffleKeepsPairs(p: seq<int>)
    requires IsPermutation(p, NTrials)
    ensures |CueArray| == NTrials && |TiltArray| == NTrials
    ensures forall i :: 0 <= i < |p| ==> 0 <= p[i] < NTrials
    ensures multiset(Zip(Gather(CueArray, p), Gather(TiltArray, p)))
         == multiset(Zip(CueArray, TiltArray))
  {
    PermutationInRange(p, NTrials);
    BaseColumns();
    var pairs := Zip(CueArray, TiltArray);
    assert Zip(Gather(CueArray, p), Gather(TiltArray, p)) == Gather(pairs, p);
    GatherPermutes(pairs, p, Range(NTrials));
    assert Gather(pairs, Range(NTrials)) == pairs;
  }

  /** Index sequences holding the same indices gather the same multiset. */
  lemma {:induction false} GatherPermutes<T>(a: seq<T>, p: seq<int>, q: seq<int>)
    requires multiset(p) == multiset(q)
    requires forall i :: 0 <= i < |p| ==> 0 <= p[i] < |a|
    requires forall i :: 0 <= i < |q| ==> 0 <= q[i] < |a|
    ensures multiset(Gather(a, p)) == multiset(Gather(a, q))
    decreases |p|
  {
    if p == [] {
      assert |q| == |multiset(q)| == 0;
    } else {
      var x := p[0];
      assert x in multiset(q);
      var j :| 0 <= j < |q| && q[j] == x;
      var q' := RemoveAt(q, j);
      SameAfterRemoval(p, q, j);
      assert p[1..] == RemoveAt(p, 0);
      GatherPermutes(a, p[1..], q');
      GatherRemoveAt(a, p, 0);
      GatherRemoveAt(a, q, j);
    }
  }

  function RemoveAt<T>(q: seq<T>, j: nat): (r: seq<T>)
    requires j < |q|
    ensures |r| == |q| - 1
  {
    q[..j] + q[j + 1..]
  }

  lemma SameAfterRemoval(p: seq<int>, q: seq<int>, j: nat)
    requires multiset(p) == multiset(q)
    requires 0 < |p| && j < |q| && q[j] == p[0]
    ensures multiset(p[1..]) == multiset(RemoveAt(q, j))
  {
    var x := p[0];
    RemoveAtMultiset(q, j);
    RemoveAtMultiset(p, 0);
    assert p[1..] == RemoveAt(p, 0);
  }

  lemma RemoveAtMultiset<T>(q: seq<T>, j: nat)
    requires j < |q|
    ensures multiset(RemoveAt(q, j)) == multiset(q) - multiset{q[j]}
  {
    assert q == q[..j] + [q[j]] + q[j + 1..];
    assert multiset(q) == multiset(q[..j]) + multiset{q[j]} + multiset(q[j + 1..]);
  }

  /** Removing one index removes the element it gathers. */
  lemma GatherRemoveAt<T>(a: seq<T>, q: seq<int>, j: nat)
    requires j < |q|
    requires forall i :: 0 <= i < |q| ==> 0 <= q[i] < |a|
    ensures forall i :: 0 <= i < |RemoveAt(q, j)| ==> 0 <= RemoveAt(q, j)[i] < |a|
    ensures multiset(Gather(a, q)) == multiset(Gather(a, RemoveAt(q, j))) + multiset{a[q[j]]}
  {
    var g := Gather(a, q);
    assert Gather(a, RemoveAt(q, j)) == RemoveAt(g, j);
    RemoveAtMultiset(g, j);
    assert g[j] in multiset(g);
  }

  /** numpy.repeat multiplies every multiplicity by k. */
  lemma {:induction false} RepeatCounts<T>(s: seq<T>, k: nat, x: T)
    ensures multiset(Repeat(s, k))[x] == k * multiset(s)[x]
  {
    if s != [] {
      RepeatCounts(s[1..], k, x);
      RepeatHeadCount(s, k, x);
      HeadCount(s, x);
      var rest := multiset(s[1..])[x];
      var h := if x == s[0] then 1 else 0;
      MulDistributes(k, h, rest);
    }
  }

  lemma MulDistributes(k: nat, h: nat, rest: nat)
    requires h <= 1
    ensures (if h == 1 then k else 0) + k * rest == k * (h + rest)
  {
  }

  lemma RepeatHeadCount<T>(s: seq<T>, k: nat, x: T)
    requires s != []
    ensures multiset(Repeat(s, k))[x]
         == (if x == s[0] then k else 0) + multiset(Repeat(s[1..], k))[x]
  {
    CopiesCount(s[0], k, x);
    assert multiset(Repeat(s, k)) == multiset(Copies(s[0], k)) + multiset(Repeat(s[1..], k));
  }

  lemma HeadCount<T>(s: seq<T>, x: T)
    requires s != []
    ensures multiset(s)[x] == (if x == s[0] then 1 else 0) + multiset(s[1..])[x]
  {
    assert s == [s[0]] + s[1..];
    assert multiset(s) == multiset{s[0]} + multiset(s[1..]);
  }

  lemma {:induction false} CopiesCount<T>(y: T, k: nat, x: T)
    ensures multiset(Copies(y, k))[x] == if x == y then k else 0
  {
    if k > 0 {
      CopiesCount(y, k - 1, x);
      assert multiset(Copies(y, k)) == multiset{y} + multiset(Copies(y, k - 1));
    }
  }

  lemma {:induction false} CopiesElements<T>(y: T, k: nat)
    ensures forall x :: x in Copies(y, k) ==> x == y
  {
    if k > 0 {
      CopiesElements(y, k - 1);
    }
  }

  /** numpy.repeat of both columns repeats their pairs. */
  lemma {:induction false} ZipRepeat<A, B>(a: seq<A>, b: seq<B>, k: nat)
    requires |a| == |b|
    ensures Zip(Repeat(a, k), Repeat(b, k)) == Repeat(Zip(a, b), k)
  {
    if a != [] {
      ZipRepeat(a[1..], b[1..], k);
      assert Zip(a, b)[1..] == Zip(a[1..], b[1..]);
      ZipCopies(a[0], b[0], k);
      ZipAppend(Copies(a[0], k), Repeat(a[1..], k), Copies(b[0], k), Repeat(b[1..], k));
    }
  }

  lemma ZipAppend<A, B>(a: seq<A>, a': seq<A>, b: seq<B>, b': seq<B>)
    requires |a| == |b| && |a'| == |b'|
    ensures Zip(a + a', b + b') == Zip(a, b) + Zip(a', b')
  {
  }

  lemma {:induction false} ZipCopies<A, B>(x: A, y: B, k: nat)
    ensures Zip(Copies(x, k), Copies(y, k)) == Copies((x, y), k)
  {
    if k > 0 {
      ZipCopies(x, y, k - 1);
      ZipAppend([x], Copies(x, k - 1), [y], Copies(y, k - 1));
    }
  }

  /** The six base conditions, each a (cue, tilt) pair. */
  lemma BasePairs()
    ensures Zip(Repeat(CueBase, 3), Tile(TiltBase, 2)) == BaseConditions
  {
    assert Repeat(CueBase[1..], 3) == [2, 2, 2];
    assert Repeat(CueBase, 3) == [1, 1, 1, 2, 2, 2];
    assert Tile(TiltBase, 1) == [0, 0, 1];
    assert Tile(TiltBase, 2) == [0, 0, 1, 0, 0, 1];
  }

  /** The six base conditions as (cue, tilt) pairs. */
  const BaseConditions: seq<(int, int)> := [(1, 0), (1, 0), (1, 1), (2, 0), (2, 0), (2, 1)]

  lemma BaseConditionCounts()
    ensures var m := multiset(BaseConditions);
      m[(1, 0)] == 2 && m[(1, 1)] == 1 && m[(2, 0)] == 2 && m[(2, 1)] == 1
  {
    assert multiset(BaseConditions) == multiset{(1, 0), (1, 0), (1, 1), (2, 0), (2, 0), (2, 1)};
  }

  /** The unshuffled table is the six base conditions, each repeated 15 times. */
  lemma UnshuffledPairs()
    ensures Zip(CueArray, TiltArray) == Repeat(BaseConditions, RepPerCondition)
  {
    BasePairs();
    ZipRepeat(Repeat(CueBase, 3), Tile(TiltBase, 2), RepPerCondition);
  }

  /** Before the shuffle, every cue is paired with tilt slot 0 in 30 trials
      and tilt slot 1 in 15. */
  lemma UnshuffledCounts()
    ensures var m := multiset(Zip(CueArray, TiltArray));
      && m[(1, 0)] == 30 && m[(1, 1)] == 15
      && m[(2, 0)] == 30 && m[(2, 1)] == 15
  {
    UnshuffledPairs();
    BaseConditionCounts();
    RepeatCounts(BaseConditions, RepPerCondition, (1, 0));
    RepeatCounts(BaseConditions, RepPerCondition, (1, 1));
    RepeatCounts(BaseConditions, RepPerCondition, (2, 0));
    RepeatCounts(BaseConditions, RepPerCondition, (2, 1));
  }

  /** Every cue is paired with tilt slot 0 in 30 trials and tilt slot 1 in 15,
      before and after the shuffle. */
  lemma ConditionCounts(p: seq<int>)
    requires IsPermutation(p, NTrials)
    ensures var m := multiset(Zip(Shuffle(p).cues, Shuffle(p).tilts));
      && m[(1, 0)] == 30 && m[(1, 1)] == 15
      && m[(2, 0)] == 30 && m[(2, 1)] == 15
      && |m| == NTrials
  {
    UnshuffledCounts();
    var c := Shuffle(p);
    assert |multiset(Zip(c.cues, c.tilts))| == |Zip(c.cues, c.tilts)| == NTrials;
  }
}

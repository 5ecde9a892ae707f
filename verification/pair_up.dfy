/** Assigning concrete people to the groups the solver asked for
    (`meetupmatcher.matcher.pair_up`): sampling, the two nested drawing
    loops, and `pair_up` itself. */
module Assignment {
  import opened Results
  import opened GroupCount
  import opened Partition

  /** A set is empty or has an element (stated so that a choice from a
      non-empty set can be justified). */
  lemma Inhabited(s: set<int>)
    ensures s == {} || exists x :: x in s
  {
    if forall x :: x !in s {
      assert s == {};
    }
  }

  /** Some subset of `s` with `n` elements, as a witness that one exists. */
  ghost function SomeSubset(s: set<int>, n: nat): (t: set<int>)
    requires n <= |s|
    ensures t <= s && |t| == n
    decreases n
  {
    if n == 0 then {}
    else
      Inhabited(s);
      var x :| x in s;
      SomeSubset(s - {x}, n - 1) + {x}
  }

  /** `sample`: `n` distinct elements of `source`, drawn without replacement.
      The random generator is not modelled: any subset of the right size may
      come back. numpy refuses to draw more elements than there are. */
  method Sample(source: set<int>, n: nat) returns (r: Result<set<int>>)
    ensures r.Ok? <==> n <= |source|
    ensures r.Ok? ==> r.value <= source && |r.value| == n
    ensures r.Err? ==> r.error == ValueError
  {
    if n > |source| {
      return Err(ValueError);
    }
    ghost var candidate := SomeSubset(source, n);
    var chosen :| chosen <= source && |chosen| == n;
    return Ok(chosen);
  }

  /** One pass of `pair_up`'s inner loop: draw one group of size `i + 2`,
      a pair from the people who accept pairs only, a larger group from
      everybody left, and take its members out of the working sets. */
  method DrawGroup(sn: SolutionNumbers, i: nat, k: nat, ghost idx: set<int>, ghost idxNotwo: set<int>,
                   ghost removed: set<int>, segmentation: seq<set<int>>,
                   idxLeft: set<int>, idxNotwoLeft: set<int>)
    returns (r: Result<seq<set<int>>>, left: set<int>, notwoLeft: set<int>)
    requires InStage(sn, i, k, idx, idxNotwo, removed, segmentation, idxLeft, idxNotwoLeft)
    requires Drawing(sn, idx, idxNotwo, removed, segmentation, idxLeft, idxNotwoLeft)
    requires k < Part(sn, i)
    ensures r.Ok? ==> InStage(sn, i, k + 1, idx, idxNotwo, removed, r.value, left, notwoLeft)
    ensures r.Ok? ==> Drawing(sn, idx, idxNotwo, removed, r.value, left, notwoLeft)
    ensures r.Ok? ==> segmentation <= r.value && r.value[|segmentation|] <= idxLeft + idxNotwoLeft
    ensures r.Ok? ==> left == idxLeft - r.value[|segmentation|] && notwoLeft == idxNotwoLeft - r.value[|segmentation|]
    ensures r.Err? ==> r.error == ValueError && i == 0 && |idx| < 2 * sn.partitions.0
    ensures left <= idx && notwoLeft <= idxNotwo - removed
  {
    left, notwoLeft := idxLeft, idxNotwoLeft;
    StageCounts(sn, i, k);
    var groupSize := i + 2;
    var pool := if groupSize > 2 then idxLeft + idxNotwoLeft else idxLeft;
    var newGroup :- Sample(pool, groupSize);
    StageStep(sn, i, k, idx, idxNotwo, removed, segmentation, idxLeft, idxNotwoLeft, newGroup);
    DrawStep(sn, idx, idxNotwo, removed, segmentation, idxLeft, idxNotwoLeft, newGroup);
    return Ok(segmentation + [newGroup]), idxLeft - newGroup, idxNotwoLeft - newGroup;
  }

  /** One pass of `pair_up`'s outer loop: draw the `Part(sn, i)` groups of
      size `i + 2`. Only drawing pairs can run out of people. */
  method DrawStage(sn: SolutionNumbers, i: nat, ghost idx: set<int>, ghost idxNotwo: set<int>,
                   ghost removed: set<int>, segmentation: seq<set<int>>,
                   idxLeft: set<int>, idxNotwoLeft: set<int>)
    returns (r: Result<seq<set<int>>>, left: set<int>, notwoLeft: set<int>)
    requires InStage(sn, i, 0, idx, idxNotwo, removed, segmentation, idxLeft, idxNotwoLeft)
    requires Drawing(sn, idx, idxNotwo, removed, segmentation, idxLeft, idxNotwoLeft)
    ensures r.Ok? ==> Drawing(sn, idx, idxNotwo, removed, r.value, left, notwoLeft)
    ensures r.Ok? ==> InStage(sn, i, Part(sn, i), idx, idxNotwo, removed, r.value, left, notwoLeft)
    ensures r.Ok? ==> segmentation <= r.value
    ensures r.Err? ==> r.error == ValueError && i == 0 && |idx| < 2 * sn.partitions.0
    ensures left <= idx && notwoLeft <= idxNotwo - removed
  {
    var nGroups := Part(sn, i);
    var seg := segmentation;
    left, notwoLeft := idxLeft, idxNotwoLeft;
    var k := 0;
    while k < nGroups
      invariant k <= nGroups
      invariant segmentation <= seg
      invariant InStage(sn, i, k, idx, idxNotwo, removed, seg, left, notwoLeft)
      invariant Drawing(sn, idx, idxNotwo, removed, seg, left, notwoLeft)
    {
      seg, left, notwoLeft :- DrawGroup(sn, i, k, idx, idxNotwo, removed, seg, left, notwoLeft);
      k := k + 1;
    }
    return Ok(seg), left, notwoLeft;
  }

  /** `pair_up`'s outer loop: draw the groups of two, then of three, then
      of four, until the working sets are used up. */
  method DrawGroups(sn: SolutionNumbers, ghost idx: set<int>, ghost idxNotwo: set<int>,
                    ghost removed: set<int>, idxLeft: set<int>, idxNotwoLeft: set<int>)
    returns (r: Result<seq<set<int>>>, left: set<int>, notwoLeft: set<int>)
    requires InStage(sn, 0, 0, idx, idxNotwo, removed, [], idxLeft, idxNotwoLeft)
    requires Drawing(sn, idx, idxNotwo, removed, [], idxLeft, idxNotwoLeft)
    ensures r.Ok? ==> Drawing(sn, idx, idxNotwo, removed, r.value, {}, {})
    ensures r.Ok? ==> |r.value| == NGroups(sn) && 2 * sn.partitions.0 <= |idx|
    ensures r.Ok? ==> left == {} && notwoLeft == {}
    ensures r.Err? ==> r.error == ValueError && |idx| < 2 * sn.partitions.0
    ensures left <= idx && notwoLeft <= idxNotwo - removed
  {
    var segmentation: seq<set<int>> := [];
    left, notwoLeft := idxLeft, idxNotwoLeft;
    var i := 0;
    while i < 3
      invariant i <= 3
      invariant Drawing(sn, idx, idxNotwo, removed, segmentation, left, notwoLeft)
      invariant i < 3 ==> InStage(sn, i, 0, idx, idxNotwo, removed, segmentation, left, notwoLeft)
      invariant i == 3 ==> |segmentation| == NGroups(sn) && left == {} && notwoLeft == {}
      invariant i >= 1 ==> 2 * sn.partitions.0 <= |idx|
    {
      var drawn;
      drawn, left, notwoLeft := DrawStage(sn, i, idx, idxNotwo, removed, segmentation, left, notwoLeft);
      if drawn.Err? {
        return Err(drawn.error), left, notwoLeft;
      }
      segmentation := drawn.value;
      NextStage(sn, i, idx, idxNotwo, removed, segmentation, left, notwoLeft);
      i := i + 1;
    }
    return Ok(segmentation), left, notwoLeft;
  }

  /** `pair_up` after the removal: draw every group, then check that
      somebody was placed. Fails with `ValueError` when the pairs cannot be
      filled, and with `AssertionError` when no group was asked for. */
  method DrawAll(sn: SolutionNumbers, ghost idx: set<int>, ghost idxNotwo: set<int>,
                 removed: set<int>, idxLeft: set<int>, idxNotwoLeft: set<int>)
    returns (r: Result<PairUpResult>, left: set<int>, notwoLeft: set<int>)
    requires idx !! idxNotwo && removed <= idxNotwo && |removed| == sn.removed
    requires CountMatches(sn, |idx|, |idxNotwo|)
    requires idxLeft == idx && idxNotwoLeft == idxNotwo - removed
    ensures r.Ok? <==> 2 * sn.partitions.0 <= |idx| && NGroups(sn) > 0
    ensures r.Err? ==> (r.error == ValueError <==> |idx| < 2 * sn.partitions.0) && r.error != NoSolution
    ensures r.Ok? ==> left == {} && notwoLeft == {}
    ensures r.Ok? ==> IsAssignment(sn, idx, idxNotwo, r.value) && r.value.removed == removed
    ensures left <= idx && notwoLeft <= idxNotwo
    ensures r.Err? && r.error == AssertionError ==> left == {} && notwoLeft == {}
  {
    StartStage(sn, idx, idxNotwo, removed);
    var drawn;
    drawn, left, notwoLeft := DrawGroups(sn, idx, idxNotwo, removed, idxLeft, idxNotwoLeft);
    if drawn.Err? {
      return Err(drawn.error), left, notwoLeft;
    }
    var segmentation := drawn.value;
    // the two assertions after the loops never fail
    assert left == {} && notwoLeft == {};
    Completed(sn, idx, idxNotwo, removed, segmentation);
    if SumSizes(segmentation) == 0 {
      return Err(AssertionError), left, notwoLeft;
    }
    return Ok(PairUpResult(segmentation, removed)), left, notwoLeft;
  }

  /** `pair_up`: first remove `sn.removed` no-twos, then draw the pairs from
      `idx`, then the groups of three and four from everybody left. Besides
      the result it returns `idxLeft` and `idxNotwoLeft`, the caller's two
      sets after the call: the source shrinks them in place as it draws.
      They are untouched when the removal cannot be drawn, empty when the
      final check fails, and never grow. The two sets must be disjoint. */
  method PairUp(sn: SolutionNumbers, idx: set<int>, idxNotwo: set<int>)
    returns (r: Result<PairUpResult>, idxLeft: set<int>, idxNotwoLeft: set<int>)
    requires idx !! idxNotwo
    ensures r.Ok? <==> Assignable(sn, |idx|, |idxNotwo|)
    ensures r.Err? ==> r.error != NoSolution
    ensures r.Err? ==> (r.error == ValueError <==>
                          CountMatches(sn, |idx|, |idxNotwo|) && !Drawable(sn, |idx|, |idxNotwo|))
    ensures r.Ok? ==> idxLeft == {} && idxNotwoLeft == {}
    ensures !CountMatches(sn, |idx|, |idxNotwo|) ==> idxLeft == idx && idxNotwoLeft == idxNotwo
    ensures r.Ok? ==> IsAssignment(sn, idx, idxNotwo, r.value)
    ensures idxLeft <= idx && idxNotwoLeft <= idxNotwo
    ensures r.Err? && r.error == ValueError && sn.removed > |idxNotwo| ==> idxLeft == idx && idxNotwoLeft == idxNotwo
    ensures r.Err? && r.error == AssertionError && CountMatches(sn, |idx|, |idxNotwo|) ==>
              idxLeft == {} && idxNotwoLeft == {}
  {
    idxLeft, idxNotwoLeft := idx, idxNotwo;
    if NPeople(sn) != |idx| + |idxNotwo| {
      return Err(AssertionError), idxLeft, idxNotwoLeft;
    }
    var removed :- Sample(idxNotwo, sn.removed);
    idxNotwoLeft := idxNotwo - removed;
    r, idxLeft, idxNotwoLeft := DrawAll(sn, idx, idxNotwo, removed, idxLeft, idxNotwoLeft);
  }

  /** The solver and `pair_up` fit together: for a well-formed population
      the solver can group, `pair_up` on disjoint sets of that many people
      (the no-twos among them in `idxNotwo`) succeeds. */
  lemma SolvedNumbersAreAssignable(ps: ProblemStatement, nIdx: nat, nNotwo: nat)
    requires WellFormed(ps) && SolveNumeric(ps).Ok?
    requires nIdx + nNotwo == ps.nPeople && nNotwo == ps.nNotwo
    ensures Assignable(SolveNumeric(ps).value, nIdx, nNotwo)
  {
    var sn := SolveNumeric(ps).value;
    RemovalOnlyAtFive(ps);
    PairsOnlyWhenAffordable(ps);
    assert sn.removed <= 1;
  }

  lemma SameSizeSubset(a: set<int>, b: set<int>)
    requires a <= b && |a| == |b|
    ensures a == b
  {
    CardDifference(b, a);
    assert b - a == {};
  }

  /** The scenario of `pair_up`'s unit test, with the two sets it means: two
      people accept pairs and three refuse them, and one pair and one group
      of three are asked for. Whatever the random draws, the pair is the two
      who accept pairs and the three others form the group of three. */
  method PairUpExample() returns (r: Result<PairUpResult>)
    ensures r == Ok(PairUpResult([{0, 1}, {2, 3, 4}], {}))
  {
    var sn := SolutionNumbers((1, 1, 0), 0);
    var idx: set<int> := {0, 1};
    var idxNotwo: set<int> := {2, 3, 4};
    var idxLeft, idxNotwoLeft;
    r, idxLeft, idxNotwoLeft := PairUp(sn, idx, idxNotwo);
    assert r.Ok?;
    var seg := r.value.segmentation;
    assert |seg[0]| == 2 && seg[0] <= idx;
    SameSizeSubset(seg[0], idx);
    assert |seg| == 2;
    assert Members(seg[..1]) == seg[0] by { assert seg[..1][..0] == []; }
    assert Members(seg) == seg[0] + seg[1];
    assert seg[1] == idxNotwo;
    assert seg == [{0, 1}, {2, 3, 4}];
  }
}

/** The bookkeeping behind `meetupmatcher.matcher.pair_up`: groups of
    people drawn so far, what a finished assignment must satisfy, and how
    drawing one more group preserves the invariants. People are integer
    indices; `idx` holds those happy to be in a pair, `idxNotwo` those who
    refuse one. */
module Partition {
  import opened GroupCount

  /** The groups formed, in the order they were drawn, and the people left out. */
  datatype PairUpResult = PairUpResult(segmentation: seq<set<int>>, removed: set<int>)

  /** Everybody placed in some group. */
  function Members(groups: seq<set<int>>): set<int> {
    if groups == [] then {} else Members(groups[..|groups| - 1]) + groups[|groups| - 1]
  }

  predicate PairwiseDisjoint(groups: seq<set<int>>) {
    forall j, l :: 0 <= j < l < |groups| ==> groups[j] !! groups[l]
  }

  /** `sum(map(len, segmentation))`. */
  function SumSizes(groups: seq<set<int>>): nat {
    if groups == [] then 0 else SumSizes(groups[..|groups| - 1]) + |groups[|groups| - 1]|
  }

  /** The number of groups a solution asks for. */
  function NGroups(sn: SolutionNumbers): nat {
    sn.partitions.0 + sn.partitions.1 + sn.partitions.2
  }

  /** The size of the `j`-th group drawn: pairs first, then threes, then fours. */
  function SizeAt(sn: SolutionNumbers, j: int): nat {
    if j < sn.partitions.0 then 2
    else if j < sn.partitions.0 + sn.partitions.1 then 3
    else 4
  }

  /** The check at the top of `pair_up`: the solution is for this many people. */
  predicate CountMatches(sn: SolutionNumbers, nIdx: nat, nNotwo: nat) {
    NPeople(sn) == nIdx + nNotwo
  }

  /** Enough no-twos to remove, and enough others to fill the pairs. */
  predicate Drawable(sn: SolutionNumbers, nIdx: nat, nNotwo: nat) {
    sn.removed <= nNotwo && 2 * sn.partitions.0 <= nIdx
  }

  /** When `pair_up` returns normally, in terms of the sizes of its inputs. */
  predicate Assignable(sn: SolutionNumbers, nIdx: nat, nNotwo: nat) {
    CountMatches(sn, nIdx, nNotwo) && Drawable(sn, nIdx, nNotwo) && NGroups(sn) > 0
  }

  lemma {:induction false} MembersContainGroups(groups: seq<set<int>>)
    ensures forall j :: 0 <= j < |groups| ==> groups[j] <= Members(groups)
  {
    if groups != [] {
      var init := groups[..|groups| - 1];
      MembersContainGroups(init);
      assert forall j :: 0 <= j < |init| ==> groups[j] == init[j];
    }
  }

  lemma {:induction false} SumSizesOfNonEmpty(groups: seq<set<int>>)
    requires forall j :: 0 <= j < |groups| ==> |groups[j]| >= 2
    ensures SumSizes(groups) == 0 <==> groups == []
  {
    if groups != [] {
      var init := groups[..|groups| - 1];
      assert forall j :: 0 <= j < |init| ==> init[j] == groups[j];
      SumSizesOfNonEmpty(init);
    }
  }

  lemma CardDifference(a: set<int>, b: set<int>)
    requires b <= a
    ensures |a - b| == |a| - |b|
  {
    assert a == (a - b) + b;
  }

  /** Taking a drawn group out of the two disjoint working sets removes
      exactly its members from their joint count. */
  lemma CardTakeGroup(rest: set<int>, restNotwo: set<int>, g: set<int>)
    requires rest !! restNotwo && g <= rest + restNotwo
    ensures |rest - g| + |restNotwo - g| == |rest| + |restNotwo| - |g|
  {
    assert (rest - g) !! (restNotwo - g);
    assert (rest - g) + (restNotwo - g) == (rest + restNotwo) - g;
    CardDifference(rest + restNotwo, g);
  }

  /** How many people the groups not yet drawn still need, stage `i` (group
      size `i + 2`) having drawn `k` of its groups. */
  function Remaining(sn: SolutionNumbers, i: nat, k: nat): int
    requires i <= 3
  {
    var (twos, threes, fours) := sn.partitions;
    if i == 0 then 2 * (twos - k) + 3 * threes + 4 * fours
    else if i == 1 then 3 * (threes - k) + 4 * fours
    else if i == 2 then 4 * (fours - k)
    else 0
  }

  /** How many groups come before stage `i`. */
  function GroupsBefore(sn: SolutionNumbers, i: nat): nat
    requires i <= 3
  {
    if i == 0 then 0
    else if i == 1 then sn.partitions.0
    else if i == 2 then sn.partitions.0 + sn.partitions.1
    else NGroups(sn)
  }

  function Part(sn: SolutionNumbers, i: nat): nat
    requires i < 3
  {
    if i == 0 then sn.partitions.0 else if i == 1 then sn.partitions.1 else sn.partitions.2
  }

  /** The groups drawn so far have the sizes `sn` asks for, in order, and
      the pairs among them hold people who accept pairs only. */
  predicate Shaped(sn: SolutionNumbers, idx: set<int>, segmentation: seq<set<int>>) {
    && (forall j :: 0 <= j < |segmentation| ==> |segmentation[j]| == SizeAt(sn, j))
    && (forall j :: 0 <= j < |segmentation| && j < sn.partitions.0 ==> segmentation[j] <= idx)
  }

  /** The groups drawn so far, the removed people and the two working sets
      partition everybody, and the working sets hold nobody removed. */
  predicate Placed(idx: set<int>, idxNotwo: set<int>, removed: set<int>,
                   segmentation: seq<set<int>>, idxLeft: set<int>, idxNotwoLeft: set<int>)
  {
    && idxLeft <= idx && idxNotwoLeft <= idxNotwo - removed
    && PairwiseDisjoint(segmentation)
    && Members(segmentation) !! (idxLeft + idxNotwoLeft + removed)
    && Members(segmentation) + removed + idxLeft + idxNotwoLeft == idx + idxNotwo
  }

  /** What holds of a partial assignment while `pair_up` draws groups. */
  predicate Drawing(sn: SolutionNumbers, idx: set<int>, idxNotwo: set<int>, removed: set<int>,
                    segmentation: seq<set<int>>, idxLeft: set<int>, idxNotwoLeft: set<int>)
  {
    Shaped(sn, idx, segmentation) && Placed(idx, idxNotwo, removed, segmentation, idxLeft, idxNotwoLeft)
  }

  /** Appending a group of the next size keeps the groups shaped. */
  lemma ShapeStep(sn: SolutionNumbers, idx: set<int>, segmentation: seq<set<int>>, group: set<int>)
    requires Shaped(sn, idx, segmentation)
    requires |group| == SizeAt(sn, |segmentation|)
    requires |segmentation| < sn.partitions.0 ==> group <= idx
    ensures Shaped(sn, idx, segmentation + [group])
  {
    var seg' := segmentation + [group];
    assert forall j :: 0 <= j < |segmentation| ==> seg'[j] == segmentation[j];
  }

  /** Moving a group out of the working sets into the groups drawn keeps the
      partition. */
  lemma PlaceStep(idx: set<int>, idxNotwo: set<int>, removed: set<int>,
                  segmentation: seq<set<int>>, idxLeft: set<int>, idxNotwoLeft: set<int>, group: set<int>)
    requires idx !! idxNotwo && removed <= idxNotwo
    requires Placed(idx, idxNotwo, removed, segmentation, idxLeft, idxNotwoLeft)
    requires group <= idxLeft + idxNotwoLeft
    ensures Placed(idx, idxNotwo, removed, segmentation + [group], idxLeft - group, idxNotwoLeft - group)
  {
    var seg' := segmentation + [group];
    assert seg'[..|segmentation|] == segmentation;
    assert Members(seg') == Members(segmentation) + group;
    DisjointAfterStep(segmentation, group, idxLeft + idxNotwoLeft);
    assert (idxLeft + idxNotwoLeft) !! removed;
    CoverAfterStep(Members(segmentation), group, idxLeft, idxNotwoLeft, removed, idx + idxNotwo);
  }

  /** Drawing one more group of the next size out of the working sets keeps
      the partial assignment consistent, and shrinks the working sets by
      exactly the group's size. */
  lemma DrawStep(sn: SolutionNumbers, idx: set<int>, idxNotwo: set<int>, removed: set<int>,
                 segmentation: seq<set<int>>, idxLeft: set<int>, idxNotwoLeft: set<int>,
                 group: set<int>)
    requires idx !! idxNotwo && removed <= idxNotwo
    requires Drawing(sn, idx, idxNotwo, removed, segmentation, idxLeft, idxNotwoLeft)
    requires group <= idxLeft + idxNotwoLeft && |group| == SizeAt(sn, |segmentation|)
    requires |segmentation| < sn.partitions.0 ==> group <= idxLeft
    ensures Drawing(sn, idx, idxNotwo, removed, segmentation + [group], idxLeft - group, idxNotwoLeft - group)
    ensures |idxLeft - group| + |idxNotwoLeft - group| == |idxLeft| + |idxNotwoLeft| - |group|
  {
    ShapeStep(sn, idx, segmentation, group);
    PlaceStep(idx, idxNotwo, removed, segmentation, idxLeft, idxNotwoLeft, group);
    assert idxLeft !! idxNotwoLeft;
    CardTakeGroup(idxLeft, idxNotwoLeft, group);
  }

  /** Moving a group from the working sets to the placed people keeps the
      placed people, the removed and the working sets a partition. */
  lemma CoverAfterStep(placed: set<int>, group: set<int>, idxLeft: set<int>, idxNotwoLeft: set<int>,
                       removed: set<int>, everybody: set<int>)
    requires group <= idxLeft + idxNotwoLeft && (idxLeft + idxNotwoLeft) !! removed
    requires placed !! (idxLeft + idxNotwoLeft + removed)
    requires placed + removed + idxLeft + idxNotwoLeft == everybody
    ensures (placed + group) !! ((idxLeft - group) + (idxNotwoLeft - group) + removed)
    ensures (placed + group) + removed + (idxLeft - group) + (idxNotwoLeft - group) == everybody
  {
  }

  lemma DisjointAfterStep(segmentation: seq<set<int>>, group: set<int>, pool: set<int>)
    requires PairwiseDisjoint(segmentation)
    requires Members(segmentation) !! pool && group <= pool
    ensures PairwiseDisjoint(segmentation + [group])
  {
    var seg' := segmentation + [group];
    MembersContainGroups(segmentation);
    forall j, l | 0 <= j < l < |seg'|
      ensures seg'[j] !! seg'[l]
    {
      if l == |segmentation| {
        assert seg'[j] == segmentation[j];
      } else {
        assert seg'[j] == segmentation[j] && seg'[l] == segmentation[l];
      }
    }
  }

  /** The bookkeeping of stage `i` after `k` of its groups: the next group
      drawn has size `i + 2`, and it needs that many of the people left. */
  lemma StageCounts(sn: SolutionNumbers, i: nat, k: nat)
    requires i < 3 && k <= Part(sn, i)
    ensures k == Part(sn, i) ==> GroupsBefore(sn, i) + k == GroupsBefore(sn, i + 1)
    ensures k == Part(sn, i) ==> Remaining(sn, i, k) == Remaining(sn, i + 1, 0)
    ensures k < Part(sn, i) ==> SizeAt(sn, GroupsBefore(sn, i) + k) == i + 2
    ensures k < Part(sn, i) ==> Remaining(sn, i, k) - (i + 2) == Remaining(sn, i, k + 1)
    ensures k < Part(sn, i) ==> Remaining(sn, i, k) >= i + 2
    ensures GroupsBefore(sn, i) + k < sn.partitions.0 <==> i == 0 && k < Part(sn, i)
  {
  }

  /** Where `pair_up` stands, by the numbers, after drawing `k` groups of
      stage `i`: how many groups are drawn and how many people are left. */
  predicate InStage(sn: SolutionNumbers, i: nat, k: nat, idx: set<int>, idxNotwo: set<int>,
                    removed: set<int>, segmentation: seq<set<int>>,
                    idxLeft: set<int>, idxNotwoLeft: set<int>)
  {
    && i < 3 && k <= Part(sn, i)
    && idx !! idxNotwo && removed <= idxNotwo && idxLeft !! idxNotwoLeft
    && |segmentation| == GroupsBefore(sn, i) + k
    && |idxLeft| + |idxNotwoLeft| == Remaining(sn, i, k)
    && (i == 0 ==> |idxLeft| == |idx| - 2 * k && idxNotwoLeft == idxNotwo - removed)
  }

  /** Drawing the next group of stage `i` from the right pool moves on to
      the next position of the stage. */
  lemma StageStep(sn: SolutionNumbers, i: nat, k: nat, idx: set<int>, idxNotwo: set<int>,
                  removed: set<int>, segmentation: seq<set<int>>,
                  idxLeft: set<int>, idxNotwoLeft: set<int>, group: set<int>)
    requires InStage(sn, i, k, idx, idxNotwo, removed, segmentation, idxLeft, idxNotwoLeft)
    requires k < Part(sn, i) && |group| == i + 2
    requires group <= (if i == 0 then idxLeft else idxLeft + idxNotwoLeft)
    ensures InStage(sn, i, k + 1, idx, idxNotwo, removed, segmentation + [group],
                    idxLeft - group, idxNotwoLeft - group)
  {
    StageCounts(sn, i, k);
    CardTakeGroup(idxLeft, idxNotwoLeft, group);
    if i == 0 {
      assert idxNotwoLeft - group == idxNotwoLeft;
    }
  }


  /** Having drawn every group of stage `i`, `pair_up` is at the start of
      the next stage, or, after the fours, has used everybody up. */
  lemma NextStage(sn: SolutionNumbers, i: nat, idx: set<int>, idxNotwo: set<int>,
                  removed: set<int>, segmentation: seq<set<int>>,
                  idxLeft: set<int>, idxNotwoLeft: set<int>)
    requires i < 3 && InStage(sn, i, Part(sn, i), idx, idxNotwo, removed, segmentation, idxLeft, idxNotwoLeft)
    ensures i < 2 ==> InStage(sn, i + 1, 0, idx, idxNotwo, removed, segmentation, idxLeft, idxNotwoLeft)
    ensures i == 2 ==> |segmentation| == NGroups(sn) && idxLeft == {} && idxNotwoLeft == {}
    ensures i == 0 ==> 2 * sn.partitions.0 <= |idx|
  {
    StageCounts(sn, i, Part(sn, i));
  }


  /** After the removal, nothing is drawn yet and the working sets hold
      exactly the people the groups need. */
  lemma StartStage(sn: SolutionNumbers, idx: set<int>, idxNotwo: set<int>, removed: set<int>)
    requires idx !! idxNotwo && removed <= idxNotwo && |removed| == sn.removed
    requires CountMatches(sn, |idx|, |idxNotwo|)
    ensures InStage(sn, 0, 0, idx, idxNotwo, removed, [], idx, idxNotwo - removed)
    ensures Drawing(sn, idx, idxNotwo, removed, [], idx, idxNotwo - removed)
  {
    CardDifference(idxNotwo, removed);
    assert Members([]) == {};
  }


  /** What a completed `pair_up` guarantees: `sn.removed` no-twos are left
      out; the groups come in the order pairs, threes, fours with the counts
      `sn` asks for; no pair holds a no-two; and groups and removed people
      partition everybody. */
  predicate IsAssignment(sn: SolutionNumbers, idx: set<int>, idxNotwo: set<int>, res: PairUpResult) {
    && res.removed <= idxNotwo && |res.removed| == sn.removed
    && |res.segmentation| == NGroups(sn)
    && (forall j :: 0 <= j < |res.segmentation| ==> |res.segmentation[j]| == SizeAt(sn, j))
    && (forall j :: 0 <= j < |res.segmentation| && |res.segmentation[j]| == 2 ==> res.segmentation[j] <= idx)
    && PairwiseDisjoint(res.segmentation)
    && Members(res.segmentation) !! res.removed
    && Members(res.segmentation) + res.removed == idx + idxNotwo
  }

  /** Once every group is drawn and the working sets are empty, the groups
      drawn form an assignment, and they hold somebody exactly when at least
      one group was asked for. */
  lemma Completed(sn: SolutionNumbers, idx: set<int>, idxNotwo: set<int>, removed: set<int>,
                  segmentation: seq<set<int>>)
    requires removed <= idxNotwo && |removed| == sn.removed
    requires Drawing(sn, idx, idxNotwo, removed, segmentation, {}, {})
    requires |segmentation| == NGroups(sn)
    ensures IsAssignment(sn, idx, idxNotwo, PairUpResult(segmentation, removed))
    ensures SumSizes(segmentation) == 0 <==> NGroups(sn) == 0
  {
    SumSizesOfNonEmpty(segmentation);
  }

}

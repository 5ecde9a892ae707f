/** The group-count solver of `meetupmatcher`: given how many people take
    part and how many of them refuse a group of two, decide how many groups
    of two, three and four to form and how many people to leave out. */
module GroupCount {
  import opened Results

  /** Input to the solver. The source's fields are unbounded Python ints;
      well-formedness is the constructor's assertion, see `WellFormed`. */
  datatype ProblemStatement = ProblemStatement(nPeople: int, nNotwo: int)

  /** What `ProblemStatement.__post_init__` asserts of every instance. */
  predicate WellFormed(ps: ProblemStatement) {
    ps.nPeople >= ps.nNotwo >= 0
  }

  /** Constructing a `ProblemStatement`: the assertion in `__post_init__`
      rejects a negative no-two count or more no-twos than people. */
  function NewProblemStatement(nPeople: int, nNotwo: int): (r: Result<ProblemStatement>)
    ensures r.Ok? <==> 0 <= nNotwo <= nPeople
    ensures r.Ok? ==> WellFormed(r.value) && r.value.nPeople == nPeople && r.value.nNotwo == nNotwo
    ensures r.Err? ==> r.error == AssertionError
  {
    var ps := ProblemStatement(nPeople, nNotwo);
    if WellFormed(ps) then Ok(ps) else Err(AssertionError)
  }

  /** Counts of groups of two, three and four, and of people left out.
      Counts are natural numbers: the solver only ever produces such. */
  datatype SolutionNumbers = SolutionNumbers(partitions: (nat, nat, nat), removed: nat)

  /** A solution that leaves nobody out. */
  function Groups(twos: nat, threes: nat, fours: nat): SolutionNumbers {
    SolutionNumbers((twos, threes, fours), 0)
  }

  /** The head count a solution accounts for (`SolutionNumbers.n_people`):
      every group holds at least two people, and only the empty solution
      accounts for nobody. */
  function NPeople(s: SolutionNumbers): (n: nat)
    ensures n == 0 <==> s.partitions == (0, 0, 0) && s.removed == 0
    ensures n >= 2 * (s.partitions.0 + s.partitions.1 + s.partitions.2) + s.removed
  {
    2 * s.partitions.0 + 3 * s.partitions.1 + 4 * s.partitions.2 + s.removed
  }

  function Max(a: int, b: int): int {
    if a < b then b else a
  }

  /** The inputs for which no grouping exists: fewer than two people, or a
      lone pair of which somebody refuses to be in a pair. */
  predicate Unsolvable(ps: ProblemStatement) {
    ps.nPeople < 2 || (ps.nPeople == 2 && ps.nNotwo != 0)
  }

  /** `_solve_numeric`: a table of base cases for two to eight people; a
      larger population gets one more group of three, three of the no-twos
      (if there are that many) going into it. The assertion that the
      recursive call removed nobody is proved here, not checked. */
  function SolveNumericRaw(ps: ProblemStatement): (r: Result<SolutionNumbers>)
    requires WellFormed(ps)
    ensures r.Ok? <==> !Unsolvable(ps)
    ensures r.Err? ==> r.error == NoSolution
    ensures r.Ok? && ps.nPeople >= 6 ==> r.value.partitions.0 == 0 && r.value.removed == 0
    decreases ps.nPeople
  {
    var n := ps.nPeople;
    if n < 2 then Err(NoSolution)
    else if n == 2 then
      if ps.nNotwo != 0 then Err(NoSolution) else Ok(Groups(1, 0, 0))
    else if n == 3 then Ok(Groups(0, 1, 0))
    else if n == 4 then Ok(Groups(0, 0, 1))
    else if n == 5 then
      if ps.nNotwo <= 3 then Ok(Groups(1, 1, 0)) else Ok(SolutionNumbers((0, 0, 1), 1))
    else if n == 6 then Ok(Groups(0, 2, 0))
    else if n == 7 then Ok(Groups(0, 1, 1))
    else if n == 8 then Ok(Groups(0, 0, 2))
    else
      // constructing the smaller statement passes `__post_init__`: WellFormed holds
      var s :- SolveNumericRaw(ProblemStatement(n - 3, Max(0, ps.nNotwo - 3)));
      assert s.removed == 0;
      Ok(Groups(s.partitions.0, s.partitions.1 + 1, s.partitions.2))
  }

  /** Every solution the raw solver returns accounts for every person. */
  lemma {:induction false} HeadCount(ps: ProblemStatement)
    requires WellFormed(ps)
    ensures SolveNumericRaw(ps).Ok? ==> NPeople(SolveNumericRaw(ps).value) == ps.nPeople
    decreases ps.nPeople
  {
    if ps.nPeople > 8 {
      HeadCount(ProblemStatement(ps.nPeople - 3, Max(0, ps.nNotwo - 3)));
    }
  }

  /** `solve_numeric`: the raw solver followed by a head-count check, which
      `HeadCount` shows can never fail. */
  function SolveNumeric(ps: ProblemStatement): (r: Result<SolutionNumbers>)
    requires WellFormed(ps)
    ensures r.Ok? <==> !Unsolvable(ps)
    ensures r.Err? ==> r.error == NoSolution
    ensures r.Ok? ==> NPeople(r.value) == ps.nPeople
  {
    var s :- SolveNumericRaw(ps);
    HeadCount(ps);
    assert NPeople(s) == ps.nPeople;
    Ok(s)
  }

  /** Somebody is left out only for five people of whom at least four refuse
      pairs; then the other four form one group of four. */
  lemma RemovalOnlyAtFive(ps: ProblemStatement)
    requires WellFormed(ps)
    requires SolveNumeric(ps).Ok?
    ensures SolveNumeric(ps).value.removed != 0 <==> ps.nPeople == 5 && ps.nNotwo >= 4
    ensures SolveNumeric(ps).value.removed != 0 ==> SolveNumeric(ps).value == SolutionNumbers((0, 0, 1), 1)
  {
  }

  /** At most one pair is ever requested, and only when at least two people
      accept a pair; from six people on, all groups have three or four. */
  lemma PairsOnlyWhenAffordable(ps: ProblemStatement)
    requires WellFormed(ps)
    requires SolveNumeric(ps).Ok?
    ensures SolveNumeric(ps).value.partitions.0 <= 1
    ensures SolveNumeric(ps).value.partitions.0 == 1 <==>
              (ps.nPeople == 2 && ps.nNotwo == 0) || (ps.nPeople == 5 && ps.nNotwo <= 3)
    ensures 2 * SolveNumeric(ps).value.partitions.0 <= ps.nPeople - ps.nNotwo
    ensures ps.nPeople >= 6 ==> SolveNumeric(ps).value.partitions.0 == 0
  {
  }

  /** An independent description of the solution for six or more people:
      as many groups of three as possible, with one or two groups of four
      absorbing a remainder of one or two. */
  function ClosedForm(n: int): SolutionNumbers
    requires n >= 6
  {
    if n % 3 == 0 then Groups(0, n / 3, 0)
    else if n % 3 == 1 then Groups(0, (n - 4) / 3, 1)
    else Groups(0, (n - 8) / 3, 2)
  }

  /** Above eight people, the raw solver adds one group of three to what it
      finds for three people fewer, who always have a solution. */
  lemma RecursionStep(ps: ProblemStatement)
    requires WellFormed(ps) && ps.nPeople > 8
    ensures SolveNumericRaw(ProblemStatement(ps.nPeople - 3, Max(0, ps.nNotwo - 3))).Ok?
    ensures var s := SolveNumericRaw(ProblemStatement(ps.nPeople - 3, Max(0, ps.nNotwo - 3))).value;
            SolveNumericRaw(ps) == Ok(Groups(s.partitions.0, s.partitions.1 + 1, s.partitions.2))
  {
  }

  /** The closed form grows by one group of three every three people. */
  lemma ClosedFormStep(n: int)
    requires n > 8
    ensures ClosedForm(n) == Groups(0, ClosedForm(n - 3).partitions.1 + 1, ClosedForm(n - 3).partitions.2)
  {
    assert (n - 3) % 3 == n % 3;
  }

  lemma {:induction false} RawClosedForm(ps: ProblemStatement)
    requires WellFormed(ps) && ps.nPeople >= 6
    ensures SolveNumericRaw(ps) == Ok(ClosedForm(ps.nPeople))
    decreases ps.nPeople
  {
    if ps.nPeople > 8 {
      RawClosedForm(ProblemStatement(ps.nPeople - 3, Max(0, ps.nNotwo - 3)));
      RecursionStep(ps);
      ClosedFormStep(ps.nPeople);
    }
  }

  /** From six people on, the solver computes the closed form, whatever
      the number of no-twos. */
  lemma SolveMatchesClosedForm(ps: ProblemStatement)
    requires WellFormed(ps) && ps.nPeople >= 6
    ensures SolveNumeric(ps) == Ok(ClosedForm(ps.nPeople))
  {
    RawClosedForm(ps);
  }

  /** The expected values and the solvable and unsolvable inputs of the
      solver's unit tests. */
  lemma UnitTestValues()
    ensures SolveNumeric(ProblemStatement(4, 0)) == Ok(Groups(0, 0, 1))
    ensures SolveNumeric(ProblemStatement(11, 0)) == Ok(Groups(0, 1, 2))
    ensures SolveNumeric(ProblemStatement(12, 0)) == Ok(Groups(0, 4, 0))
    ensures forall i :: 3 <= i < 20 ==> SolveNumeric(ProblemStatement(i, 0)).Ok?
    ensures forall i :: 3 <= i < 20 ==> SolveNumeric(ProblemStatement(i, i)).Ok?
    ensures SolveNumeric(ProblemStatement(2, 0)) == Ok(Groups(1, 0, 0))
    ensures SolveNumeric(ProblemStatement(0, 0)) == Err(NoSolution)
    ensures SolveNumeric(ProblemStatement(1, 0)) == Err(NoSolution)
    ensures SolveNumeric(ProblemStatement(1, 1)) == Err(NoSolution)
    ensures SolveNumeric(ProblemStatement(2, 1)) == Err(NoSolution)
    ensures SolveNumeric(ProblemStatement(2, 2)) == Err(NoSolution)
  {
    SolveMatchesClosedForm(ProblemStatement(11, 0));
    SolveMatchesClosedForm(ProblemStatement(12, 0));
  }
}

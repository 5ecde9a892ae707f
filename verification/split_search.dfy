/** The group-size search of `introducer`: people prefer groups of two or
    of three; find how many of them end up in groups of two and of three so
    that both numbers divide evenly, taking the first move in the search's
    order and never moving people whose preference is fixed. */
module SplitSearch {
  import opened Results

  /** The head counts for groups of two and of three after moving `a`
      people from threes to twos and `b` people from twos to threes. */
  function Split(nTwo: int, nThree: int, a: int, b: int): (int, int) {
    (nTwo - b + a, nThree + b - a)
  }

  /** Both head counts can be cut into whole groups. Python's `%` floors and
      Dafny's is Euclidean, but for the divisors 2 and 3 both give zero
      exactly on multiples, so the test is the same for negative counts. */
  predicate Works(nTwo: int, nThree: int, a: int, b: int) {
    Split(nTwo, nThree, a, b).0 % 2 == 0 && Split(nTwo, nThree, a, b).1 % 3 == 0
  }

  /** The moves the two `range`s enumerate: at most the flexible people of
      each preference move (an empty range when there are none). */
  predicate InRange(nTwo: int, nThree: int, nTwoFixed: int, nThreeFixed: int, a: int, b: int) {
    0 <= a < nThree + 1 - nThreeFixed && 0 <= b < nTwo + 1 - nTwoFixed
  }

  /** The order in which the nested loops try the moves. */
  predicate Before(a': int, b': int, a: int, b: int) {
    a' < a || (a' == a && b' < b)
  }

  /** `find_solution`: the first admissible move in loop order, as the pair
      of head counts it leads to; `ValueError` when no move works. The
      ghost results name the move taken. */
  method FindSolution(nTwo: int, nThree: int, nTwoFixed: int, nThreeFixed: int)
    returns (r: Result<(int, int)>, ghost moveThreeToTwo: int, ghost moveTwoToThree: int)
    ensures r.Ok? ==> InRange(nTwo, nThree, nTwoFixed, nThreeFixed, moveThreeToTwo, moveTwoToThree)
    ensures r.Ok? ==> Works(nTwo, nThree, moveThreeToTwo, moveTwoToThree)
    ensures r.Ok? ==> r.value == Split(nTwo, nThree, moveThreeToTwo, moveTwoToThree)
    ensures r.Ok? ==> r.value.0 + r.value.1 == nTwo + nThree
    ensures r.Ok? ==> r.value.0 % 2 == 0 && r.value.1 % 3 == 0
    ensures r.Ok? ==> r.value.0 >= nTwoFixed && r.value.1 >= nThreeFixed
    ensures r.Ok? ==> forall a, b ::
              InRange(nTwo, nThree, nTwoFixed, nThreeFixed, a, b) && Before(a, b, moveThreeToTwo, moveTwoToThree)
              ==> !Works(nTwo, nThree, a, b)
    ensures r.Err? ==> r.error == ValueError
    ensures r.Err? ==> forall a, b :: InRange(nTwo, nThree, nTwoFixed, nThreeFixed, a, b) ==> !Works(nTwo, nThree, a, b)
  {
    var a := 0;
    while a < nThree + 1 - nThreeFixed
      invariant 0 <= a
      invariant forall a', b' :: InRange(nTwo, nThree, nTwoFixed, nThreeFixed, a', b') && a' < a ==>
                  !Works(nTwo, nThree, a', b')
    {
      var b := 0;
      while b < nTwo + 1 - nTwoFixed
        invariant 0 <= b
        invariant forall a', b' :: InRange(nTwo, nThree, nTwoFixed, nThreeFixed, a', b') && a' < a ==>
                    !Works(nTwo, nThree, a', b')
        invariant forall b' :: 0 <= b' < b ==> !Works(nTwo, nThree, a, b')
      {
        var realNTwo := nTwo - b + a;
        var realNThree := nThree + b - a;
        assert realNTwo + realNThree == nTwo + nThree;
        if realNTwo % 2 == 0 && realNThree % 3 == 0 {
          return Ok((realNTwo, realNThree)), a, b;
        }
        b := b + 1;
      }
      a := a + 1;
    }
    return Err(ValueError), 0, 0;
  }

  /** Without fixed preferences, an admissible move exists exactly when the
      total is not one: an even total all goes to pairs, an odd total of at
      least three puts three people in a group of three. */
  lemma NoFixedSplitExists(nTwo: int, nThree: int)
    requires nTwo >= 0 && nThree >= 0
    ensures (exists a, b :: InRange(nTwo, nThree, 0, 0, a, b) && Works(nTwo, nThree, a, b)) <==>
              nTwo + nThree != 1
  {
    var total := nTwo + nThree;
    if total == 1 {
      forall a, b | InRange(nTwo, nThree, 0, 0, a, b)
        ensures !Works(nTwo, nThree, a, b)
      {
        assert 0 <= Split(nTwo, nThree, a, b).0 <= 1;
      }
    } else {
      var x := if total % 2 == 0 then total else total - 3;
      var a := if x >= nTwo then x - nTwo else 0;
      var b := if x >= nTwo then 0 else nTwo - x;
      assert Split(nTwo, nThree, a, b) == (x, total - x);
      assert InRange(nTwo, nThree, 0, 0, a, b) && Works(nTwo, nThree, a, b);
    }
  }

  /** `find_solution` with its default arguments, nobody's preference
      fixed: for counts of people it fails exactly on a total of one, which
      is what the module's unit test checks for totals below twenty. */
  method FindSolutionDefault(nTwo: int, nThree: int) returns (r: Result<(int, int)>)
    ensures nTwo >= 0 && nThree >= 0 ==> (r.Err? <==> nTwo + nThree == 1)
    ensures r.Err? ==> r.error == ValueError
    ensures r.Ok? ==> r.value.0 + r.value.1 == nTwo + nThree
    ensures r.Ok? ==> r.value.0 % 2 == 0 && r.value.1 % 3 == 0
    ensures r.Ok? ==> r.value.0 >= 0 && r.value.1 >= 0
    ensures nTwo == 0 && nThree == 0 ==> r == Ok((0, 0))
  {
    ghost var a, b;
    r, a, b := FindSolution(nTwo, nThree, 0, 0);
    if nTwo >= 0 && nThree >= 0 {
      NoFixedSplitExists(nTwo, nThree);
    }
  }
}

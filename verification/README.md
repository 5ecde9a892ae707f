# meetup-matcher: group counts, group assignment and the introducer's split search

A Dafny model of the matching core of meetup-matcher.

- `results.dfy`, module `Results`: the outcome of an operation. An operation either returns a value or raises one of the exceptions the Python code raises: `NoSolution`, `AssertionError` (a failing `assert`) or `ValueError`.
- `group_count.dfy`, module `GroupCount`: `ProblemStatement` and its constructor check, `SolutionNumbers` and its head count, and the solvers `_solve_numeric` and `solve_numeric`. The solvers decide how many groups of two, three and four to form, and how many people to leave out, so that nobody who refuses a pair ends up in one.
- `partition.dfy`, module `Partition`: the bookkeeping behind `pair_up`.
  - What a finished assignment is (`IsAssignment`).
  - The invariants of a partial one (`Drawing`, `InStage`).
  - Lemmas showing that drawing one more group preserves those invariants.
- `pair_up.dfy`, module `Assignment`: `sample` as a nondeterministic choice of a subset of the requested size, the two nested drawing loops of `pair_up`, and `pair_up` itself.
- `split_search.dfy`, module `SplitSearch`: `find_solution` of the `introducer` package. It searches, in loop order, for the first way of moving flexible people between groups of two and groups of three so that both head counts divide evenly.

Randomness is not modelled. `Sample` may return any subset of the requested size, so every property of `PairUp` holds for all random draws.

The Python `assert`s fall into two kinds.
- Some can never fail. These are the check that the recursive call removed nobody, the head-count check in `solve_numeric`, and the two emptiness checks after the loops of `pair_up`. They are Dafny `assert`s, which the verifier proves always hold.
- The others can fail. These are the constructor check, `pair_up`'s head-count check and its final "somebody was placed" check. Each returns `Err(AssertionError)`.

`pair_up` shrinks the caller's `idx` and `idx_notwo` in place (src/meetupmatcher/matcher.py:100, 111-112). `PairUp` therefore also returns both sets as they stand after the call.

## Model

| member | source | states |
|---|---|---|
| GroupCount.NewProblemStatement | src/meetupmatcher/matcher.py:15-22 | construction succeeds exactly when 0 <= n_notwo <= n_people, and otherwise raises an assertion error |
| GroupCount.SolveNumericRaw | src/meetupmatcher/matcher.py:41-67 | with unbounded recursion depth, succeeds exactly when there are at least two people and a lone pair has no no-two; failure is `NoSolution`; from six people on, no pairs are formed and nobody is removed, so the assertion on line 66 always holds |
| GroupCount.NPeople | src/meetupmatcher/matcher.py:31-38 | the head count 2·twos + 3·threes + 4·fours + removed; it is at least two per group plus the removed, and zero only for the empty solution |
| GroupCount.HeadCount | src/meetupmatcher/matcher.py:25-38 | every solution `_solve_numeric` returns accounts for exactly `n_people` people |
| GroupCount.SolveNumeric | src/meetupmatcher/matcher.py:70-73 | `solve_numeric` never fails its head-count assertion; with unbounded recursion depth it fails only with `NoSolution`, exactly on the unsolvable inputs |
| GroupCount.RemovalOnlyAtFive | src/meetupmatcher/matcher.py:53-57 | somebody is left out exactly for five people with at least four no-twos, and then the others form one group of four |
| GroupCount.PairsOnlyWhenAffordable | src/meetupmatcher/matcher.py:44-67 | at most one pair is formed, only for two people with no no-two or five with at most three, and the pair never needs more pair-accepting people than there are |
| GroupCount.SolveMatchesClosedForm | src/meetupmatcher/matcher.py:58-67 | from six people on, the solution is the closed form: n/3 threes, or one or two fours absorbing a remainder of one or two, whatever the number of no-twos |
| GroupCount.UnitTestValues | src/meetupmatcher/test_matcher.py:15-46 | the expected solutions, the solvable range 3..19 with zero or all no-twos, and the five unsolvable inputs of the unit tests |
| Assignment.Sample | src/meetupmatcher/matcher.py:76-81 | returns a subset of the source of exactly the requested size, and raises `ValueError` exactly when more are asked for than exist |
| Assignment.DrawGroup | src/meetupmatcher/matcher.py:104-112 | one draw keeps the groups drawn so far and appends one group of `i + 2` people taken from the working sets (a pair only from the pair-accepting people); the working sets lose exactly that group; the partial assignment stays a partition; it can only fail when pairs run out of pair-accepting people |
| Assignment.DrawStage | src/meetupmatcher/matcher.py:101-112 | after the inner loop, the earlier groups are kept as a prefix, exactly `partitions[i]` groups of stage `i` have been added, and the head count left matches the groups still to draw |
| Assignment.DrawGroups | src/meetupmatcher/matcher.py:98-115 | after both loops, every group is drawn, the working sets are empty, and failure means fewer pair-accepting people than the pairs need |
| Assignment.DrawAll | src/meetupmatcher/matcher.py:98-117 | after the removal, drawing succeeds exactly when the pair-accepting people can fill the pairs and some group is asked for; failure is `ValueError` exactly when pairs run short; success, and the failing final check, leave the working sets empty; success makes the groups an assignment |
| Assignment.PairUp | src/meetupmatcher/matcher.py:90-117 | succeeds exactly when the head count matches, the pairs and the removal can be filled and at least one group is asked for; the result leaves `removed` no-twos out, has the requested group sizes in order, puts no no-two in a pair and partitions everybody; it raises `ValueError` only for a matching head count that cannot be filled; the caller's sets never grow, are untouched when the removal cannot be drawn and are empty when the final check fails |
| Assignment.SolvedNumbersAreAssignable | src/introducer/main.py:16-20 | the arguments this caller builds never make `pair_up` raise: for counts from `solve_numeric` and a disjoint split of the same population by the no-two flag, `pair_up`'s success condition holds |
| Assignment.PairUpExample | src/meetupmatcher/test_matcher.py:49-55 | with two pair-accepting people and three no-twos, one pair and one three, the result is `[{0, 1}, {2, 3, 4}]` with nobody removed, whatever the draws |
| Partition.DrawStep | src/meetupmatcher/matcher.py:109-112 | appending a sampled group and taking it out of both working sets keeps groups, removed and working sets a partition, and shrinks the working sets by the group's size |
| Partition.Completed | src/meetupmatcher/matcher.py:114-117 | with both working sets empty, the groups drawn form an assignment, and they place somebody exactly when a group was asked for |
| SplitSearch.FindSolution | src/introducer/matcher.py:1-23 | returns the first move in loop order that makes both head counts divisible; the counts sum to the original total and keep the fixed people; raises `ValueError` only when no move in range works |
| SplitSearch.NoFixedSplitExists | src/introducer/matcher.py:16-22 | with no fixed preferences, some admissible move exists exactly when the total is not one |
| SplitSearch.FindSolutionDefault | src/introducer/test_matcher.py:6-14 | with default arguments and non-negative counts, `ValueError` is raised exactly for a total of one; otherwise the total is preserved, and nobody at all gives (0, 0) |

## Left out

- GroupCount.SolveNumericRaw: the model's recursion depth is unbounded. Above eight people, `_solve_numeric` calls itself once for every three people (src/meetupmatcher/matcher.py:65). Under CPython's default recursion limit of 1000 frames it raises `RecursionError` from roughly 3,000 people on, and `GroupCount.SolveNumeric` inherits this. The model returns the closed-form solution there instead.
- Python run with `-O`: the model assumes `assert` statements are enabled, as under a plain `python` or `pytest` run. With `-O` the checks at src/meetupmatcher/matcher.py:22, 66, 72, 96 and 114-116 are skipped, and `pair_up` would carry on with a mismatched head count.
- Random number generation and seeding (`np.random.RandomState`, the `rng` parameter): `Sample` is a nondeterministic choice of any subset of the requested size.
- Order within a drawn group and the list conversion inside `sample`: groups are sets in the source as well.
- The availability-weighted call at src/meetupmatcher/main.py:56-62. src/meetupmatcher/main.py:12 imports `pair_up` from `meetupmatcher.matcher`. That `pair_up` (src/meetupmatcher/matcher.py:90-95) has no `availabilities` parameter and returns a `PairUpResult`, not a pair, so this call does not match the modelled function.
- Reading participants, templating, mails, configuration and the command-line entry points: I/O outside the matching core.
- `pair_up`'s unit test as written (src/meetupmatcher/test_matcher.py:50-55) passes two arrays of length five, `np.arange(5)` and a boolean mask, where the code expects two sets of indices. The head-count assertion at src/meetupmatcher/matcher.py:96 then compares 5 with 5 + 5, so the test raises `AssertionError`. `Assignment.PairUpExample` states the outcome the test expects, for the two sets the mask describes: `{0, 1}` and `{2, 3, 4}`.
- The introducer's unit test imports `_find_solution`, but the module defines `find_solution`. `SplitSearch.FindSolutionDefault` models the function as defined.
- Assignment.PairUp: requires `idx` and `idx_notwo` to be disjoint, which the source leaves implicit. Its caller passes the two halves of one index split by the no-two flag (src/introducer/main.py:16-20). With overlapping sets, the head-count check would count a person twice.
- Assignment.PairUp: negative counts in `SolutionNumbers` are outside the model, whose fields are natural numbers where the source has Python ints. The solver only ever produces non-negative counts. In the source a negative group count makes its `range` empty, and a negative `removed` makes numpy's `choice` raise `ValueError` (src/meetupmatcher/matcher.py:81, 99).
- The modelled `pair_up` is the one in src/meetupmatcher/matcher.py:90-117. src/introducer/main.py:7 imports `pair_up`, `solve_numeric` and `ProblemStatement` from `introducer.matcher`, which defines only `find_solution`. `Assignment.SolvedNumbersAreAssignable` takes from that caller only how it builds the arguments.
- That caller also unpacks the result as a pair (`partitions, remove = pair_up(...)`, src/introducer/main.py:16). A `PairUpResult` dataclass (src/meetupmatcher/matcher.py:84-87) cannot be unpacked that way, and Python would raise `TypeError`. The model does not cover what the caller does with the result.

/** The `solution` Redux slice (src/store/solutionSlice.ts): submitted
    solutions, the current one, and the check results per solution id. */
module SolutionSlice {
  import opened Wrappers

  datatype Solution = Solution(id: string, userId: string, taskId: string, code: string, createdAt: int)

  datatype CheckStatus = Passed | Failed

  datatype CheckResult = CheckResult(
    id: string, solutionId: string, status: CheckStatus, timeMs: int,
    passedTests: int, errorMessage: Option<string>)

  datatype SolutionState = SolutionState(
    solutions: seq<Solution>,
    currentSolution: Option<Solution>,
    checkResults: map<string, seq<CheckResult>>,
    submitting: bool,
    error: Option<string>)

  /** The slice's `initialState`. */
  const Initial: SolutionState := SolutionState([], None, map[], false, None)

  /** The initial state holds nothing and is neither submitting nor failed. */
  lemma InitialIsEmpty()
    ensures |Initial.solutions| == 0 && Initial.currentSolution.None?
    ensures |Initial.checkResults| == 0
    ensures !Initial.submitting && Initial.error.None?
  {
  }

  /** The reducer `setSolutions`. */
  function SetSolutions(s: SolutionState, solutions: seq<Solution>): (r: SolutionState)
    ensures r.solutions == solutions
    ensures r.currentSolution == s.currentSolution && r.checkResults == s.checkResults
    ensures r.submitting == s.submitting && r.error == s.error
  {
    s.(solutions := solutions)
  }

  /** The reducer `setCurrentSolution`. */
  function SetCurrentSolution(s: SolutionState, current: Option<Solution>): (r: SolutionState)
    ensures r.currentSolution == current
    ensures r.solutions == s.solutions && r.checkResults == s.checkResults
    ensures r.submitting == s.submitting && r.error == s.error
  {
    s.(currentSolution := current)
  }

  /** The reducer `addSolution`: append, and make it the current solution. */
  function AddSolution(s: SolutionState, solution: Solution): (r: SolutionState)
    ensures |r.solutions| == |s.solutions| + 1
    ensures r.solutions[..|s.solutions|] == s.solutions
    ensures r.solutions[|s.solutions|] == solution
    ensures r.currentSolution == Some(solution)
    ensures r.checkResults == s.checkResults && r.submitting == s.submitting && r.error == s.error
  {
    s.(solutions := s.solutions + [solution], currentSolution := Some(solution))
  }

  /** The reducer `setCheckResults`: the key `solutionId` now maps to
      `results` (overwriting, not merging); every other key is untouched. */
  function SetCheckResults(s: SolutionState, solutionId: string, results: seq<CheckResult>): (r: SolutionState)
    ensures solutionId in r.checkResults && r.checkResults[solutionId] == results
    ensures r.checkResults.Keys == s.checkResults.Keys + {solutionId}
    ensures forall k :: k in s.checkResults && k != solutionId ==> r.checkResults[k] == s.checkResults[k]
    ensures r.solutions == s.solutions && r.currentSolution == s.currentSolution
    ensures r.submitting == s.submitting && r.error == s.error
  {
    s.(checkResults := s.checkResults[solutionId := results])
  }

  /** The reducer `setSubmitting`. */
  function SetSubmitting(s: SolutionState, submitting: bool): (r: SolutionState)
    ensures r.submitting == submitting
    ensures r.solutions == s.solutions && r.currentSolution == s.currentSolution
    ensures r.checkResults == s.checkResults && r.error == s.error
  {
    s.(submitting := submitting)
  }

  /** The reducer `setError`. */
  function SetError(s: SolutionState, error: Option<string>): (r: SolutionState)
    ensures r.error == error
    ensures r.solutions == s.solutions && r.currentSolution == s.currentSolution
    ensures r.checkResults == s.checkResults && r.submitting == s.submitting
  {
    s.(error := error)
  }

  /** The reducer `clearError`. */
  function ClearError(s: SolutionState): (r: SolutionState)
    ensures r.error.None?
    ensures r.solutions == s.solutions && r.currentSolution == s.currentSolution
    ensures r.checkResults == s.checkResults && r.submitting == s.submitting
  {
    s.(error := None)
  }

  /** Setting the results of one solution twice keeps only the second. */
  lemma SetCheckResultsLastWins(s: SolutionState, id: string, first: seq<CheckResult>, second: seq<CheckResult>)
    ensures SetCheckResults(SetCheckResults(s, id, first), id, second) == SetCheckResults(s, id, second)
  {
  }

  /** Results stored for different solutions do not interfere: the two
      updates commute. */
  lemma SetCheckResultsCommute(s: SolutionState, id1: string, r1: seq<CheckResult>,
                               id2: string, r2: seq<CheckResult>)
    requires id1 != id2
    ensures SetCheckResults(SetCheckResults(s, id1, r1), id2, r2)
         == SetCheckResults(SetCheckResults(s, id2, r2), id1, r1)
  {
  }

  /** Clearing the error is `setError(null)`, and doing it twice is doing it once. */
  lemma ClearErrorIsSetNull(s: SolutionState)
    ensures ClearError(s) == SetError(s, None)
    ensures ClearError(ClearError(s)) == ClearError(s)
  {
  }

  /** The current solution is the one most recently added, unless it was
      set or the list replaced since. */
  ghost predicate CurrentIsLast(s: SolutionState) {
    s.currentSolution.Some? ==> |s.solutions| > 0 && s.currentSolution.value == s.solutions[|s.solutions| - 1]
  }

  /** `addSolution` establishes that the current solution is the last one,
      and the flag and result reducers keep it. */
  lemma CurrentIsLastKept(s: SolutionState, sol: Solution, id: string, res: seq<CheckResult>, b: bool, e: Option<string>)
    ensures CurrentIsLast(AddSolution(s, sol))
    ensures CurrentIsLast(s) ==> CurrentIsLast(SetCheckResults(s, id, res))
    ensures CurrentIsLast(s) ==> CurrentIsLast(SetSubmitting(s, b))
    ensures CurrentIsLast(s) ==> CurrentIsLast(SetError(s, e))
    ensures CurrentIsLast(s) ==> CurrentIsLast(ClearError(s))
  {
  }
}

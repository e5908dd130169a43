/** The task-solving page (src/components/TaskSolverPage/TaskSolverPage.tsx):
    choosing the related lecture, the submit guard, turning the server's
    verdict into a status and a message, the Redux actions a submit
    dispatches, and when the submit button is disabled. */
module TaskSolver {
  import opened Wrappers
  import opened Js
  import opened Text
  import ProgressSlice
  import opened SolutionSlice

  datatype Lecture = Lecture(id: string, title: string, content: string)

  /** The lecture `l` matches `topic` by id or by lowered title. */
  predicate LectureMatches(l: Lecture, topic: string) {
    l.id == topic || Includes(LowerStr(l.title), LowerStr(topic))
  }

  /** `lectures.find(...)`: the index of the first matching lecture. */
  function FirstMatch(lectures: seq<Lecture>, topic: string): (r: Option<nat>)
    ensures r.Some? ==> r.value < |lectures| && LectureMatches(lectures[r.value], topic)
    ensures r.Some? ==> forall j :: 0 <= j < r.value ==> !LectureMatches(lectures[j], topic)
    ensures r.None? ==> forall j :: 0 <= j < |lectures| ==> !LectureMatches(lectures[j], topic)
  {
    if lectures == [] then None
    else if LectureMatches(lectures[0], topic) then Some(0)
    else
      var k := FirstMatch(lectures[1..], topic);
      if k.None? then None else Some(k.value + 1)
  }

  /** The related lecture: none for an empty list; otherwise the first
      lecture matching a truthy topic, or else the first lecture. */
  function RelatedLecture(lectures: seq<Lecture>, topic: Option<string>): (r: Option<Lecture>)
    ensures r.None? <==> lectures == []
    ensures r.Some? ==> r.value in lectures
    ensures lectures != [] && (topic.None? || topic.value == []) ==> r == Some(lectures[0])
    ensures lectures != [] && topic.Some? && topic.value != []
            && (forall j :: 0 <= j < |lectures| ==> !LectureMatches(lectures[j], topic.value)) ==>
              r == Some(lectures[0])
  {
    if lectures == [] then None
    else if topic.None? || topic.value == [] then Some(lectures[0])
    else
      var m := FirstMatch(lectures, topic.value);
      if m.Some? then Some(lectures[m.value]) else Some(lectures[0])
  }

  /** When some lecture matches the topic, the first matching one is chosen. */
  lemma RelatedIsFirstMatch(lectures: seq<Lecture>, topic: string, i: nat)
    requires topic != []
    requires i < |lectures| && LectureMatches(lectures[i], topic)
    requires forall j :: 0 <= j < i ==> !LectureMatches(lectures[j], topic)
    ensures RelatedLecture(lectures, Some(topic)) == Some(lectures[i])
  {
    var m := FirstMatch(lectures, topic);
    assert m.Some?;
    assert m.value == i;
  }

  /** The guard at the top of `handleSubmit`: a task is loaded and the
      answer is not blank. */
  function CanSubmit(taskLoaded: bool, answer: string): (b: bool)
    ensures b <==> taskLoaded && exists i :: 0 <= i < |answer| && !IsSpace(answer[i])
  {
    taskLoaded && Trim(answer) != []
  }

  /** `resp.correct === true`: only the boolean `true` counts, not any
      other truthy value. */
  function VerdictCorrect(correct: JsValue): (b: bool)
    ensures b <==> correct.Bool? && correct.b
    ensures b ==> Truthy(correct)
  {
    correct == Bool(true)
  }

  const MsgCorrect := "Отлично! Ваш ответ правильный"
  const MsgWrong := "Ответ неправильный. Попробуйте ещё раз или посмотрите подсказку"

  /** The `checkStatus` the page shows. */
  datatype Check = Check(passed: bool, message: string)

  /** The message and pass flag chosen by the verdict alone. */
  function CheckFor(correct: JsValue): (r: Check)
    ensures r.passed <==> correct == Bool(true)
    ensures r.message == (if r.passed then MsgCorrect else MsgWrong)
  {
    var ok := VerdictCorrect(correct);
    Check(ok, if ok then MsgCorrect else MsgWrong)
  }

  /** The progress status reported for a verdict. */
  function StatusFor(correct: JsValue): (r: ProgressSlice.Status)
    ensures r == ProgressSlice.Completed <==> correct == Bool(true)
    ensures r != ProgressSlice.Completed ==> r == ProgressSlice.InProgress
  {
    if VerdictCorrect(correct) then ProgressSlice.Completed else ProgressSlice.InProgress
  }

  /** A truthy but non-boolean `correct` such as 1 or "true" is a failure. */
  lemma TruthyIsNotCorrect()
    ensures !CheckFor(Num(1)).passed && !CheckFor(Str("true")).passed
    ensures StatusFor(Num(1)) == ProgressSlice.InProgress
  {
  }

  /** What `createSolution` answered: a reply, or a thrown error. */
  datatype Reply =
    | Reply(solution: Solution, checkResult: CheckResult, correct: JsValue)
    | Thrown(message: string)

  const MsgSubmitError := "Error submitting solution"

  /** The page and store after a submit. */
  datatype Page = Page(slice: SolutionState, check: Option<Check>, submitted: bool,
                       error: Option<string>, reportedStatus: Option<ProgressSlice.Status>)

  /** `handleSubmit`, with the server's answer as a parameter. A blocked
      submit changes nothing; otherwise the dispatched actions are applied
      to the solution slice in the order the handler sends them. */
  function HandleSubmit(p: Page, taskLoaded: bool, answer: string, reply: Reply): (r: Page)
    ensures !CanSubmit(taskLoaded, answer) ==> r == p
    ensures CanSubmit(taskLoaded, answer) ==> !r.slice.submitting
    ensures CanSubmit(taskLoaded, answer) && reply.Reply? ==>
              && r.slice.error.None?
              && r.slice.solutions == p.slice.solutions + [reply.solution]
              && r.slice.currentSolution == Some(reply.solution)
              && reply.solution.id in r.slice.checkResults
              && r.slice.checkResults[reply.solution.id] == [reply.checkResult]
              && r.check == Some(CheckFor(reply.correct))
              && r.reportedStatus == Some(StatusFor(reply.correct))
              && r.submitted && r.error.None?
    ensures CanSubmit(taskLoaded, answer) && reply.Thrown? ==>
              && r.error == Some(StrOr(Some(reply.message), MsgSubmitError))
              && r.slice.error == r.error
              && r.slice.solutions == p.slice.solutions
              && r.check == p.check && r.submitted == p.submitted
  {
    if !CanSubmit(taskLoaded, answer) then p
    else
      var s := ClearError(SetSubmitting(p.slice, true));
      match reply
      case Reply(solution, checkResult, correct) =>
        var s' := SetCheckResults(AddSolution(s, solution), solution.id, [checkResult]);
        Page(SetSubmitting(s', false), Some(CheckFor(correct)), true, None, Some(StatusFor(correct)))
      case Thrown(message) =>
        var msg := StrOr(Some(message), MsgSubmitError);
        p.(slice := SetSubmitting(SetError(s, Some(msg)), false), error := Some(msg))
  }

  /** The submit button's `disabled` condition: a blank answer, a submit in
      flight, or an answer already accepted. */
  function SubmitDisabled(answer: string, submitting: bool, submitted: bool, check: Option<Check>): (b: bool)
    ensures b <==> || (forall i :: 0 <= i < |answer| ==> IsSpace(answer[i]))
                   || submitting
                   || (submitted && check.Some? && check.value.passed)
  {
    Trim(answer) == [] || submitting || (submitted && check.Some? && check.value.passed)
  }

  /** The button is disabled after a passing submit, and enabled again for
      a new answer after a failing one once submitting ends. */
  lemma DisabledAfterPass(p: Page, taskLoaded: bool, answer: string, reply: Reply, next: string)
    requires CanSubmit(taskLoaded, answer) && reply.Reply?
    ensures var r := HandleSubmit(p, taskLoaded, answer, reply);
            SubmitDisabled(next, r.slice.submitting, r.submitted, r.check) <==>
              (Trim(next) == [] || reply.correct == Bool(true))
  {
  }

  /** Whenever the handler would return early, the button is disabled too,
      or no task is loaded. */
  lemma GuardAgreesWithButton(taskLoaded: bool, answer: string, submitting: bool, submitted: bool,
                              check: Option<Check>)
    requires taskLoaded && !CanSubmit(taskLoaded, answer)
    ensures SubmitDisabled(answer, submitting, submitted, check)
  {
  }
}

/** A task card (src/components/TaskCard/TaskCard.tsx): the solve action,
    the route it builds, the difficulty badges and the button label. */
module TaskCard {
  import opened Wrappers
  import opened Text
  import opened AppTasks

  datatype SolveAction = Navigate(path: string) | Select(task: Task)

  const CoursePrefix := "/course/"
  const TaskInfix := "/task/"

  /** The path of the route `/course/:courseId/task/:taskId`. */
  function TaskPath(courseId: string, taskId: string): string {
    CoursePrefix + courseId + TaskInfix + taskId
  }

  /** `handleSolve`: with a course, navigate to the task's route; without
      one, hand the task to `onSelect`. */
  function HandleSolve(courseId: Option<string>, task: Task): (r: SolveAction)
    ensures courseId.Some? && courseId.value != [] ==> r == Navigate(TaskPath(courseId.value, task.id))
    ensures courseId.None? || courseId.value == [] ==> r == Select(task)
  {
    if courseId.Some? && courseId.value != [] then Navigate(TaskPath(courseId.value, task.id))
    else Select(task)
  }

  /** A route parameter: one non-empty path segment. */
  predicate IsSegment(s: string) {
    s != [] && '/' !in s
  }

  /** Matching a pathname against `/course/:courseId/task/:taskId`, exactly:
      the literal segments compare case-sensitively, no trailing slash is
      taken and the parameters are not percent-decoded. */
  function ParseTaskPath(path: string): (r: Option<(string, string)>)
    ensures r.Some? ==> IsSegment(r.value.0) && IsSegment(r.value.1)
    ensures r.Some? ==> path == TaskPath(r.value.0, r.value.1)
  {
    if !StartsWith(path, CoursePrefix) then None
    else
      var rest := path[|CoursePrefix|..];
      var c := BeforeFirst(rest, '/');
      var rest2 := rest[|c|..];
      if c == [] || !StartsWith(rest2, TaskInfix) then None
      else
        var t := rest2[|TaskInfix|..];
        if t == [] || '/' in t then None
        else
          RebuildTaskPath(path, rest, c, rest2, t);
          Some((c, t))
  }

  /** The pieces `ParseTaskPath` cuts a path into put it back together. */
  lemma RebuildTaskPath(path: string, rest: string, c: string, rest2: string, t: string)
    requires StartsWith(path, CoursePrefix) && rest == path[|CoursePrefix|..]
    requires StartsWith(rest, c) && rest2 == rest[|c|..]
    requires StartsWith(rest2, TaskInfix) && t == rest2[|TaskInfix|..]
    ensures path == TaskPath(c, t)
  {
    PrefixSplit(path, CoursePrefix);
    PrefixSplit(rest, c);
    PrefixSplit(rest2, TaskInfix);
  }

  /** The pathname `navigate` takes from a URL: everything before the first
      `?` (the search) or `#` (the hash). */
  function Pathname(url: string): (p: string)
    ensures |p| <= |url| && p == url[..|p|]
    ensures '?' !in p && '#' !in p
    ensures |p| < |url| ==> url[|p|] == '?' || url[|p|] == '#'
    ensures '?' !in url && '#' !in url ==> p == url
  {
    var q := BeforeFirst(url, '?');
    var p := BeforeFirst(q, '#');
    assert url[..|p|] == q[..|p|];
    p
  }

  /** A route parameter that survives the trip through a URL unchanged: no
      `?` or `#` (which would start the search or hash) and no `%` (which
      the router would percent-decode). */
  predicate UrlSafeSegment(s: string) {
    IsSegment(s) && '?' !in s && '#' !in s && '%' !in s
  }

  /** The path built for a card, once `navigate` takes its pathname, matches
      the solver route, and splitting it recovers the course and task ids. */
  lemma TaskPathRoundTrip(courseId: string, taskId: string)
    requires UrlSafeSegment(courseId) && UrlSafeSegment(taskId)
    ensures Pathname(TaskPath(courseId, taskId)) == TaskPath(courseId, taskId)
    ensures ParseTaskPath(Pathname(TaskPath(courseId, taskId))) == Some((courseId, taskId))
  {
    var path := TaskPath(courseId, taskId);
    assert '?' !in path && '#' !in path by {
      assert forall k :: 0 <= k < |path| ==> path[k] in CoursePrefix || path[k] in courseId
                                             || path[k] in TaskInfix || path[k] in taskId;
    }
    ParsesBuiltPath(courseId, taskId);
  }

  /** Splitting a path built from two segments gives back the two segments. */
  lemma ParsesBuiltPath(courseId: string, taskId: string)
    requires IsSegment(courseId) && IsSegment(taskId)
    ensures ParseTaskPath(TaskPath(courseId, taskId)) == Some((courseId, taskId))
  {
    var path := TaskPath(courseId, taskId);
    assert path == CoursePrefix + (courseId + (TaskInfix + taskId));
    assert path[..|CoursePrefix|] == CoursePrefix;
    var rest := path[|CoursePrefix|..];
    assert rest == courseId + ['/'] + ("task/" + taskId);
    BeforeFirstOfJoin(courseId, '/', "task/" + taskId);
    var rest2 := rest[|courseId|..];
    assert rest2 == TaskInfix + taskId;
    assert rest2[..|TaskInfix|] == TaskInfix;
    assert rest2[|TaskInfix|..] == taskId;
  }

  /** A `?` inside a task id starts the URL's search: the route then sees
      only the part of the id before it. */
  lemma QueryInTaskIdTruncates(courseId: string, taskId: string, query: string)
    requires UrlSafeSegment(courseId) && UrlSafeSegment(taskId)
    ensures ParseTaskPath(Pathname(TaskPath(courseId, taskId + "?" + query))) == Some((courseId, taskId))
  {
    var path := TaskPath(courseId, taskId);
    assert TaskPath(courseId, taskId + "?" + query) == path + ['?'] + query;
    assert '?' !in path && '#' !in path by {
      assert forall k :: 0 <= k < |path| ==> path[k] in CoursePrefix || path[k] in courseId
                                             || path[k] in TaskInfix || path[k] in taskId;
    }
    BeforeFirstOfJoin(path, '?', query);
    ParsesBuiltPath(courseId, taskId);
  }

  /** `difficultyColors`, keyed by the difficulty's name. */
  const DifficultyColors: map<string, string> := map[
    "Easy" := "bg-green-100 text-green-700 border-green-200",
    "Medium" := "bg-yellow-100 text-yellow-700 border-yellow-200",
    "Hard" := "bg-red-100 text-red-700 border-red-200"]

  /** `difficultyLabels`, keyed by the difficulty's name. */
  const DifficultyLabels: map<string, string> := map[
    "Easy" := "Легко", "Medium" := "Средне", "Hard" := "Сложно"]

  /** Both maps are defined on exactly the three difficulty names, so every
      task of the corrected mapping has a colour and a label. */
  lemma MapsTotal(d: Difficulty)
    ensures DifficultyColors.Keys == DifficultyLabels.Keys == DifficultyNames
    ensures DifficultyName(d) in DifficultyColors && DifficultyName(d) in DifficultyLabels
  {
  }

  /** The difficulty badge's label for a task. */
  function DifficultyLabel(d: Difficulty): (r: string)
    ensures r != []
    ensures d == Easy ==> r == "Легко"
    ensures d == Medium ==> r == "Средне"
    ensures d == Hard ==> r == "Сложно"
  {
    DifficultyLabels[DifficultyName(d)]
  }

  /** With the difficulty mapped as written, a task can reach the card with
      a difficulty neither map has an entry for. */
  lemma AsWrittenDifficultyHasNoLabel()
    ensures DifficultyAsWritten(Some("hard")) !in DifficultyLabels
    ensures DifficultyAsWritten(Some("hard")) !in DifficultyColors
  {
    DifficultyAsWrittenEscapes();
  }

  /** The corrected mapping always yields a difficulty with a label. */
  lemma ParsedDifficultyHasLabel(raw: Option<string>)
    ensures DifficultyName(ParseDifficulty(raw)) in DifficultyLabels
  {
  }

  /** The solve button's label. */
  function ButtonLabel(t: Task): (r: string)
    ensures r == "Повторить" <==> t.completed
    ensures !t.completed ==> r == "Решить"
  {
    if t.completed then "Повторить" else "Решить"
  }

  /** After `handleTaskComplete(id)` the cards of that task offer a retry,
      and every other card keeps its label. */
  lemma CompletedCardsOfferRetry(tasks: seq<Task>, id: string, i: int)
    requires 0 <= i < |tasks|
    ensures tasks[i].id == id ==> ButtonLabel(CompleteTask(tasks, id)[i]) == "Повторить"
    ensures tasks[i].id != id ==> ButtonLabel(CompleteTask(tasks, id)[i]) == ButtonLabel(tasks[i])
  {
  }
}

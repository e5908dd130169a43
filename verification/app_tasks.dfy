/** The task list of the main page (src/App.tsx): mapping backend task
    rows to client tasks, the search filter, marking a task complete, and
    the initial course selection. */
module AppTasks {
  import opened Wrappers
  import opened Js
  import opened Text

  datatype Difficulty = Easy | Medium | Hard
  datatype Category = Mathematics | ComputerScience

  /** The client `Task`. */
  datatype Task = Task(id: string, title: string, description: string, difficulty: Difficulty,
                       category: Category, topic: string, completed: bool)

  datatype Course = Course(id: string, title: string, description: Option<string>, category: Option<string>)

  /** A task's parsed `meta` object; the fields are whatever JSON held. */
  datatype Meta = Meta(difficulty: Option<string>, topic: Option<string>, completed: JsValue)

  /** `{}`: what a missing or unparsable `meta` becomes. */
  const EmptyMeta: Meta := Meta(None, None, Undefined)

  /** A task row as the backend sends it; `meta` is `None` when it was absent
      or did not parse. */
  datatype RawTask = RawTask(id: string, title: Option<string>, description: Option<string>, meta: Option<Meta>)

  const DefaultTitle := "Без названия"

  /** The name the client stores for each difficulty. */
  function DifficultyName(d: Difficulty): string {
    match d
    case Easy => "Easy"
    case Medium => "Medium"
    case Hard => "Hard"
  }

  /** The three names `Task.difficulty` is declared to range over. */
  const DifficultyNames: set<string> := {"Easy", "Medium", "Hard"}

  /** `meta.difficulty ? meta.difficulty : "Easy"`, as written: any
      non-empty string is passed through unchecked. */
  function DifficultyAsWritten(raw: Option<string>): (r: string)
    ensures raw.Some? && raw.value != [] ==> r == raw.value
    ensures raw.None? || raw.value == [] ==> r == "Easy"
  {
    StrOr(raw, "Easy")
  }

  /** As written, the mapped difficulty can fall outside the declared three
      names: a task whose meta says "hard" gets difficulty "hard". */
  lemma DifficultyAsWrittenEscapes()
    ensures DifficultyAsWritten(Some("hard")) == "hard"
    ensures DifficultyAsWritten(Some("hard")) !in DifficultyNames
  {
  }

  /** The corrected mapping: one of the three difficulties, "Easy" unless
      the meta names another one exactly. */
  function ParseDifficulty(raw: Option<string>): (d: Difficulty)
    ensures DifficultyName(d) in DifficultyNames
    ensures DifficultyAsWritten(raw) in DifficultyNames ==> DifficultyName(d) == DifficultyAsWritten(raw)
    ensures DifficultyAsWritten(raw) !in DifficultyNames ==> d == Easy
  {
    if raw == Some("Medium") then Medium
    else if raw == Some("Hard") then Hard
    else Easy
  }

  /** The category rule: "Mathematics" exactly when the course's category,
      lowered, contains "math". */
  function CategoryOf(course: Option<Course>): (c: Category)
    ensures c == Mathematics <==>
              course.Some? && course.value.category.Some?
              && Includes(LowerStr(course.value.category.value), "math")
  {
    if course.Some? && course.value.category.Some? && course.value.category.value != []
       && Includes(LowerStr(course.value.category.value), "math")
    then Mathematics
    else ComputerScience
  }

  /** `meta.topic || (course && course.title) || ""`. */
  function TopicOf(meta: Meta, course: Option<Course>): (r: string)
    ensures meta.topic.Some? && meta.topic.value != [] ==> r == meta.topic.value
    ensures (meta.topic.None? || meta.topic.value == []) && course.Some? ==> r == course.value.title
    ensures (meta.topic.None? || meta.topic.value == []) && course.None? ==> r == []
  {
    if meta.topic.Some? && meta.topic.value != [] then meta.topic.value
    else if course.Some? && course.value.title != [] then course.value.title
    else []
  }

  /** The row-to-task mapping with its defaults. */
  function MapTask(raw: RawTask, course: Option<Course>): (t: Task)
    ensures t.id == raw.id
    ensures t.title == StrOr(raw.title, DefaultTitle) && t.title != []
    ensures t.description == StrOr(raw.description, "")
    ensures t.difficulty == ParseDifficulty(raw.meta.GetOr(EmptyMeta).difficulty)
    ensures t.category == CategoryOf(course)
    ensures t.topic == TopicOf(raw.meta.GetOr(EmptyMeta), course)
    ensures t.completed == Truthy(raw.meta.GetOr(EmptyMeta).completed)
  {
    var meta := raw.meta.GetOr(EmptyMeta);
    Task(raw.id, StrOr(raw.title, DefaultTitle), StrOr(raw.description, ""),
         ParseDifficulty(meta.difficulty), CategoryOf(course), TopicOf(meta, course),
         Truthy(meta.completed))
  }

  /** A row with nothing but an id maps to the documented defaults. */
  lemma MapTaskDefaults(id: string)
    ensures MapTask(RawTask(id, None, None, None), None)
            == Task(id, DefaultTitle, "", Easy, ComputerScience, "", false)
  {
  }

  /** The row that states every field of `t` explicitly. */
  function RowOf(t: Task): RawTask {
    RawTask(t.id, Some(t.title), Some(t.description),
            Some(Meta(Some(DifficultyName(t.difficulty)), Some(t.topic), Bool(t.completed))))
  }

  /** A row that spells out every field maps back to exactly those fields,
      provided the title and topic are non-empty (an empty one would fall
      back) and the category is the one the course implies. */
  lemma MapTaskRoundTrip(t: Task, course: Option<Course>)
    requires t.title != [] && t.topic != []
    requires t.category == CategoryOf(course)
    ensures MapTask(RowOf(t), course) == t
  {
    assert ParseDifficulty(Some(DifficultyName(t.difficulty))) == t.difficulty;
  }

  /** `courses.find(c => c.id === id)`. */
  function FindCourse(courses: seq<Course>, id: string): (r: Option<Course>)
    ensures r.Some? ==> r.value in courses && r.value.id == id
    ensures r.None? ==> forall i :: 0 <= i < |courses| ==> courses[i].id != id
    ensures r.Some? ==> exists i :: 0 <= i < |courses| && courses[i] == r.value
                                    && forall j :: 0 <= j < i ==> courses[j].id != id
  {
    if courses == [] then None
    else if courses[0].id == id then Some(courses[0])
    else FindCourse(courses[1..], id)
  }

  /** The task-loading effect: no selected course gives no tasks; otherwise
      every row is mapped against the selected course. */
  function LoadTasks(raw: seq<RawTask>, courses: seq<Course>, selected: Option<string>): (r: seq<Task>)
    ensures selected.None? || selected.value == [] ==> r == []
    ensures selected.Some? && selected.value != [] ==>
              |r| == |raw| && forall i :: 0 <= i < |raw| ==>
                r[i] == MapTask(raw[i], FindCourse(courses, selected.value))
  {
    if selected.None? || selected.value == [] then []
    else
      var course := FindCourse(courses, selected.value);
      seq(|raw|, i requires 0 <= i < |raw| => MapTask(raw[i], course))
  }

  /** On a list with distinct ids, looking up any course's id finds it. */
  lemma FindCourseUniqueIds(courses: seq<Course>, k: int)
    requires 0 <= k < |courses|
    requires forall i, j :: 0 <= i < j < |courses| ==> courses[i].id != courses[j].id
    ensures FindCourse(courses, courses[k].id) == Some(courses[k])
  {
    var r := FindCourse(courses, courses[k].id);
    var i :| 0 <= i < |courses| && courses[i] == r.value
             && forall j :: 0 <= j < i ==> courses[j].id != courses[k].id;
    assert i == k;
  }

  /** Searching a concatenation searches the first part, then the second. */
  lemma {:induction false} FindCourseAppend(a: seq<Course>, b: seq<Course>, id: string)
    ensures FindCourse(a + b, id) == if FindCourse(a, id).Some? then FindCourse(a, id) else FindCourse(b, id)
  {
    if a != [] {
      assert (a + b)[0] == a[0];
      assert (a + b)[1..] == a[1..] + b;
      FindCourseAppend(a[1..], b, id);
    } else {
      assert a + b == b;
    }
  }

  /** Loading keeps one task per row with the row's id, and every task of a
      load gets the same category: Mathematics exactly when the first course
      with the selected id has a category mentioning "math". */
  lemma LoadedTasksFollowRows(raw: seq<RawTask>, courses: seq<Course>, selected: string)
    requires selected != []
    ensures |LoadTasks(raw, courses, Some(selected))| == |raw|
    ensures forall i :: 0 <= i < |raw| ==> LoadTasks(raw, courses, Some(selected))[i].id == raw[i].id
    ensures forall i :: 0 <= i < |raw| ==>
              (LoadTasks(raw, courses, Some(selected))[i].category == Mathematics <==>
                exists k :: 0 <= k < |courses| && courses[k].id == selected
                            && (forall j :: 0 <= j < k ==> courses[j].id != selected)
                            && courses[k].category.Some?
                            && Includes(LowerStr(courses[k].category.value), "math"))
  {
    var course := FindCourse(courses, selected);
    if course.Some? {
      var k :| 0 <= k < |courses| && courses[k] == course.value
               && forall j :: 0 <= j < k ==> courses[j].id != selected;
      forall k' | 0 <= k' < |courses| && courses[k'].id == selected
                  && (forall j :: 0 <= j < k' ==> courses[j].id != selected)
        ensures k' == k
      {
      }
    }
  }

  /** After courses load, the first course is selected when there is one. */
  function SelectAfterLoad(courses: seq<Course>, current: Option<string>): (r: Option<string>)
    ensures |courses| > 0 ==> r == Some(courses[0].id)
    ensures |courses| == 0 ==> r == current
  {
    if |courses| > 0 then Some(courses[0].id) else current
  }

  /** The course selected after loading is the one the task loader then
      finds: the first course. */
  lemma SelectedCourseIsFound(courses: seq<Course>, current: Option<string>)
    requires |courses| > 0
    ensures FindCourse(courses, SelectAfterLoad(courses, current).value) == Some(courses[0])
  {
  }

  /** The search predicate: the lowered query occurs in the lowered title,
      description or topic. */
  predicate Matches(t: Task, query: string) {
    var q := LowerStr(query);
    Includes(LowerStr(t.title), q) || Includes(LowerStr(t.description), q) || Includes(LowerStr(t.topic), q)
  }

  /** `a` is `b` with some elements left out, order kept. */
  ghost predicate IsSubsequence(a: seq<Task>, b: seq<Task>)
    decreases |b|
  {
    if a == [] then true
    else if b == [] then false
    else (a[0] == b[0] && IsSubsequence(a[1..], b[1..])) || IsSubsequence(a, b[1..])
  }

  /** `filteredTasks`. */
  function FilterTasks(tasks: seq<Task>, query: string): (r: seq<Task>)
    ensures forall t :: t in r <==> t in tasks && Matches(t, query)
    ensures IsSubsequence(r, tasks)
    ensures forall t :: multiset(r)[t] == if Matches(t, query) then multiset(tasks)[t] else 0
    ensures |r| <= |tasks|
  {
    if tasks == [] then []
    else
      assert tasks == [tasks[0]] + tasks[1..];
      var rest := FilterTasks(tasks[1..], query);
      if Matches(tasks[0], query) then [tasks[0]] + rest else rest
  }

  /** An empty query keeps every task, in order. */
  lemma {:induction false} FilterEmptyQueryKeepsAll(tasks: seq<Task>)
    ensures FilterTasks(tasks, "") == tasks
  {
    if tasks != [] {
      IncludesEmpty(LowerStr(tasks[0].title));
      FilterEmptyQueryKeepsAll(tasks[1..]);
    }
  }

  /** `handleTaskComplete` on the list: every task with the id is marked
      complete, nothing else changes. */
  function CompleteTask(tasks: seq<Task>, id: string): (r: seq<Task>)
    ensures |r| == |tasks|
    ensures forall i :: 0 <= i < |tasks| && tasks[i].id == id ==> r[i] == tasks[i].(completed := true)
    ensures forall i :: 0 <= i < |tasks| && tasks[i].id != id ==> r[i] == tasks[i]
  {
    seq(|tasks|, i requires 0 <= i < |tasks| =>
      if tasks[i].id == id then tasks[i].(completed := true) else tasks[i])
  }

  /** `handleTaskComplete` on the selected task. */
  function CompleteSelected(selected: Option<Task>, id: string): (r: Option<Task>)
    ensures selected.Some? && selected.value.id == id ==> r == Some(selected.value.(completed := true))
    ensures selected.None? || selected.value.id != id ==> r == selected
  {
    if selected.Some? && selected.value.id == id then Some(selected.value.(completed := true)) else selected
  }

  /** Marking a task complete twice is marking it once. */
  lemma CompleteIdempotent(tasks: seq<Task>, selected: Option<Task>, id: string)
    ensures CompleteTask(CompleteTask(tasks, id), id) == CompleteTask(tasks, id)
    ensures CompleteSelected(CompleteSelected(selected, id), id) == CompleteSelected(selected, id)
  {
  }

  /** Marking complete never un-completes a task. */
  lemma CompleteIsMonotone(tasks: seq<Task>, id: string)
    ensures forall i :: 0 <= i < |tasks| && tasks[i].completed ==> CompleteTask(tasks, id)[i].completed
  {
  }
}

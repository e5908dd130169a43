/** The inline task view (src/components/TaskView/TaskView.tsx): the fixed
    task details, the submit/complete threshold, the "sent" badge and the
    hint toggle. */
module TaskView {
  import opened Wrappers
  import opened Text
  import opened AppTasks

  datatype Details = Details(statement: string, hint: string, example: string)

  const SearchTreeDetails: Details := Details(
    "Реализуйте класс бинарного дерева поиска (БДП) со следующими методами:\n\n• insert(value): Добавляет новый узел с заданным значением\n• search(value): Возвращает true, если значение существует в дереве\n• inorderTraversal(): Возвращает массив значений в отсортированном порядке\n\nБДП должно поддерживать свойство, где левые дочерние элементы меньше, а правые дочерние элементы больше своего родителя.",
    "Начните с создания класса Node со свойствами value, left и right. Для вставки сравните значение с текущим узлом и рекурсивно пройдите влево или вправо.",
    "Пример:\nbst.insert(5)\nbst.insert(3)\nbst.insert(7)\nbst.search(3) // вернёт true\nbst.inorderTraversal() // вернёт [3, 5, 7]")

  const GaussDetails: Details := Details(
    "Решите следующую систему линейных уравнений методом Гаусса:\n\n2x + 3y - z = 5\n4x + 4y - 3z = 3\n-2x + 3y - z = 1\n\nПокажите ваши действия на каждом шаге процесса исключения и предоставьте окончательное решение для x, y и z.",
    "Начните с записи расширенной матрицы. Затем используйте операции со строками для создания нулей ниже диагонали. Наконец, используйте обратную подстановку для нахождения значений.",
    "Ваш ответ должен быть в форме:\nx = ...\ny = ...\nz = ...")

  const KadaneDetails: Details := Details(
    "Дан массив целых чисел, найдите непрерывный подмассив с наибольшей суммой, используя алгоритм Кадане.\n\nРеализуйте функцию maxSubarraySum(arr), которая возвращает максимальную сумму.\n\nОграничения:\n• Длина массива: 1 ≤ n ≤ 10^5\n• Значения: -10^4 ≤ arr[i] ≤ 10^4",
    "Отслеживайте максимальную сумму, заканчивающуюся в текущей позиции, и общую максимальную сумму. Обновляйте их по мере итерации по массиву.",
    "Пример:\nmaxSubarraySum([-2, 1, -3, 4, -1, 2, 1, -5, 4]) = 6\n// Подмассив [4, -1, 2, 1] имеет наибольшую сумму")

  /** The hard-coded `taskDetails` table. */
  const KnownDetails: map<string, Details> :=
    map["1" := SearchTreeDetails, "2" := GaussDetails, "3" := KadaneDetails]

  const DefaultDetails: Details :=
    Details("Детали задачи скоро появятся...", "Подсказок пока нет.", "Примеров пока нет.")

  /** Every entry of the table is one of the three named details. */
  lemma KnownDetailsEntries(id: string)
    requires id in KnownDetails
    ensures KnownDetails[id] == SearchTreeDetails || KnownDetails[id] == GaussDetails
         || KnownDetails[id] == KadaneDetails
  {
  }

  /** `taskDetails[task.id] || default`. */
  function DetailsFor(id: string): (d: Details)
    ensures id in KnownDetails ==> d == KnownDetails[id]
    ensures id !in KnownDetails ==> d == DefaultDetails
    ensures d.statement != [] && d.hint != [] && d.example != []
  {
    if id in KnownDetails then KnownDetailsEntries(id); KnownDetails[id] else DefaultDetails
  }

  /** The placeholder texts are shown exactly for ids outside the table:
      every known task has texts of its own. */
  lemma DefaultOnlyForUnknown(id: string)
    ensures DetailsFor(id) == DefaultDetails <==> id !in KnownDetails
  {
    if id in KnownDetails {
      KnownDetailsEntries(id);
      assert SearchTreeDetails.hint != DefaultDetails.hint;
      assert GaussDetails.hint != DefaultDetails.hint;
      assert KadaneDetails.hint != DefaultDetails.hint;
    }
  }

  /** A solution must be longer than this, once trimmed, to complete the task. */
  const CompleteThreshold: nat := 10

  datatype View = View(solution: string, showHint: bool, submitted: bool)

  const InitialView: View := View("", false, false)

  /** `solution.trim().length`: UTF-16 code units of the trimmed answer. */
  function TrimmedLength(solution: string): (n: nat)
    ensures n == 0 <==> forall i :: 0 <= i < |solution| ==> IsSpace(solution[i])
    ensures |Trim(solution)| <= n <= 2 * |Trim(solution)|
  {
    |Utf16(Trim(solution))|
  }

  /** `handleSubmit`: always marks the view submitted; reports the task id to
      `onComplete` exactly for a trimmed solution longer than the threshold. */
  function Submit(v: View, taskId: string): (r: (View, Option<string>))
    ensures r.0 == v.(submitted := true)
    ensures r.1.Some? <==> TrimmedLength(v.solution) > CompleteThreshold
    ensures r.1.Some? ==> r.1.value == taskId
  {
    (v.(submitted := true), if TrimmedLength(v.solution) > CompleteThreshold then Some(taskId) else None)
  }

  /** The submit button's `disabled`: `solution.trim().length === 0`, that is,
      the answer is blank. */
  function SubmitDisabled(v: View): (b: bool)
    ensures b <==> forall i :: 0 <= i < |v.solution| ==> IsSpace(v.solution[i])
  {
    TrimmedLength(v.solution) == 0
  }

  /** The "Отправлено" badge: shown only for a submitted, non-blank answer. */
  function BadgeShown(v: View): (b: bool)
    ensures b ==> v.submitted && !SubmitDisabled(v)
    ensures b ==> |Trim(v.solution)| > CompleteThreshold / 2
  {
    v.submitted && TrimmedLength(v.solution) > CompleteThreshold
  }

  /** Inside the Basic Multilingual Plane the badge rule counts characters. */
  lemma BadgeShownBmp(v: View)
    requires InBmp(Trim(v.solution))
    ensures BadgeShown(v) <==> v.submitted && |Trim(v.solution)| > CompleteThreshold
  {
    Utf16OfBmp(Trim(v.solution));
  }

  /** An answer of six or more characters from outside the Basic Multilingual
      Plane, such as six emoji, is twelve or more code units: the task is
      completed although it has fewer than eleven characters. */
  lemma AstralAnswerCompletes(v: View, taskId: string)
    requires |v.solution| >= 6
    requires forall i :: 0 <= i < |v.solution| ==> v.solution[i] as int >= 0x1_0000
    ensures Submit(v, taskId).1 == Some(taskId)
  {
    Utf16OfTrimmedAstral(v.solution);
    assert TrimmedLength(v.solution) == 2 * |v.solution| > CompleteThreshold;
  }

  /** The hint button. */
  function ToggleHint(v: View): (r: View)
    ensures r.showHint == !v.showHint
    ensures r.solution == v.solution && r.submitted == v.submitted
  {
    v.(showHint := !v.showHint)
  }

  lemma ToggleTwice(v: View)
    ensures ToggleHint(ToggleHint(v)) == v
  {
  }

  /** After a submit, the badge shows exactly when the task was reported complete. */
  lemma BadgeIffCompleted(v: View, taskId: string)
    ensures BadgeShown(Submit(v, taskId).0) <==> Submit(v, taskId).1.Some?
  {
  }

  /** Answers of one to ten characters (after trimming) can be submitted
      but never complete the task. */
  lemma ShortAnswerSubmitsButNeverCompletes(v: View, taskId: string)
    requires 0 < TrimmedLength(v.solution) <= CompleteThreshold
    ensures !SubmitDisabled(v)
    ensures Submit(v, taskId).1.None?
    ensures !BadgeShown(Submit(v, taskId).0)
  {
  }

  /** A completing submit, passed to the list's `handleTaskComplete`, leaves
      the task marked complete in the list. */
  lemma SubmitMarksTaskComplete(v: View, tasks: seq<Task>, i: nat)
    requires i < |tasks|
    requires TrimmedLength(v.solution) > CompleteThreshold
    ensures var (_, call) := Submit(v, tasks[i].id);
            call.Some? && CompleteTask(tasks, call.value)[i].completed
  {
  }
}

/** The progress sidebar's counters (src/components/ProgressPanel/ProgressPanel.tsx). */
module ProgressPanel {
  import opened AppTasks

  /** `tasks.filter(t => t.completed).length`. */
  function CountCompleted(tasks: seq<Task>): (n: nat)
    ensures n <= |tasks|
    ensures n == 0 <==> forall i :: 0 <= i < |tasks| ==> !tasks[i].completed
    ensures n == |tasks| <==> forall i :: 0 <= i < |tasks| ==> tasks[i].completed
  {
    if tasks == [] then 0
    else (if tasks[0].completed then 1 else 0) + CountCompleted(tasks[1..])
  }

  /** `tasks.filter(t => t.category === c)`. */
  function OfCategory(tasks: seq<Task>, c: Category): (r: seq<Task>)
    ensures |r| <= |tasks|
    ensures forall t :: t in r <==> t in tasks && t.category == c
    ensures forall t :: multiset(r)[t] == if t.category == c then multiset(tasks)[t] else 0
  {
    if tasks == [] then []
    else
      assert tasks == [tasks[0]] + tasks[1..];
      (if tasks[0].category == c then [tasks[0]] else []) + OfCategory(tasks[1..], c)
  }

  /** `(completed / total) * 100`, or 0 for an empty list. */
  function Percentage(completed: nat, total: nat): (p: real)
    requires completed <= total
    ensures total == 0 ==> p == 0.0
    ensures 0.0 <= p <= 100.0
    ensures total > 0 && completed == total ==> p == 100.0
  {
    if total > 0 then
      assert completed as real / total as real <= 1.0 by {
        assert completed as real <= total as real;
      }
      (completed as real / total as real) * 100.0
    else 0.0
  }

  datatype Stats = Stats(completed: nat, total: nat, percentage: real,
                         mathTotal: nat, mathCompleted: nat, csTotal: nat, csCompleted: nat)

  /** Every counter the panel shows. */
  function Compute(tasks: seq<Task>): (s: Stats)
    ensures s.completed <= s.total == |tasks|
    ensures s.total == 0 ==> s.percentage == 0.0
    ensures 0.0 <= s.percentage <= 100.0
    ensures s.mathCompleted <= s.mathTotal && s.csCompleted <= s.csTotal
    ensures s.completed == 0 <==> forall i :: 0 <= i < |tasks| ==> !tasks[i].completed
    ensures |tasks| > 0 && (forall i :: 0 <= i < |tasks| ==> tasks[i].completed) ==> s.percentage == 100.0
  {
    var completed := CountCompleted(tasks);
    var math := OfCategory(tasks, Mathematics);
    var cs := OfCategory(tasks, ComputerScience);
    Stats(completed, |tasks|, Percentage(completed, |tasks|),
          |math|, CountCompleted(math), |cs|, CountCompleted(cs))
  }

  /** The two categories partition the list: their sizes add up to the total. */
  lemma {:induction false} CategorySizesAddUp(tasks: seq<Task>)
    ensures |OfCategory(tasks, Mathematics)| + |OfCategory(tasks, ComputerScience)| == |tasks|
  {
    if tasks != [] {
      CategorySizesAddUp(tasks[1..]);
    }
  }

  lemma CountCompletedCons(t: Task, rest: seq<Task>)
    ensures CountCompleted([t] + rest) == (if t.completed then 1 else 0) + CountCompleted(rest)
  {
    assert ([t] + rest)[1..] == rest;
  }

  /** Counting distributes over concatenation: the count of a list is the
      sum of the counts of its parts. */
  lemma {:induction false} CountCompletedAppend(a: seq<Task>, b: seq<Task>)
    ensures CountCompleted(a + b) == CountCompleted(a) + CountCompleted(b)
  {
    if a == [] {
      assert a + b == b;
    } else {
      assert (a + b)[1..] == a[1..] + b;
      CountCompletedAppend(a[1..], b);
    }
  }

  /** The completed counts of the two categories add up to the completed total. */
  lemma {:induction false} CategoryCountsAddUp(tasks: seq<Task>)
    ensures CountCompleted(OfCategory(tasks, Mathematics)) + CountCompleted(OfCategory(tasks, ComputerScience))
            == CountCompleted(tasks)
  {
    if tasks != [] {
      CategoryCountsAddUp(tasks[1..]);
      var t := tasks[0];
      var m := OfCategory(tasks[1..], Mathematics);
      var c := OfCategory(tasks[1..], ComputerScience);
      if t.category == Mathematics {
        assert OfCategory(tasks, Mathematics) == [t] + m;
        assert OfCategory(tasks, ComputerScience) == c;
        CountCompletedCons(t, m);
      } else {
        assert OfCategory(tasks, ComputerScience) == [t] + c;
        assert OfCategory(tasks, Mathematics) == m;
        CountCompletedCons(t, c);
      }
    }
  }

  /** The panel's totals agree with its per-category figures. */
  lemma StatsConsistent(tasks: seq<Task>)
    ensures Compute(tasks).mathTotal + Compute(tasks).csTotal == Compute(tasks).total
    ensures Compute(tasks).mathCompleted + Compute(tasks).csCompleted == Compute(tasks).completed
  {
    CategorySizesAddUp(tasks);
    CategoryCountsAddUp(tasks);
  }

  /** Marking a task complete never lowers the completed count. */
  lemma {:induction false} CompleteNeverLowersCount(tasks: seq<Task>, id: string)
    ensures CountCompleted(CompleteTask(tasks, id)) >= CountCompleted(tasks)
  {
    if tasks != [] {
      var r := CompleteTask(tasks, id);
      assert r[1..] == CompleteTask(tasks[1..], id);
      CompleteNeverLowersCount(tasks[1..], id);
    }
  }
}

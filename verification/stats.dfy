/**
 * The task statistics: the total, and the number of tasks whose status is exactly
 * "Completed", "Pending" or "In Progress" (case-sensitive).
 */
module TaskStats {
  import opened Js
  import opened Status
  import TasksPage

  datatype Stats = Stats(total: nat, completed: nat, pending: nat, inProgress: nat)

  /** The number of statuses equal to `s`. */
  function Count(statuses: seq<string>, s: string): (n: nat)
    ensures n <= |statuses|
    ensures n == 0 <==> s !in statuses
    ensures n == |statuses| <==> forall i :: 0 <= i < |statuses| ==> statuses[i] == s
  {
    if statuses == [] then 0
    else Count(statuses[..|statuses| - 1], s) + (if statuses[|statuses| - 1] == s then 1 else 0)
  }

  /** The four figures of the stats cards for the tasks' statuses. */
  function StatsOf(statuses: seq<string>): (st: Stats)
    ensures st.total == |statuses|
    ensures st.completed == multiset(statuses)[COMPLETED]
    ensures st.pending == multiset(statuses)[PENDING]
    ensures st.inProgress == multiset(statuses)[IN_PROGRESS]
  {
    CountIsMultiplicity(statuses, COMPLETED);
    CountIsMultiplicity(statuses, PENDING);
    CountIsMultiplicity(statuses, IN_PROGRESS);
    Stats(|statuses|, Count(statuses, COMPLETED), Count(statuses, PENDING), Count(statuses, IN_PROGRESS))
  }

  /** The statuses of the page's tasks. */
  function StatusesOf(tasks: seq<TasksPage.PageTask>): (ss: seq<string>)
    ensures |ss| == |tasks| && forall i :: 0 <= i < |tasks| ==> ss[i] == tasks[i].status
  {
    seq(|tasks|, i requires 0 <= i < |tasks| => tasks[i].status)
  }

  // ---------------------------------------------------------------------------
  // Properties of the counts

  /** Counting is the multiplicity of the status in the multiset of statuses. */
  lemma {:induction false} CountIsMultiplicity(statuses: seq<string>, s: string)
    ensures Count(statuses, s) == multiset(statuses)[s]
  {
    if statuses != [] {
      var n := |statuses| - 1;
      CountIsMultiplicity(statuses[..n], s);
      assert statuses == statuses[..n] + [statuses[n]];
    }
  }

  /** The three counts never exceed the total. */
  lemma {:induction false} CountsBelowTotal(statuses: seq<string>)
    ensures var st := StatsOf(statuses); st.completed + st.pending + st.inProgress <= st.total
  {
    if statuses != [] {
      CountsBelowTotal(statuses[..|statuses| - 1]);
    }
  }

  /** The three counts add up to the total exactly when every status is one of the three
      persisted strings. */
  lemma {:induction false} CountsCoverTotal(statuses: seq<string>)
    ensures var st := StatsOf(statuses);
      st.completed + st.pending + st.inProgress == st.total
      <==> forall i :: 0 <= i < |statuses| ==> IsPersisted(statuses[i])
  {
    if statuses != [] {
      var n := |statuses| - 1;
      var p, x := statuses[..n], statuses[n];
      CountsCoverTotal(p);
      CountsBelowTotal(p);
      var st, sp := StatsOf(statuses), StatsOf(p);
      assert st.completed + st.pending + st.inProgress
             == sp.completed + sp.pending + sp.inProgress + (if IsPersisted(x) then 1 else 0);
      assert (forall i :: 0 <= i < |statuses| ==> IsPersisted(statuses[i]))
             <==> (forall i :: 0 <= i < n ==> IsPersisted(p[i])) && IsPersisted(x);
    }
  }

  /** The counts are case-sensitive: "completed" is not counted as completed. */
  lemma CountsAreCaseSensitive()
    ensures StatsOf(["completed", "Completed"]) == Stats(2, 1, 0, 0)
  {
    assert "completed" != COMPLETED by { assert "completed"[0] != COMPLETED[0]; }
  }

  /** After a fetch whose rows all carry a persisted status or none at all, the counts add
      up to the number of tasks: a missing status is shown, and counted, as "Pending". */
  lemma FetchedCountsCoverTotal(f: TasksPage.Fetch)
    requires f.Data?
    requires forall i :: 0 <= i < |f.rows| ==> !Truthy(f.rows[i].status) || IsPersisted(f.rows[i].status.value)
    ensures var st := StatsOf(StatusesOf(TasksPage.FetchTasks(f)));
      st.total == |f.rows| && st.completed + st.pending + st.inProgress == st.total
  {
    var ss := StatusesOf(TasksPage.FetchTasks(f));
    forall i | 0 <= i < |ss|
      ensures IsPersisted(ss[i])
    {
      TasksPage.FetchedFields(f, i);
    }
    CountsCoverTotal(ss);
  }
}

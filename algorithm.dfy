/**
 * Task ranking: the score of a task and the ordering of the active tasks
 * that the home screen shows as "top tasks".
 *
 * The due-date part of the score depends on the day difference between the
 * task's due day and today; both are day numbers here, so `today` is an
 * argument of every function that scores.
 */
module Algorithm {
  import opened Data

  /** Score per priority ordinal (`PRIORITY_SCORES`). */
  const PRIORITY_SCORES: map<int, int> := map[3 := 300, 2 := 200, 1 := 100]

  /** Score per status ordinal (`STATUS_SCORES`). */
  const STATUS_SCORES: map<int, int> := map[2 := 150, 1 := 50, 3 := 0]

  /** A table lookup followed by `|| 0`: a missing key contributes 0. */
  function Lookup(table: map<int, int>, key: int): int {
    if key in table then table[key] else 0
  }

  function PriorityScore(priority: int): int { Lookup(PRIORITY_SCORES, priority) }

  function StatusScore(status: int): int { Lookup(STATUS_SCORES, status) }

  /** The bonus for a due date `diffDays` days from today (negative: overdue). */
  function DueDateScore(diffDays: int): int {
    if diffDays < 0 then 500
    else if diffDays == 0 then 400
    else if diffDays == 1 then 300
    else if diffDays <= 3 then 200
    else if diffDays <= 7 then 100
    else 0
  }

  /** `calculateTaskScore`: the three contributions summed. */
  function TaskScore(task: Task, today: int): int {
    PriorityScore(task.priority)
      + StatusScore(task.status)
      + (match task.dueDate
         case None => 0
         case Some(due) => DueDateScore(due - today))
  }

  /** The comparator handed to `sort`: a negative result puts `a` first. */
  function Compare(a: Task, b: Task, today: int): int {
    var scoreA := TaskScore(a, today);
    var scoreB := TaskScore(b, today);
    if scoreA != scoreB then scoreB - scoreA else a.createdAt - b.createdAt
  }

  predicate IsActive(t: Task) { t.status != COMPLETED }

  /** Every element may stand before every later one under `Compare`. */
  ghost predicate Ranked(s: seq<Task>, today: int) {
    forall i, j :: 0 <= i < j < |s| ==> Compare(s[i], s[j], today) <= 0
  }

  lemma CompareTransitive(a: Task, b: Task, c: Task, today: int)
    requires Compare(a, b, today) <= 0 && Compare(b, c, today) <= 0
    ensures Compare(a, c, today) <= 0
  {
  }

  lemma CompareTotal(a: Task, b: Task, today: int)
    ensures Compare(a, b, today) <= 0 || Compare(b, a, today) <= 0
  {
  }

  /**
   * Inserts `x` before the first element it may precede. Elements that
   * compare equal keep their relative order, as the stable `sort` does
   * (by construction; no lemma states it).
   */
  function Insert(x: Task, s: seq<Task>, today: int): (r: seq<Task>)
    ensures multiset(r) == multiset(s) + multiset{x}
  {
    if |s| == 0 || Compare(x, s[0], today) <= 0 then [x] + s
    else
      assert s == [s[0]] + s[1..];
      [s[0]] + Insert(x, s[1..], today)
  }

  /** Stable insertion sort of `s` under `Compare`. */
  function Sort(s: seq<Task>, today: int): (r: seq<Task>)
    ensures multiset(r) == multiset(s)
  {
    if |s| == 0 then []
    else
      assert s == [s[0]] + s[1..];
      Insert(s[0], Sort(s[1..], today), today)
  }

  /** `y` may stand before every element of `s`. */
  ghost predicate PrecedesAll(y: Task, s: seq<Task>, today: int) {
    forall j :: 0 <= j < |s| ==> Compare(y, s[j], today) <= 0
  }

  lemma PrecedesAllOfPermutation(y: Task, s: seq<Task>, t: seq<Task>, today: int)
    requires PrecedesAll(y, s, today)
    requires multiset(t) <= multiset(s)
    ensures PrecedesAll(y, t, today)
  {
    forall j | 0 <= j < |t| ensures Compare(y, t[j], today) <= 0 {
      assert t[j] in multiset(t);
      assert t[j] in s;
    }
  }

  /** A ranked list stays ranked under a new head that may precede all of it. */
  lemma RankedCons(y: Task, t: seq<Task>, today: int)
    requires PrecedesAll(y, t, today) && Ranked(t, today)
    ensures Ranked([y] + t, today)
  {
    var r := [y] + t;
    forall i, j | 0 <= i < j < |r| ensures Compare(r[i], r[j], today) <= 0 {
      assert r[j] == t[j - 1];
      if i > 0 {
        assert r[i] == t[i - 1];
      }
    }
  }

  lemma {:induction false} InsertRanked(x: Task, s: seq<Task>, today: int)
    requires Ranked(s, today)
    ensures Ranked(Insert(x, s, today), today)
  {
    if |s| == 0 || Compare(x, s[0], today) <= 0 {
      forall j | 0 <= j < |s| ensures Compare(x, s[j], today) <= 0 {
        if j > 0 {
          CompareTransitive(x, s[0], s[j], today);
        }
      }
      RankedCons(x, s, today);
    } else {
      var tail := s[1..];
      var rest := Insert(x, tail, today);
      assert Ranked(tail, today) by {
        forall i, j | 0 <= i < j < |tail| ensures Compare(tail[i], tail[j], today) <= 0 {
          assert tail[i] == s[i + 1] && tail[j] == s[j + 1];
        }
      }
      InsertRanked(x, tail, today);
      CompareTotal(x, s[0], today);
      forall j | 0 <= j < |tail + [x]| ensures Compare(s[0], (tail + [x])[j], today) <= 0 {
        if j < |tail| {
          assert (tail + [x])[j] == s[j + 1];
        }
      }
      assert multiset(rest) == multiset(tail + [x]);
      PrecedesAllOfPermutation(s[0], tail + [x], rest, today);
      RankedCons(s[0], rest, today);
      assert Insert(x, s, today) == [s[0]] + rest;
    }
  }

  lemma {:induction false} SortRanked(s: seq<Task>, today: int)
    ensures Ranked(Sort(s, today), today)
  {
    if |s| > 0 {
      SortRanked(s[1..], today);
      InsertRanked(s[0], Sort(s[1..], today), today);
    }
  }

  /**
   * `getWeightedTasks`: the non-completed tasks, best score first, older
   * first among equal scores. The input sequence itself is a value and is
   * left as it was (the source sorts a fresh array made by `filter`).
   */
  function WeightedTasks(tasks: seq<Task>, today: int): (r: seq<Task>)
    ensures forall i :: 0 <= i < |r| ==> r[i].status != COMPLETED
    ensures multiset(r) == multiset(Filter(tasks, IsActive))
    ensures Ranked(r, today)
  {
    var active := Filter(tasks, IsActive);
    var r := Sort(active, today);
    SortRanked(active, today);
    assert forall i :: 0 <= i < |r| ==> r[i].status != COMPLETED by {
      forall i | 0 <= i < |r| ensures r[i].status != COMPLETED {
        assert r[i] in multiset(r);
        assert r[i] in active;
      }
    }
    r
  }

  // ---------------------------------------------------------------------
  // Properties of the score

  /** The priority table: 3, 2, 1 give 300, 200, 100; anything else 0. */
  lemma PriorityWeights(priority: int)
    ensures PriorityScore(priority) ==
      (if priority == HIGH then 300
       else if priority == MEDIUM then 200
       else if priority == LOW then 100
       else 0)
  {
  }

  /** The status table: In Progress 150, To Do 50, Completed and others 0. */
  lemma StatusWeights(status: int)
    ensures StatusScore(status) ==
      (if status == IN_PROGRESS then 150
       else if status == TO_DO then 50
       else 0)
  {
  }

  /** A task without a due date scores its priority and status weights only. */
  lemma NoDueDateNoBonus(task: Task, today: int)
    requires task.dueDate.None?
    ensures TaskScore(task, today) == PriorityScore(task.priority) + StatusScore(task.status)
  {
  }

  /**
   * The buckets are inclusive: one day off each boundary lands in the
   * neighbouring bucket.
   */
  lemma DueDateBuckets(d: int)
    ensures d < 0 ==> DueDateScore(d) == 500
    ensures d == 0 ==> DueDateScore(d) == 400
    ensures d == 1 ==> DueDateScore(d) == 300
    ensures 2 <= d <= 3 ==> DueDateScore(d) == 200
    ensures 4 <= d <= 7 ==> DueDateScore(d) == 100
    ensures 7 < d ==> DueDateScore(d) == 0
  {
  }

  /** A due date further away never scores more, and the bonus is at most 500. */
  lemma DueDateScoreMonotone(d1: int, d2: int)
    requires d1 <= d2
    ensures 0 <= DueDateScore(d2) <= DueDateScore(d1) <= 500
  {
  }

  /** For a ranked (non-completed) task with valid ordinals the score is in [150, 950]. */
  lemma ScoreBounds(task: Task, today: int)
    requires LOW <= task.priority <= HIGH
    requires TO_DO <= task.status <= IN_PROGRESS
    ensures 150 <= TaskScore(task, today) <= 950
  {
  }

  // ---------------------------------------------------------------------
  // Properties of the ranking

  /**
   * Read at any two positions, the ranking is by score, highest first, and
   * by creation time, oldest first, among equal scores.
   */
  lemma RankedOrder(r: seq<Task>, today: int, i: int, j: int)
    requires Ranked(r, today)
    requires 0 <= i < j < |r|
    ensures TaskScore(r[i], today) >= TaskScore(r[j], today)
    ensures TaskScore(r[i], today) == TaskScore(r[j], today) ==> r[i].createdAt <= r[j].createdAt
  {
    assert Compare(r[i], r[j], today) <= 0;
  }

  /** Every active task is ranked, as often as it occurs; no completed task is. */
  lemma RankingMembership(tasks: seq<Task>, today: int, t: Task)
    ensures t in WeightedTasks(tasks, today) <==> t in tasks && t.status != COMPLETED
    ensures t.status != COMPLETED ==>
      multiset(WeightedTasks(tasks, today))[t] == multiset(tasks)[t]
  {
    FilterCount(tasks, IsActive);
  }

  /**
   * The example of two tasks: A (High, To Do, due today) scores
   * 300 + 50 + 400 = 750 and B (Low, In Progress, no due date, older)
   * scores 100 + 150 = 250, so A comes first although B is older.
   */
  lemma TwoTaskExample(today: int)
    ensures var a := Task("a", "A", HIGH, TO_DO, 2000, Some(today));
            var b := Task("b", "B", LOW, IN_PROGRESS, 1000, None);
            TaskScore(a, today) == 750 && TaskScore(b, today) == 250
            && WeightedTasks([b, a], today) == [a, b]
  {
    var a := Task("a", "A", HIGH, TO_DO, 2000, Some(today));
    var b := Task("b", "B", LOW, IN_PROGRESS, 1000, None);
    assert PriorityScore(HIGH) == 300 && PriorityScore(LOW) == 100;
    assert StatusScore(TO_DO) == 50 && StatusScore(IN_PROGRESS) == 150;
    assert TaskScore(a, today) == 750;
    assert TaskScore(b, today) == 250;
    assert Compare(b, a, today) > 0 && Compare(a, b, today) < 0;
    assert Filter([a], IsActive) == [a] by { assert [a][1..] == []; }
    assert Filter([b, a], IsActive) == [b, a] by { assert [b, a][1..] == [a]; }
    assert Sort([a], today) == [a] by { assert [a][1..] == []; }
    assert Insert(b, [a], today) == [a, b] by { assert [a][1..] == []; }
    assert Sort([b, a], today) == [a, b] by { assert [b, a][1..] == [a]; }
  }
}

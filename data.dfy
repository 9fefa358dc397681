/**
 * The records the application keeps: tasks and focus sessions, with the
 * option and result wrappers used throughout the model.
 *
 * Dates are taken as already-computed integers: a due date is a day number
 * (what `startOf('day')` yields), a creation or start time is a timestamp in
 * milliseconds. Identifiers are strings (the store generates them with uuid).
 */
module Data {

  datatype Option<+T> = None | Some(value: T)

  datatype Result<+R, +E> = Success(value: R) | Failure(error: E)

  type Id = string

  /** Priority ordinals: 1 = Low, 2 = Medium, 3 = High. */
  const LOW: int := 1
  const MEDIUM: int := 2
  const HIGH: int := 3

  /** Status ordinals: 1 = To Do, 2 = In Progress, 3 = Completed. */
  const TO_DO: int := 1
  const IN_PROGRESS: int := 2
  const COMPLETED: int := 3

  /**
   * A task. `priority` and `status` are kept as plain integers: the scoring
   * code looks them up in tables and treats an unknown value as worth 0.
   */
  datatype Task = Task(
    id: Id,
    title: string,
    priority: int,
    status: int,
    createdAt: int,
    dueDate: Option<int>)

  /** A focus session; `duration` is in minutes. */
  datatype Session = Session(
    id: Id,
    taskId: Id,
    startedAt: int,
    duration: int,
    completedAt: Option<int>)

  function TaskKey(t: Task): Id { t.id }

  function SessionKey(s: Session): Id { s.id }

  /**
   * Index of the first element whose key is `id`, or -1: the behaviour of
   * `findIndex` with an id-equality predicate.
   */
  function FindIndex<T>(s: seq<T>, key: T -> Id, id: Id): (r: int)
    ensures -1 <= r < |s|
    ensures r == -1 <==> forall i :: 0 <= i < |s| ==> key(s[i]) != id
    ensures 0 <= r ==> key(s[r]) == id && forall i :: 0 <= i < r ==> key(s[i]) != id
  {
    if |s| == 0 then -1
    else if key(s[0]) == id then 0
    else
      var k := FindIndex(s[1..], key, id);
      assert forall i :: 1 <= i < |s| ==> s[i] == s[1..][i - 1];
      if k == -1 then -1 else k + 1
  }

  /** Every identifier in `s` occurs once. */
  ghost predicate UniqueKeys<T>(s: seq<T>, key: T -> Id) {
    forall i, j :: 0 <= i < j < |s| ==> key(s[i]) != key(s[j])
  }

  /** The identifiers of `s`, as a set. */
  ghost function Keys<T>(s: seq<T>, key: T -> Id): set<Id> {
    set i | 0 <= i < |s| :: key(s[i])
  }

  /** `s` with the element at `i` taken out: `splice(i, 1)`. */
  function RemoveAt<T>(s: seq<T>, i: nat): (r: seq<T>)
    requires i < |s|
    ensures |r| == |s| - 1
    ensures forall k :: 0 <= k < i ==> r[k] == s[k]
    ensures forall k :: i <= k < |r| ==> r[k] == s[k + 1]
  {
    s[..i] + s[i + 1..]
  }

  /**
   * The elements of `s` that satisfy `p`: `filter`. How often each kept
   * element occurs is stated by `FilterCount`; the order by `FilterAppend`
   * and `FilterSingleton`.
   */
  function Filter<T(!new)>(s: seq<T>, p: T -> bool): (r: seq<T>)
    ensures |r| <= |s|
    ensures forall x :: x in r <==> x in s && p(x)
  {
    if |s| == 0 then []
    else
      var rest := Filter(s[1..], p);
      assert s == [s[0]] + s[1..];
      if p(s[0]) then [s[0]] + rest else rest
  }

  /** Each element satisfying `p` is kept as often as it occurs in `s`; no other is kept. */
  lemma {:induction false} FilterCount<T(!new)>(s: seq<T>, p: T -> bool)
    ensures forall x :: multiset(Filter(s, p))[x] == if p(x) then multiset(s)[x] else 0
  {
    if |s| > 0 {
      FilterCount(s[1..], p);
      assert s == [s[0]] + s[1..];
    }
  }

  /** Filtering a one-element list keeps the element exactly when it satisfies `p`. */
  lemma FilterSingleton<T(!new)>(x: T, p: T -> bool)
    ensures Filter([x], p) == if p(x) then [x] else []
  {
    assert [x][1..] == [];
  }

  /** Filtering `[x] + s`: the verdict on `x`, then the filtered `s`. */
  lemma FilterCons<T(!new)>(x: T, s: seq<T>, p: T -> bool)
    ensures Filter([x] + s, p) == (if p(x) then [x] else []) + Filter(s, p)
  {
    assert ([x] + s)[1..] == s;
  }

  /**
   * Filtering a concatenation filters each part and keeps them in order;
   * with `FilterSingleton` this says the kept elements appear in their
   * order in `s`.
   */
  lemma {:induction false} FilterAppend<T(!new)>(a: seq<T>, b: seq<T>, p: T -> bool)
    ensures Filter(a + b, p) == Filter(a, p) + Filter(b, p)
  {
    if |a| == 0 {
      assert a + b == b;
    } else {
      var x, t := a[0], a[1..];
      var head := if p(x) then [x] else [];
      calc {
        Filter(a + b, p);
        { assert a + b == [x] + (t + b); }
        Filter([x] + (t + b), p);
        { FilterCons(x, t + b, p); }
        head + Filter(t + b, p);
        { FilterAppend(t, b, p); }
        head + (Filter(t, p) + Filter(b, p));
        (head + Filter(t, p)) + Filter(b, p);
        { FilterCons(x, t, p); assert a == [x] + t; }
        Filter(a, p) + Filter(b, p);
      }
    }
  }
}

/**
  The task records of the to-do screen and the pure list transformations its
  handlers build before committing a new list: append (add), map over the text
  (update), map over the completion flag (check/uncheck), filter by id (delete),
  and the done/total counts behind the progress bar.
 */
module Tasks {

  /** The creation time of a record. The model only carries it along. */
  datatype Timestamp = Timestamp(millis: int)

  /** The `completed` property of a record: missing (the seed record has none), or a boolean. */
  datatype Completion = Absent | Present(value: bool)

  datatype Task = Task(id: int, task: string, completed: Completion, createdAt: Timestamp)

  /** Ids strictly increase along the list, so no two records share an id. */
  ghost predicate StrictlyIncreasing(l: seq<Task>) {
    forall i, j :: 0 <= i < j < |l| ==> l[i].id < l[j].id
  }

  // ---------------------------------------------------------------------------
  // Add: id assignment and append

  /** The id the add branch gives a new record: the LAST record's id plus one,
      or 1 when the list is empty. */
  function NextId(l: seq<Task>): (r: int)
    ensures l == [] ==> r == 1
    ensures StrictlyIncreasing(l) ==> forall i :: 0 <= i < |l| ==> l[i].id < r
    ensures (forall i :: 0 <= i < |l| ==> 1 <= l[i].id) ==> 1 <= r
  {
    if |l| == 0 then 1 else l[|l| - 1].id + 1
  }

  /** A max-scan over the ids (0 for the empty list), the reference `NextId` is compared with. */
  function MaxId(l: seq<Task>): (m: int)
    ensures forall i :: 0 <= i < |l| ==> l[i].id <= m
    ensures l == [] ==> m == 0
    ensures l != [] ==> exists i :: 0 <= i < |l| && l[i].id == m
  {
    if |l| == 0 then 0
    else if |l| == 1 then l[0].id
    else
      var rest := MaxId(l[1..]);
      assert forall i :: 1 <= i < |l| ==> l[i] == l[1..][i - 1];
      if l[0].id >= rest then l[0].id else rest
  }

  /** The record the add branch appends: the buffer as typed (not trimmed), not
      done, stamped with the given time, and under increasing ids an id no record
      of the list has. */
  function NewTask(l: seq<Task>, text: string, now: Timestamp): (t: Task)
    ensures t.task == text && t.createdAt == now && t.completed == Present(false)
    ensures StrictlyIncreasing(l) ==> forall i :: 0 <= i < |l| ==> l[i].id != t.id
  {
    Task(NextId(l), text, Present(false), now)
  }

  /** The list the add branch commits: the old list unchanged as a prefix,
      followed by exactly one new record. */
  function Append(l: seq<Task>, text: string, now: Timestamp): (r: seq<Task>)
    ensures |r| == |l| + 1 && r[..|l|] == l && r[|l|] == NewTask(l, text, now)
  {
    l + [NewTask(l, text, now)]
  }

  /** On a list with increasing ids, "last id plus one" agrees with the max-scan,
      so the new id is larger than every id in the list. */
  lemma NextIdIsMaxPlusOne(l: seq<Task>)
    requires StrictlyIncreasing(l)
    ensures NextId(l) == MaxId(l) + 1
    ensures forall i :: 0 <= i < |l| ==> l[i].id < NextId(l)
  {
  }

  /** Without increasing ids "last id plus one" can hand out an id already in use. */
  lemma NextIdCanCollideOnUnorderedList(now: Timestamp)
    ensures var l := [Task(2, "a", Absent, now), Task(1, "b", Absent, now)];
            NextId(l) == l[0].id
  {
  }

  /** Adding keeps the ids increasing, keeps every earlier record in place, and
      the appended record is the only one with the new id. */
  lemma AppendKeepsIncreasing(l: seq<Task>, text: string, now: Timestamp)
    requires StrictlyIncreasing(l)
    ensures StrictlyIncreasing(Append(l, text, now))
    ensures |Append(l, text, now)| == |l| + 1 && Append(l, text, now)[..|l|] == l
    ensures forall i :: 0 <= i < |l| ==> l[i].id != NewTask(l, text, now).id
  {
  }

  // ---------------------------------------------------------------------------
  // Update: replace the text of the records with a given id

  /** The update branch's `map`: only `task` of the records whose id matches
      changes; length, order, ids, completion and creation time are kept. */
  function Rename(l: seq<Task>, id: int, text: string): (r: seq<Task>)
    ensures |r| == |l|
    ensures forall i :: 0 <= i < |l| ==>
              && r[i].id == l[i].id
              && r[i].completed == l[i].completed
              && r[i].createdAt == l[i].createdAt
              && r[i].task == (if l[i].id == id then text else l[i].task)
  {
    if l == [] then []
    else [if l[0].id == id then l[0].(task := text) else l[0]] + Rename(l[1..], id, text)
  }

  /** Renaming leaves the records with other ids exactly as they were. */
  lemma RenameKeepsOthers(l: seq<Task>, id: int, text: string)
    ensures forall i :: 0 <= i < |l| && l[i].id != id ==> Rename(l, id, text)[i] == l[i]
    ensures StrictlyIncreasing(l) ==> StrictlyIncreasing(Rename(l, id, text))
  {
  }

  // ---------------------------------------------------------------------------
  // Check / uncheck: set the completion flag of the records with a given id

  /** The check handler's `map`: only `completed` of the records whose id matches
      becomes the given flag; length, order, ids, text and creation time are kept. */
  function SetCompleted(l: seq<Task>, id: int, b: bool): (r: seq<Task>)
    ensures |r| == |l|
    ensures forall i :: 0 <= i < |l| ==>
              && r[i].id == l[i].id
              && r[i].task == l[i].task
              && r[i].createdAt == l[i].createdAt
              && r[i].completed == (if l[i].id == id then Present(b) else l[i].completed)
  {
    if l == [] then []
    else [if l[0].id == id then l[0].(completed := Present(b)) else l[0]] + SetCompleted(l[1..], id, b)
  }

  /** Checking leaves the records with other ids exactly as they were. */
  lemma SetCompletedKeepsOthers(l: seq<Task>, id: int, b: bool)
    ensures forall i :: 0 <= i < |l| && l[i].id != id ==> SetCompleted(l, id, b)[i] == l[i]
    ensures StrictlyIncreasing(l) ==> StrictlyIncreasing(SetCompleted(l, id, b))
  {
  }

  // ---------------------------------------------------------------------------
  // Delete: filter out the records with a given id

  /** The delete handler's `filter`: the records kept are exactly those whose id differs. */
  function Remove(l: seq<Task>, id: int): (r: seq<Task>)
    ensures |r| <= |l|
    ensures forall t :: t in r <==> t in l && t.id != id
  {
    if l == [] then []
    else if l[0].id == id then Remove(l[1..], id)
    else [l[0]] + Remove(l[1..], id)
  }

  /** Removing distributes over concatenation: the kept records stay in their
      relative order. */
  lemma {:induction false} RemoveConcat(a: seq<Task>, b: seq<Task>, id: int)
    ensures Remove(a + b, id) == Remove(a, id) + Remove(b, id)
  {
    if a != [] {
      assert (a + b)[1..] == a[1..] + b;
      RemoveConcat(a[1..], b, id);
    } else {
      assert a + b == b;
    }
  }

  /** A list with no record of the given id is left as it is. */
  lemma {:induction false} RemoveAbsent(l: seq<Task>, id: int)
    requires forall i :: 0 <= i < |l| ==> l[i].id != id
    ensures Remove(l, id) == l
  {
    if l != [] {
      RemoveAbsent(l[1..], id);
    }
  }

  /** Deleting twice is the same as deleting once. */
  lemma {:induction false} RemoveIdempotent(l: seq<Task>, id: int)
    ensures Remove(Remove(l, id), id) == Remove(l, id)
  {
    var r := Remove(l, id);
    forall i | 0 <= i < |r| ensures r[i].id != id {
      assert r[i] in r;
    }
    RemoveAbsent(r, id);
  }

  /** Every id kept by a delete is an id of the list, so a lower bound on the
      list's ids bounds the kept ones too. */
  lemma RemoveKeepsLowerBound(l: seq<Task>, id: int, bound: int)
    requires forall i :: 0 <= i < |l| ==> bound < l[i].id
    ensures forall k :: 0 <= k < |Remove(l, id)| ==> bound < Remove(l, id)[k].id
  {
    var r := Remove(l, id);
    forall k | 0 <= k < |r| ensures bound < r[k].id {
      assert r[k] in l;
    }
  }

  /** Deleting keeps the ids increasing. */
  lemma {:induction false} RemoveKeepsIncreasing(l: seq<Task>, id: int)
    requires StrictlyIncreasing(l)
    ensures StrictlyIncreasing(Remove(l, id))
  {
    if l != [] {
      var tail := l[1..];
      assert forall i :: 0 <= i < |tail| ==> tail[i] == l[i + 1];
      RemoveKeepsIncreasing(tail, id);
      if l[0].id != id {
        var rest := Remove(tail, id);
        RemoveKeepsLowerBound(tail, id, l[0].id);
        var r := [l[0]] + rest;
        assert forall k :: 1 <= k < |r| ==> r[k] == rest[k - 1];
      }
    }
  }

  /** On a list with increasing ids, deleting an id that is present removes exactly
      one record: the list is the one before it followed by the one after it. */
  lemma RemoveUnique(l: seq<Task>, k: nat)
    requires StrictlyIncreasing(l) && k < |l|
    ensures Remove(l, l[k].id) == l[..k] + l[k + 1..]
    ensures |Remove(l, l[k].id)| == |l| - 1
  {
    var id := l[k].id;
    assert l == l[..k] + ([l[k]] + l[k + 1..]);
    RemoveConcat(l[..k], [l[k]] + l[k + 1..], id);
    RemoveConcat([l[k]], l[k + 1..], id);
    RemoveAbsent(l[..k], id);
    RemoveAbsent(l[k + 1..], id);
    assert Remove([l[k]], id) == [] by {
      assert [l[k]][1..] == [];
    }
  }

  /** Because new ids are "last id plus one", deleting the last record lets the
      next add hand out an id again: the next id becomes the previous record's id
      plus one (1 when nothing is left). That is never larger than the deleted id
      when a record is left or the deleted id was at least 1, and equals it
      exactly when the ids before it were consecutive. */
  lemma DeleteLastRewindsNextId(l: seq<Task>)
    requires StrictlyIncreasing(l) && |l| > 0
    ensures NextId(Remove(l, l[|l| - 1].id)) == (if |l| == 1 then 1 else l[|l| - 2].id + 1)
    ensures |l| >= 2 || l[0].id >= 1 ==> NextId(Remove(l, l[|l| - 1].id)) <= l[|l| - 1].id
  {
    var n := |l|;
    RemoveUnique(l, n - 1);
    assert l[n..] == [];
    var front := l[..n - 1];
    assert Remove(l, l[n - 1].id) == front + [] == front;
    if n >= 2 {
      assert front[n - 2] == l[n - 2];
    }
  }

  /** From the seed list, delete then add gives the new record id 1 again. */
  lemma SeedIdIsReused(now: Timestamp, later: Timestamp)
    ensures var seed := [Task(1, "One", Absent, now)];
            NewTask(Remove(seed, 1), "Two", later).id == seed[0].id
  {
  }

  // ---------------------------------------------------------------------------
  // Progress

  /** A record counts as done unless its `completed` is exactly `false`: a record
      with no `completed` property counts as done. */
  predicate CountsAsDone(t: Task)
    ensures CountsAsDone(t) <==> t.completed == Absent || t.completed == Present(true)
  {
    t.completed != Present(false)
  }

  /** The length of the filtered list `done`. */
  function CountDone(l: seq<Task>): (n: nat)
    ensures n <= |l|
  {
    if l == [] then 0 else (if CountsAsDone(l[0]) then 1 else 0) + CountDone(l[1..])
  }

  /** The progress ratio as its two integer counts; the bar shows done / total,
      and 0 for an empty list. */
  datatype Counts = Counts(done: nat, total: nat)

  function Progress(l: seq<Task>): (p: Counts)
    ensures p.total == |l| && p.done <= p.total
  {
    Counts(CountDone(l), |l|)
  }

  /** `progress === 1`, the condition that starts the completion animation; a
      full bar is never an empty one. */
  predicate IsComplete(p: Counts)
    ensures IsComplete(p) ==> p.done >= 1 && !IsZero(p)
  {
    p.total > 0 && p.done == p.total
  }

  /** `progress === 0`: the empty list, or nothing done. */
  predicate IsZero(p: Counts) {
    p.total == 0 || p.done == 0
  }

  lemma {:induction false} CountDoneConcat(a: seq<Task>, b: seq<Task>)
    ensures CountDone(a + b) == CountDone(a) + CountDone(b)
  {
    if a != [] {
      assert (a + b)[1..] == a[1..] + b;
      CountDoneConcat(a[1..], b);
    } else {
      assert a + b == b;
    }
  }

  lemma {:induction false} CountDoneAll(l: seq<Task>)
    ensures CountDone(l) == |l| <==> forall i :: 0 <= i < |l| ==> CountsAsDone(l[i])
  {
    if l != [] {
      CountDoneAll(l[1..]);
      assert forall i :: 1 <= i < |l| ==> l[i] == l[1..][i - 1];
    }
  }

  lemma {:induction false} CountDoneNone(l: seq<Task>)
    ensures CountDone(l) == 0 <==> forall i :: 0 <= i < |l| ==> !CountsAsDone(l[i])
  {
    if l != [] {
      CountDoneNone(l[1..]);
      assert forall i :: 1 <= i < |l| ==> l[i] == l[1..][i - 1];
    }
  }

  /** The bar is full exactly when the list is non-empty and no record has
      `completed == false`. */
  lemma ProgressCompleteIff(l: seq<Task>)
    ensures IsComplete(Progress(l)) <==> l != [] && forall i :: 0 <= i < |l| ==> l[i].completed != Present(false)
  {
    CountDoneAll(l);
  }

  /** The bar is empty exactly when every record has `completed == false`
      (vacuously so for the empty list). */
  lemma ProgressZeroIff(l: seq<Task>)
    ensures IsZero(Progress(l)) <==> forall i :: 0 <= i < |l| ==> l[i].completed == Present(false)
  {
    CountDoneNone(l);
  }

  /** Adding a task adds one to the total and nothing to the done count, so a
      full bar stops being full. */
  lemma AppendProgress(l: seq<Task>, text: string, now: Timestamp)
    ensures Progress(Append(l, text, now)) == Counts(CountDone(l), |l| + 1)
    ensures !IsComplete(Progress(Append(l, text, now)))
  {
    CountDoneConcat(l, [NewTask(l, text, now)]);
    assert [NewTask(l, text, now)][1..] == [];
  }

  /** Checking records never lowers the done count and unchecking never raises it;
      the total stays the same either way. */
  lemma {:induction false} SetCompletedProgress(l: seq<Task>, id: int, b: bool)
    ensures Progress(SetCompleted(l, id, b)).total == |l|
    ensures b ==> CountDone(SetCompleted(l, id, b)) >= CountDone(l)
    ensures !b ==> CountDone(SetCompleted(l, id, b)) <= CountDone(l)
  {
    if l != [] {
      SetCompletedProgress(l[1..], id, b);
    }
  }
}

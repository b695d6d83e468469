/** Selections and counts over sequences of task records. Every filter in the
    tracker has the shape `tasks.filter(t => t.field === value)`: the status
    filter of the task store, the employee's assignee filter and the status
    counts of both dashboards. */
module TaskRecords {
  import opened JsValues

  /** `s.filter(t => t[field] === v)`: keeps the matching records in order.
      `==` stands for `===`: the fields compared in this code hold strings,
      undefined or null, for which `===` compares values (on Date objects it
      would compare references). */
  function Where(s: seq<Record>, field: string, v: Value): (r: seq<Record>)
    ensures |r| <= |s|
    ensures forall i :: 0 <= i < |r| ==> Get(r[i], field) == v
  {
    if s == [] then []
    else (if Get(s[0], field) == v then [s[0]] else []) + Where(s[1..], field, v)
  }

  /** One step of the filter: the first record, then the rest. */
  lemma WhereCons(h: Record, t: seq<Record>, field: string, v: Value)
    ensures Where([h] + t, field, v) == (if Get(h, field) == v then [h] else []) + Where(t, field, v)
  {
    assert ([h] + t)[1..] == t;
  }

  /** Order-preserving subsequence: `r` is `s` with some elements dropped. */
  predicate IsSubsequence(r: seq<Record>, s: seq<Record>)
    decreases |s|
  {
    if r == [] then true
    else if s == [] then false
    else (r[0] == s[0] && IsSubsequence(r[1..], s[1..])) || IsSubsequence(r, s[1..])
  }

  /** The selection holds each matching record as often as the input does and
      no other record at all. */
  lemma {:induction false} WhereCount(s: seq<Record>, field: string, v: Value, x: Record)
    ensures multiset(Where(s, field, v))[x] ==
            if Get(x, field) == v then multiset(s)[x] else 0
  {
    if s != [] {
      var hs: seq<Record> := if Get(s[0], field) == v then [s[0]] else [];
      WhereCount(s[1..], field, v, x);
      assert s == [s[0]] + s[1..];
      assert multiset(s) == multiset{s[0]} + multiset(s[1..]);
      assert multiset(Where(s, field, v)) == multiset(hs) + multiset(Where(s[1..], field, v));
    }
  }

  /** The selection only holds records of the input. */
  lemma {:induction false} WhereSubset(s: seq<Record>, field: string, v: Value)
    ensures forall t :: t in Where(s, field, v) ==> t in s
  {
    if s != [] {
      WhereSubset(s[1..], field, v);
    }
  }

  /** The selection keeps the input order. */
  lemma {:induction false} WhereIsSubsequence(s: seq<Record>, field: string, v: Value)
    ensures IsSubsequence(Where(s, field, v), s)
  {
    if s != [] {
      WhereIsSubsequence(s[1..], field, v);
      var r := Where(s, field, v);
      if Get(s[0], field) == v {
        assert r[0] == s[0] && r[1..] == Where(s[1..], field, v);
      } else {
        assert r == Where(s[1..], field, v);
      }
    }
  }

  /** Selecting from a concatenation selects from each part. */
  lemma {:induction false} WhereConcat(a: seq<Record>, b: seq<Record>, field: string, v: Value)
    ensures Where(a + b, field, v) == Where(a, field, v) + Where(b, field, v)
  {
    if a != [] {
      assert (a + b)[0] == a[0];
      assert (a + b)[1..] == a[1..] + b;
      WhereConcat(a[1..], b, field, v);
    } else {
      assert a + b == b;
    }
  }

  /** When nothing matches, the selection is empty. */
  lemma {:induction false} WhereNoneMatch(s: seq<Record>, field: string, v: Value)
    requires forall i :: 0 <= i < |s| ==> Get(s[i], field) != v
    ensures Where(s, field, v) == []
  {
    if s != [] {
      WhereNoneMatch(s[1..], field, v);
    }
  }

  /** The records that already all match are all selected. */
  lemma {:induction false} WhereAllMatch(s: seq<Record>, field: string, v: Value)
    requires forall i :: 0 <= i < |s| ==> Get(s[i], field) == v
    ensures Where(s, field, v) == s
  {
    if s != [] {
      WhereAllMatch(s[1..], field, v);
      assert [s[0]] + s[1..] == s;
    }
  }

  /** Selecting twice on one field with two different values leaves nothing;
      with the same value it changes nothing. */
  lemma {:induction false} WhereTwice(s: seq<Record>, field: string, v: Value, w: Value)
    ensures Where(Where(s, field, v), field, w) == if v == w then Where(s, field, v) else []
  {
    if s != [] {
      WhereTwice(s[1..], field, v, w);
      var head := if Get(s[0], field) == v then [s[0]] else [];
      WhereConcat(head, Where(s[1..], field, v), field, w);
    }
  }

  /** Two sequences holding the same records select the same number of them. */
  lemma WherePermutationLength(a: seq<Record>, b: seq<Record>, field: string, v: Value)
    requires multiset(a) == multiset(b)
    ensures |Where(a, field, v)| == |Where(b, field, v)|
  {
    forall x ensures multiset(Where(a, field, v))[x] == multiset(Where(b, field, v))[x] {
      WhereCount(a, field, v, x);
      WhereCount(b, field, v, x);
    }
    assert multiset(Where(a, field, v)) == multiset(Where(b, field, v));
    assert |multiset(Where(a, field, v))| == |Where(a, field, v)|;
    assert |multiset(Where(b, field, v))| == |Where(b, field, v)|;
  }

  // ---------------------------------------------------------------------------
  // The dashboards' status counts

  /** The statistics object handed to the stats cards; its keys in the
      source are `total`, `new`, `active` and `completed`. */
  datatype Stats = Stats(total: nat, newCount: nat, activeCount: nat, completedCount: nat)

  function CountStatus(tasks: seq<Record>, status: string): nat
  {
    |Where(tasks, "status", Str(status))|
  }

  /** `{ total: tasks.length, new: …, active: …, completed: … }`, each count
      being the length of a status filter. */
  function StatsOf(tasks: seq<Record>): Stats
  {
    Stats(|tasks|, CountStatus(tasks, "New"), CountStatus(tasks, "Active"),
          CountStatus(tasks, "Completed"))
  }

  /** Each record has one status, so the four status counts together never
      exceed the number of records; Failed tasks are in no card but `total`. */
  lemma {:induction false} StatusTally(tasks: seq<Record>)
    ensures CountStatus(tasks, "New") + CountStatus(tasks, "Active")
            + CountStatus(tasks, "Completed") + CountStatus(tasks, "Failed") <= |tasks|
  {
    if tasks != [] {
      StatusTally(tasks[1..]);
    }
  }

  /** The cards of a statistics object add up to at most its total. */
  lemma StatsBounded(tasks: seq<Record>)
    ensures StatsOf(tasks).newCount + StatsOf(tasks).activeCount + StatsOf(tasks).completedCount
            + CountStatus(tasks, "Failed") <= StatsOf(tasks).total
  {
    StatusTally(tasks);
  }
}

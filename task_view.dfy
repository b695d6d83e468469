/** The derived view of the task store (`getFilteredTasks` in
    src/context/TaskContext.jsx): a status filter followed by
    `Array.prototype.sort` with a descending comparator. The sort is required
    to be stable (ECMA-262, 10th edition, section 22.1.3.27), so it is modelled
    as a stable insertion sort and proved sorted, a permutation and stable. */
module TaskView {
  import opened JsValues
  import opened TaskRecords

  const AllStatuses: string := "All"

  /** `filterStatus === 'All' ? tasks : tasks.filter(t => t.status === filterStatus)` */
  function Filtered(tasks: seq<Record>, filterStatus: string): seq<Record>
  {
    if filterStatus == AllStatuses then tasks else Where(tasks, "status", Str(filterStatus))
  }

  // ---------------------------------------------------------------------------
  // The comparator

  predicate KnownPriority(v: Value)
  {
    v == Str("High") || v == Str("Medium") || v == Str("Low")
  }

  /** `{ High: 3, Medium: 2, Low: 1 }[priority]` */
  function PriorityRank(v: Value): int
    requires KnownPriority(v)
  {
    if v == Str("High") then 3 else if v == Str("Medium") then 2 else 1
  }

  /** What the comparator needs of a record to give a number: a Date
      `createdAt` when sorting by date, a known priority when sorting by
      priority, nothing for any other key. */
  predicate Sortable(t: Record, sortBy: string)
  {
    if sortBy == "date" then Get(t, "createdAt").Date?
    else if sortBy == "priority" then KnownPriority(Get(t, "priority"))
    else true
  }

  predicate AllSortable(s: seq<Record>, sortBy: string)
  {
    forall i :: 0 <= i < |s| ==> Sortable(s[i], sortBy)
  }

  /** The comparator is `(a, b) => Key(b) - Key(a)`, or constantly 0 for a
      key other than 'date' and 'priority'. */
  function Key(t: Record, sortBy: string): int
    requires Sortable(t, sortBy)
  {
    if sortBy == "date" then Get(t, "createdAt").ms
    else if sortBy == "priority" then PriorityRank(Get(t, "priority"))
    else 0
  }

  /** The record field the key is read from. */
  function SortField(sortBy: string): string
  {
    if sortBy == "date" then "createdAt" else "priority"
  }

  predicate IsSortedDesc(s: seq<Record>, sortBy: string)
  {
    AllSortable(s, sortBy) &&
    forall i, j :: 0 <= i < j < |s| ==> Key(s[j], sortBy) <= Key(s[i], sortBy)
  }

  // ---------------------------------------------------------------------------
  // The stable sort

  /** Places `x` in front of the first element whose key is not larger. */
  function Insert(x: Record, l: seq<Record>, sortBy: string): (r: seq<Record>)
    requires Sortable(x, sortBy) && AllSortable(l, sortBy)
    ensures multiset(r) == multiset(l) + multiset{x}
  {
    if l == [] || Key(l[0], sortBy) <= Key(x, sortBy) then [x] + l
    else
      assert l == [l[0]] + l[1..];
      [l[0]] + Insert(x, l[1..], sortBy)
  }

  /** Inserting into a sorted sequence gives a sorted sequence. */
  lemma {:induction false} InsertSorted(x: Record, l: seq<Record>, sortBy: string)
    requires Sortable(x, sortBy) && IsSortedDesc(l, sortBy)
    ensures IsSortedDesc(Insert(x, l, sortBy), sortBy)
  {
    if l == [] || Key(l[0], sortBy) <= Key(x, sortBy) {
      PrependSorted(x, l, sortBy);
    } else {
      assert IsSortedDesc(l[1..], sortBy);
      InsertSorted(x, l[1..], sortBy);
      var rest := Insert(x, l[1..], sortBy);
      forall i | 0 <= i < |rest| ensures Key(rest[i], sortBy) <= Key(l[0], sortBy) {
        assert rest[i] in multiset(rest);
        if rest[i] != x {
          assert rest[i] in multiset(l[1..]);
          var j :| 0 <= j < |l[1..]| && l[1..][j] == rest[i];
          assert rest[i] == l[j + 1];
        }
      }
      PrependSorted(l[0], rest, sortBy);
    }
  }

  /** In a sorted sequence no later record has a larger key than the head. */
  lemma SortedTailBound(s: seq<Record>, sortBy: string)
    requires IsSortedDesc(s, sortBy) && s != []
    ensures forall t :: t in s[1..] ==> Sortable(t, sortBy) && Key(t, sortBy) <= Key(s[0], sortBy)
  {
    forall t | t in s[1..] ensures Sortable(t, sortBy) && Key(t, sortBy) <= Key(s[0], sortBy) {
      var j :| 0 <= j < |s[1..]| && s[1..][j] == t;
      assert t == s[j + 1];
    }
  }

  /** A sorted sequence stays sorted behind a head with the largest key. */
  lemma PrependSorted(h: Record, s: seq<Record>, sortBy: string)
    requires Sortable(h, sortBy) && IsSortedDesc(s, sortBy)
    requires forall i :: 0 <= i < |s| ==> Key(s[i], sortBy) <= Key(h, sortBy)
    ensures IsSortedDesc([h] + s, sortBy)
  {
    var r := [h] + s;
    assert forall i :: 0 < i < |r| ==> r[i] == s[i - 1];
  }

  /** `filtered.sort(comparator)` */
  function SortDesc(s: seq<Record>, sortBy: string): (r: seq<Record>)
    requires AllSortable(s, sortBy)
    ensures multiset(r) == multiset(s)
    ensures IsSortedDesc(r, sortBy)
  {
    if s == [] then []
    else
      assert s == [s[0]] + s[1..];
      var rest := SortDesc(s[1..], sortBy);
      InsertSorted(s[0], rest, sortBy);
      Insert(s[0], rest, sortBy)
  }

  /** The derived view: filter, then sort. */
  function DerivedView(tasks: seq<Record>, filterStatus: string, sortBy: string): seq<Record>
    requires AllSortable(Filtered(tasks, filterStatus), sortBy)
  {
    SortDesc(Filtered(tasks, filterStatus), sortBy)
  }

  // ---------------------------------------------------------------------------
  // Properties of the sort

  /** Inserting `x` keeps the order of the records that share a sort-field
      value: `x` goes in front of all of them, since every record it passes
      has a larger key and so a different value. */
  lemma {:induction false} InsertWhere(x: Record, l: seq<Record>, sortBy: string, v: Value)
    requires sortBy == "date" || sortBy == "priority"
    requires Sortable(x, sortBy) && AllSortable(l, sortBy)
    ensures Where(Insert(x, l, sortBy), SortField(sortBy), v) ==
            (if Get(x, SortField(sortBy)) == v then [x] else []) + Where(l, SortField(sortBy), v)
  {
    var f := SortField(sortBy);
    if l == [] || Key(l[0], sortBy) <= Key(x, sortBy) {
      assert Insert(x, l, sortBy) == [x] + l;
      WhereCons(x, l, f, v);
    } else {
      var rest := Insert(x, l[1..], sortBy);
      assert Insert(x, l, sortBy) == [l[0]] + rest;
      InsertWhere(x, l[1..], sortBy, v);
      KeyFollowsField(l[0], x, sortBy);
      assert l == [l[0]] + l[1..];
      PassDifferent(l[0], x, rest, l[1..], f, v);
    }
  }

  /** Passing a record with a different field value does not change the
      order of `x` relative to the records selected after it. */
  lemma PassDifferent(h: Record, x: Record, rest: seq<Record>, tail: seq<Record>, field: string, v: Value)
    requires Get(h, field) != Get(x, field)
    requires Where(rest, field, v) == (if Get(x, field) == v then [x] else []) + Where(tail, field, v)
    ensures Where([h] + rest, field, v) == (if Get(x, field) == v then [x] else []) + Where([h] + tail, field, v)
  {
    WhereCons(h, rest, field, v);
    WhereCons(h, tail, field, v);
    var hs: seq<Record> := if Get(h, field) == v then [h] else [];
    var xs: seq<Record> := if Get(x, field) == v then [x] else [];
    var w := Where(tail, field, v);
    if hs == [] {
      assert hs + (xs + w) == xs + w == xs + (hs + w);
    } else {
      assert xs == [];
      assert hs + (xs + w) == hs + w == xs + (hs + w);
    }
  }

  /** Two records have the same key exactly when they have the same value
      in the sort field. */
  lemma KeyFollowsField(a: Record, b: Record, sortBy: string)
    requires sortBy == "date" || sortBy == "priority"
    requires Sortable(a, sortBy) && Sortable(b, sortBy)
    ensures Get(a, SortField(sortBy)) == Get(b, SortField(sortBy)) <==> Key(a, sortBy) == Key(b, sortBy)
  {
  }

  /** Stability: records with equal keys, which are exactly the records with
      equal values in the sort field, keep their input order. */
  lemma {:induction false} SortStable(s: seq<Record>, sortBy: string, v: Value)
    requires sortBy == "date" || sortBy == "priority"
    requires AllSortable(s, sortBy)
    ensures Where(SortDesc(s, sortBy), SortField(sortBy), v) == Where(s, SortField(sortBy), v)
  {
    if s != [] {
      SortStable(s[1..], sortBy, v);
      InsertWhere(s[0], SortDesc(s[1..], sortBy), sortBy, v);
    }
  }

  /** A comparator that always answers 0 leaves the order unchanged. */
  lemma {:induction false} SortOtherKeyIsIdentity(s: seq<Record>, sortBy: string)
    requires sortBy != "date" && sortBy != "priority"
    ensures SortDesc(s, sortBy) == s
  {
    if s != [] {
      SortOtherKeyIsIdentity(s[1..], sortBy);
      assert [s[0]] + s[1..] == s;
    }
  }

  /** An already sorted sequence is left as it is. */
  lemma {:induction false} SortOfSorted(s: seq<Record>, sortBy: string)
    requires IsSortedDesc(s, sortBy)
    ensures SortDesc(s, sortBy) == s
  {
    if s != [] {
      assert IsSortedDesc(s[1..], sortBy);
      SortOfSorted(s[1..], sortBy);
      assert [s[0]] + s[1..] == s;
    }
  }

  /** Sorting twice by the same key is sorting once. */
  lemma SortIdempotent(s: seq<Record>, sortBy: string)
    requires AllSortable(s, sortBy)
    ensures SortDesc(SortDesc(s, sortBy), sortBy) == SortDesc(s, sortBy)
  {
    SortOfSorted(SortDesc(s, sortBy), sortBy);
  }

  /** A selection from a sorted sequence is sorted. */
  lemma {:induction false} WhereKeepsSorted(s: seq<Record>, sortBy: string, field: string, v: Value)
    requires IsSortedDesc(s, sortBy)
    ensures IsSortedDesc(Where(s, field, v), sortBy)
  {
    if s != [] {
      assert IsSortedDesc(s[1..], sortBy);
      WhereKeepsSorted(s[1..], sortBy, field, v);
      var rest := Where(s[1..], field, v);
      if Get(s[0], field) == v {
        WhereSubset(s[1..], field, v);
        SortedTailBound(s, sortBy);
        forall i | 0 <= i < |rest| ensures Key(rest[i], sortBy) <= Key(s[0], sortBy) {
          assert rest[i] in rest;
        }
        PrependSorted(s[0], rest, sortBy);
      }
    }
  }

  // ---------------------------------------------------------------------------
  // Properties of the derived view

  /** Under 'All' the view holds every task of the mirror; under a status it
      holds exactly the tasks with that status, each as often as the mirror. */
  lemma ViewContents(tasks: seq<Record>, filterStatus: string, sortBy: string, x: Record)
    requires AllSortable(Filtered(tasks, filterStatus), sortBy)
    ensures multiset(DerivedView(tasks, filterStatus, sortBy))[x] ==
            if filterStatus == AllStatuses || Get(x, "status") == Str(filterStatus)
            then multiset(tasks)[x] else 0
  {
    if filterStatus != AllStatuses {
      WhereCount(tasks, "status", Str(filterStatus), x);
    }
  }

  /** Under a status filter every task in the view has that status. */
  lemma ViewMatchesFilter(tasks: seq<Record>, filterStatus: string, sortBy: string)
    requires filterStatus != AllStatuses
    requires AllSortable(Filtered(tasks, filterStatus), sortBy)
    ensures forall t :: t in DerivedView(tasks, filterStatus, sortBy) ==> Get(t, "status") == Str(filterStatus)
  {
    var w := Where(tasks, "status", Str(filterStatus));
    forall t | t in DerivedView(tasks, filterStatus, sortBy)
      ensures Get(t, "status") == Str(filterStatus)
    {
      assert t in multiset(DerivedView(tasks, filterStatus, sortBy));
      assert t in multiset(w);
    }
  }

  /** The view's status counts equal those of the filtered mirror. */
  lemma ViewCounts(tasks: seq<Record>, filterStatus: string, sortBy: string, status: string)
    requires AllSortable(Filtered(tasks, filterStatus), sortBy)
    ensures CountStatus(DerivedView(tasks, filterStatus, sortBy), status) ==
            CountStatus(Filtered(tasks, filterStatus), status)
  {
    WherePermutationLength(DerivedView(tasks, filterStatus, sortBy), Filtered(tasks, filterStatus),
                           "status", Str(status));
  }

  /** The worked example: a High task `a` and a Low task `b` created
      later. By priority the High task leads, by date the later one. */
  lemma TwoTaskExample(a: Record, b: Record)
    requires Get(a, "priority") == Str("High") && Get(b, "priority") == Str("Low")
    requires Get(a, "createdAt").Date? && Get(b, "createdAt").Date?
    requires Get(a, "createdAt").ms < Get(b, "createdAt").ms
    ensures AllSortable([a, b], "priority") && AllSortable([a, b], "date")
    ensures DerivedView([a, b], AllStatuses, "priority") == [a, b]
    ensures DerivedView([a, b], AllStatuses, "date") == [b, a]
  {
    TwoRecordSort(a, b, "priority");
    TwoRecordSort(a, b, "date");
  }

  /** Two records come out larger key first, and in their own order on a
      tie. */
  lemma TwoRecordSort(a: Record, b: Record, sortBy: string)
    requires Sortable(a, sortBy) && Sortable(b, sortBy)
    ensures AllSortable([a, b], sortBy)
    ensures SortDesc([a, b], sortBy) == if Key(b, sortBy) <= Key(a, sortBy) then [a, b] else [b, a]
  {
    assert [a, b][1..] == [b];
    SingletonSorted(b, sortBy);
    assert [b][1..] == [];
  }

  lemma SingletonSorted(x: Record, sortBy: string)
    requires Sortable(x, sortBy)
    ensures SortDesc([x], sortBy) == [x]
  {
    assert [x][1..] == [];
  }
}

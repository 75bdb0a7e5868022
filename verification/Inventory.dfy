// Comparing two inventories entry by entry (internal/cli/inventory_report.go).
module Inventory {
  import opened Wrappers
  import opened Growth

  datatype Kind = File | Directory | Other

  datatype Entry = Entry(path: string, device: nat, inode: nat, kind: Kind,
                         size: int, deep: bool, lowerBound: bool)

  /** observedSize: only a complete measurement counts. */
  function ObservedSize(e: Option<Entry>): Option<Size> {
    match e
    case None => None
    case Some(x) =>
      if !(0 <= x.size <= MAX_INT64) || x.lowerBound then None
      else if x.kind.File? || (x.kind.Directory? && x.deep) then Some(x.size)
      else None
  }

  /** What was compared: a baseline in the same scope, and whether each discovery was complete. */
  datatype Scope = Scope(compared: bool, previousComplete: bool, currentComplete: bool)

  /** The reasons for which observe refuses to compare, in its order. */
  predicate Incomparable(s: Scope, before: Option<Entry>, after: Option<Entry>) {
    || !s.compared
    || (before.None? && !s.previousComplete)
    || (after.None? && !s.currentComplete)
    || (before.Some? && after.Some?
        && (before.value.device != after.value.device || before.value.inode != after.value.inode
            || before.value.kind != after.value.kind))
    || (before.Some? && (before.value.device == 0 || before.value.inode == 0))
    || (after.Some? && (after.value.device == 0 || after.value.inode == 0))
  }

  /** The difference observe reports; an absent entry measures zero. */
  function Difference(s: Scope, before: Option<Entry>, after: Option<Entry>): Option<Delta> {
    if Incomparable(s, before, after) then None
    else
      var b := if before.None? then Some(0) else ObservedSize(before);
      var a := if after.None? then Some(0) else ObservedSize(after);
      if a.None? || b.None? then None else Some((a.value as int) - (b.value as int))
  }

  /** A complete size: a file's, or a directory's that was measured in depth and not as a lower bound. */
  predicate Complete(e: Entry) {
    0 <= e.size <= MAX_INT64 && !e.lowerBound && (e.kind.File? || (e.kind.Directory? && e.deep))
  }

  /** An entry has a difference if and only if both scans can speak of it: the later size less the earlier
      one, where an entry that a complete discovery did not find counts for zero. */
  lemma DifferenceExactlyWhen(s: Scope, before: Option<Entry>, after: Option<Entry>)
    ensures Difference(s, before, after).Some? <==>
              && s.compared
              && (before.None? ==> s.previousComplete) && (after.None? ==> s.currentComplete)
              && (before.Some? ==> before.value.device != 0 && before.value.inode != 0 && Complete(before.value))
              && (after.Some? ==> after.value.device != 0 && after.value.inode != 0 && Complete(after.value))
              && (before.Some? && after.Some? ==>
                    before.value.device == after.value.device && before.value.inode == after.value.inode
                    && before.value.kind == after.value.kind)
    ensures Difference(s, before, after).Some? ==>
              Difference(s, before, after).value
              == (if after.Some? then after.value.size else 0) - (if before.Some? then before.value.size else 0)
  {
  }

  function Find(entries: seq<Entry>, path: string): (e: Option<Entry>)
    ensures e.Some? ==> e.value in entries && e.value.path == path
    ensures e.None? ==> forall x :: x in entries ==> x.path != path
  {
    if entries == [] then None
    else if entries[0].path == path then Some(entries[0])
    else Find(entries[1..], path)
  }

  predicate Changed(c: Change) { c.delta != Some(0) }

  /** Rows of the current entries, then of the previous entries that are gone. */
  function CurrentRows(s: Scope, current: seq<Entry>, previous: seq<Entry>): (rows: seq<Change>)
    ensures |rows| == |current|
  {
    seq(|current|, i requires 0 <= i < |current| =>
      Change(current[i].path, Difference(s, Find(previous, current[i].path), Some(current[i]))))
  }

  function GoneRows(s: Scope, current: seq<Entry>, previous: seq<Entry>): (rows: seq<Change>)
    ensures forall k :: 0 <= k < |rows| ==> (exists x :: x in previous && x.path == rows[k].path) && Find(current, rows[k].path).None?
  {
    if previous == [] then []
    else
      var front, last := previous[..|previous| - 1], previous[|previous| - 1];
      var rows := GoneRows(s, current, front);
      if Find(current, last.path).Some? then rows
      else rows + [Change(last.path, Difference(s, Some(last), None))]
  }

  function Kept(rows: seq<Change>): seq<Change> {
    if rows == [] then []
    else
      var rest, last := Kept(rows[..|rows| - 1]), rows[|rows| - 1];
      if Changed(last) then rest + [last] else rest
  }

  function Known(rows: seq<Change>): nat {
    if rows == [] then 0 else Known(rows[..|rows| - 1]) + if rows[|rows| - 1].delta.Some? then 1 else 0
  }

  /** One for each row that has a difference. */
  lemma KnownIsCount(rows: seq<Change>, i: nat)
    requires i < |rows|
    ensures Known([]) == 0
    ensures Known(rows[..i + 1]) == Known(rows[..i]) + if rows[i].delta.Some? then 1 else 0
  {
    assert rows[..i + 1][..i] == rows[..i];
  }

  ghost predicate UniquePaths(entries: seq<Entry>) {
    forall i, j :: 0 <= i < j < |entries| ==> entries[i].path != entries[j].path
  }

  ghost function Paths(entries: seq<Entry>): set<string> { set e | e in entries :: e.path }

  ghost function RowPaths(rows: seq<Change>): set<string> { set c | c in rows :: c.path }

  lemma PathsOn(front: seq<Entry>, last: Entry)
    ensures Paths(front + [last]) == Paths(front) + {last.path}
    ensures UniquePaths(front + [last]) ==> UniquePaths(front) && last.path !in Paths(front)
  {
    var all := front + [last];
    assert forall e :: e in all <==> e in front || e == last;
    forall i | 0 <= i < |front| && UniquePaths(all) ensures front[i].path != last.path {
      assert all[i] == front[i] && all[|front|] == last;
    }
    forall i, j | 0 <= i < j < |front| && UniquePaths(all) ensures front[i].path != front[j].path {
      assert all[i] == front[i] && all[j] == front[j];
    }
  }

  lemma RowPathsOn(rows: seq<Change>, c: Change)
    ensures RowPaths(rows + [c]) == RowPaths(rows) + {c.path}
    ensures DistinctPaths(rows) && c.path !in RowPaths(rows) ==> DistinctPaths(rows + [c])
  {
    var all := rows + [c];
    assert forall d :: d in all <==> d in rows || d == c;
    forall i | 0 <= i < |rows| ensures rows[i].path in RowPaths(rows) {
    }
  }

  lemma {:induction false} GoneRowsCover(s: Scope, current: seq<Entry>, previous: seq<Entry>)
    requires UniquePaths(previous)
    ensures DistinctPaths(GoneRows(s, current, previous))
    ensures RowPaths(GoneRows(s, current, previous)) == Paths(previous) - Paths(current)
  {
    if previous != [] {
      var front, last := previous[..|previous| - 1], previous[|previous| - 1];
      assert previous == front + [last];
      PathsOn(front, last);
      GoneRowsCover(s, current, front);
      GoneRowsOn(s, current, previous, GoneRows(s, current, front), Paths(front));
    }
  }

  lemma GoneRowsOn(s: Scope, current: seq<Entry>, previous: seq<Entry>, rows: seq<Change>, paths: set<string>)
    requires previous != [] && rows == GoneRows(s, current, previous[..|previous| - 1])
    requires previous[|previous| - 1].path !in paths && Paths(previous) == paths + {previous[|previous| - 1].path}
    requires DistinctPaths(rows) && RowPaths(rows) == paths - Paths(current)
    ensures DistinctPaths(GoneRows(s, current, previous))
    ensures RowPaths(GoneRows(s, current, previous)) == Paths(previous) - Paths(current)
  {
    var last := previous[|previous| - 1];
    FindsPath(current, last.path);
    if Find(current, last.path).None? {
      RowPathsOn(rows, Change(last.path, Difference(s, Some(last), None)));
    }
  }

  lemma FindsPath(entries: seq<Entry>, path: string)
    ensures path in Paths(entries) <==> Find(entries, path).Some?
  {
  }

  lemma {:induction false} GonePrefix(s: Scope, current: seq<Entry>, previous: seq<Entry>, i: nat)
    requires i <= |previous|
    ensures GoneRows(s, current, previous[..i]) <= GoneRows(s, current, previous)
    decreases |previous|
  {
    if i < |previous| {
      GonePrefix(s, current, previous[..|previous| - 1], i);
      assert previous[..|previous| - 1][..i] == previous[..i];
    } else {
      assert previous[..i] == previous;
    }
  }

  lemma {:induction false} DistinctCount(rows: seq<Change>)
    requires DistinctPaths(rows)
    ensures |RowPaths(rows)| == |rows|
  {
    if rows != [] {
      var front, last := rows[..|rows| - 1], rows[|rows| - 1];
      DistinctCount(front);
      assert rows == front + [last];
      assert RowPaths(rows) == RowPaths(front) + {last.path};
      assert last.path !in RowPaths(front);
    }
  }

  lemma PathsOfRows(s: Scope, current: seq<Entry>, previous: seq<Entry>)
    ensures RowPaths(CurrentRows(s, current, previous)) == Paths(current)
  {
    var first := CurrentRows(s, current, previous);
    forall p ensures p in RowPaths(first) <==> p in Paths(current) {
      if p in RowPaths(first) {
        var i :| 0 <= i < |first| && first[i].path == p;
        assert current[i] in current;
      }
      if p in Paths(current) {
        var i :| 0 <= i < |current| && current[i].path == p;
        assert first[i] in first;
      }
    }
  }

  lemma DistinctJoin(a: seq<Change>, b: seq<Change>)
    requires DistinctPaths(a) && DistinctPaths(b) && RowPaths(a) !! RowPaths(b)
    ensures DistinctPaths(a + b) && RowPaths(a + b) == RowPaths(a) + RowPaths(b)
  {
    var rows := a + b;
    forall i, j | 0 <= i < j < |rows| ensures rows[i].path != rows[j].path {
      if i < |a| <= j {
        assert rows[i] in a && rows[j] in b;
        assert rows[i].path in RowPaths(a) && rows[j].path in RowPaths(b);
      }
    }
  }

  /** One row for every path of either inventory, and no path twice. */
  lemma RowsCoverBothInventories(s: Scope, current: seq<Entry>, previous: seq<Entry>)
    requires UniquePaths(current) && UniquePaths(previous)
    ensures var rows := CurrentRows(s, current, previous) + GoneRows(s, current, previous);
            && DistinctPaths(rows)
            && |rows| == |Paths(current) + Paths(previous)|
  {
    var first, second := CurrentRows(s, current, previous), GoneRows(s, current, previous);
    PathsOfRows(s, current, previous);
    GoneRowsCover(s, current, previous);
    DistinctJoin(first, second);
    DistinctCount(first + second);
    assert Paths(current) + (Paths(previous) - Paths(current)) == Paths(current) + Paths(previous);
  }

  /** Every entry that is there now has a row, compared with the earlier entry at its path. */
  lemma CurrentIsCompared(s: Scope, current: seq<Entry>, previous: seq<Entry>, i: nat, before: Option<Entry>)
    requires i < |current| && UniquePaths(previous)
    requires match before
             case None => forall x :: x in previous ==> x.path != current[i].path
             case Some(x) => x in previous && x.path == current[i].path
    ensures CurrentRows(s, current, previous)[i] == Change(current[i].path, Difference(s, before, Some(current[i])))
  {
    if before.Some? {
      var found := Find(previous, current[i].path);
      var j :| 0 <= j < |previous| && previous[j] == before.value;
      var k :| 0 <= k < |previous| && previous[k] == found.value;
      assert j == k;
    }
  }

  /** Every entry that is gone has a row, compared with nothing, and no other entry has one. */
  lemma {:induction false} GoneIsCompared(s: Scope, current: seq<Entry>, previous: seq<Entry>, row: Change)
    ensures row in GoneRows(s, current, previous) <==>
            exists e :: e in previous && (forall x :: x in current ==> x.path != e.path)
                        && row == Change(e.path, Difference(s, Some(e), None))
    decreases |previous|
  {
    if previous != [] {
      var front, last := previous[..|previous| - 1], previous[|previous| - 1];
      GoneIsCompared(s, current, front, row);
      assert previous == front + [last];
    }
  }

  /** What is kept differs, or has no difference. */
  lemma {:induction false} KeptStaysDistinct(rows: seq<Change>)
    requires DistinctPaths(rows)
    ensures DistinctPaths(Kept(rows)) && forall c :: c in Kept(rows) <==> c in rows && (c.delta.None? || c.delta.value != 0)
  {
    if rows != [] {
      var front, last := rows[..|rows| - 1], rows[|rows| - 1];
      KeptStaysDistinct(front);
      assert rows == front + [last];
      forall i | 0 <= i < |Kept(front)| ensures Kept(front)[i].path != last.path {
        assert Kept(front)[i] in front;
      }
    }
  }

  datatype Report = Report(comparable: nat, unknown: nat, omitted: int, changes: seq<Change>)

  /** buildInventoryReport's growth part: two passes through observe. */
  class Comparison {
    const scope: Scope
    const table: Table
    var comparable: nat
    var unknown: nat
    var changed: nat
    ghost var rows: seq<Change>

    ghost predicate Valid()
      reads this, table, table.rows
    {
      && table.Valid()
      && comparable == Known(rows)
      && comparable + unknown == |rows|
      && changed == |Kept(rows)|
      && table.Contents() == RetainAll(Kept(rows))
    }

    constructor (scope: Scope)
      ensures Valid() && rows == [] && this.scope == scope && fresh(table) && fresh(table.rows)
    {
      this.scope := scope;
      table := new Table();
      comparable, unknown, changed := 0, 0, 0;
      rows := [];
    }

    method Observe(path: string, before: Option<Entry>, after: Option<Entry>)
      requires Valid()
      requires DistinctPaths(rows + [Change(path, Difference(scope, before, after))])
      modifies this, table, table.rows
      ensures Valid() && table.rows == old(table.rows)
      ensures rows == old(rows) + [Change(path, Difference(scope, before, after))]
    {
      var row := Change(path, Difference(scope, before, after));
      ghost var grown := rows + [row];
      assert grown[..|grown| - 1] == rows;
      assert DistinctPaths(rows);
      KeptStaysDistinct(rows);
      RetainAllSorted(Kept(rows));
      rows := grown;
      if row.delta.None? {
        unknown := unknown + 1;
      } else {
        comparable := comparable + 1;
        if row.delta.value == 0 {
          return;
        }
      }
      changed := changed + 1;
      ghost var kept := Kept(grown);
      assert kept[..|kept| - 1] == Kept(grown[..|grown| - 1]);
      table.Retain(row);
    }

    method ObserveCurrent(current: seq<Entry>, previous: seq<Entry>)
      requires Valid() && rows == [] && UniquePaths(current)
      modifies this, table, table.rows
      ensures Valid() && table.rows == old(table.rows)
      ensures rows == CurrentRows(scope, current, previous)
    {
      ghost var first := CurrentRows(scope, current, previous);
      for i := 0 to |current|
        invariant Valid() && table.rows == old(table.rows)
        invariant rows == first[..i]
      {
        assert first[..i] + [first[i]] == first[..i + 1];
        Observe(current[i].path, Find(previous, current[i].path), Some(current[i]));
      }
      assert first[..|current|] == first;
    }

    method ObserveGone(current: seq<Entry>, previous: seq<Entry>)
      requires Valid() && DistinctPaths(rows + GoneRows(scope, current, previous))
      modifies this, table, table.rows
      ensures Valid() && table.rows == old(table.rows)
      ensures rows == old(rows) + GoneRows(scope, current, previous)
    {
      ghost var first := rows;
      assert previous[..0] == [] && first + [] == first;
      for i := 0 to |previous|
        invariant Valid() && table.rows == old(table.rows)
        invariant rows == first + GoneRows(scope, current, previous[..i])
      {
        GoneNext(scope, current, previous, i, first);
        var entry := previous[i];
        if Find(current, entry.path).None? {
          Observe(entry.path, Some(entry), None);
        }
      }
      assert previous[..|previous|] == previous;
    }
  }

  /** One more entry of the previous inventory: one row more if it is gone, and no path twice. */
  lemma GoneNext(s: Scope, current: seq<Entry>, previous: seq<Entry>, i: nat, first: seq<Change>)
    requires i < |previous| && DistinctPaths(first + GoneRows(s, current, previous))
    ensures var rows := first + GoneRows(s, current, previous[..i]);
            var next := first + GoneRows(s, current, previous[..i + 1]);
            if Find(current, previous[i].path).Some? then next == rows
            else next == rows + [Change(previous[i].path, Difference(s, Some(previous[i]), None))] && DistinctPaths(next)
  {
    assert previous[..i + 1][..i] == previous[..i];
    GonePrefix(s, current, previous, i + 1);
    PrefixIsDistinct(first + GoneRows(s, current, previous[..i + 1]), first + GoneRows(s, current, previous));
  }

  lemma PrefixIsDistinct(a: seq<Change>, b: seq<Change>)
    requires a <= b && DistinctPaths(b)
    ensures DistinctPaths(a)
  {
    assert forall i :: 0 <= i < |a| ==> a[i] == b[i];
  }

  lemma RetainAllSorted(changes: seq<Change>)
    requires DistinctPaths(changes)
    ensures Sorted(RetainAll(changes)) && |RetainAll(changes)| <= LIMIT
  {
    InsertAllSorts(changes);
    RetainAllIsPrefix(changes);
  }

  method BuildGrowth(scope: Scope, current: seq<Entry>, previous: seq<Entry>) returns (report: Report)
    requires UniquePaths(current) && UniquePaths(previous)
    ensures var rows := CurrentRows(scope, current, previous) + GoneRows(scope, current, previous);
            && report.comparable == Known(rows)
            && report.comparable + report.unknown == |Paths(current) + Paths(previous)|
            && report.changes == RetainAll(Kept(rows))
            && report.omitted + |report.changes| == |Kept(rows)|
  {
    RowsCoverBothInventories(scope, current, previous);
    var growth := new Comparison(scope);
    growth.ObserveCurrent(current, previous);
    growth.ObserveGone(current, previous);
    report := Report(growth.comparable, growth.unknown, growth.changed - growth.table.len, growth.table.rows[..growth.table.len]);
  }
}

// The bounded list of largest changes between two inventories
// (internal/cli/inventory_report.go).
module Growth {
  import opened Wrappers
  import opened Paths

  const MAX_INT64: int := 0x7FFF_FFFF_FFFF_FFFF

  type Size = x: int | 0 <= x <= MAX_INT64

  /** The difference of two sizes: never the one int64 whose negation overflows. */
  type Delta = x: int | -MAX_INT64 <= x <= MAX_INT64

  const LIMIT: nat := 64

  // ---------------------------------------------------------------- order

  datatype Change = Change(path: string, delta: Option<Delta>)

  /** growthMagnitude. */
  function Magnitude(c: Change): Size {
    match c.delta
    case None => 0
    case Some(d) => if d < 0 then -d else d
  }

  /** Larger magnitudes first, then by path. */
  predicate Precedes(a: Change, b: Change) {
    Magnitude(b) < Magnitude(a) || (Magnitude(a) == Magnitude(b) && Before(a.path, b.path))
  }

  /** The change that is larger either way comes first; equal ones go by path, and an unknown one counts as none. */
  lemma PrecedesExactlyWhen(a: Change, b: Change)
    ensures var d := if a.delta.Some? then a.delta.value else 0;
            var e := if b.delta.Some? then b.delta.value else 0;
            Precedes(a, b) <==> -d < e < d || d < e < -d || ((d == e || d == -e) && Before(a.path, b.path))
  {
  }

  lemma PrecedesIsTransitive(a: Change, b: Change, c: Change)
    requires Precedes(a, b) && Precedes(b, c)
    ensures Precedes(a, c)
  {
    if Before(a.path, b.path) && Before(b.path, c.path) {
      BeforeIsTransitive(a.path, b.path, c.path);
    }
  }

  lemma PrecedesIsTotal(a: Change, b: Change)
    ensures a.path == b.path || Precedes(a, b) || Precedes(b, a)
    ensures !(Precedes(a, b) && Precedes(b, a))
  {
    BeforeIsTotal(a.path, b.path);
  }

  ghost predicate Sorted(s: seq<Change>) {
    forall i, j :: 0 <= i < j < |s| ==> Precedes(s[i], s[j])
  }

  ghost predicate DistinctPaths(s: seq<Change>) {
    forall i, j :: 0 <= i < j < |s| ==> s[i].path != s[j].path
  }

  // ---------------------------------------------------------------- insertion

  function Insert(s: seq<Change>, c: Change): seq<Change> {
    if s == [] then [c]
    else if Precedes(c, s[0]) then [c] + s
    else [s[0]] + Insert(s[1..], c)
  }

  function Take(s: seq<Change>, k: nat): seq<Change> {
    if |s| <= k then s else s[..k]
  }

  /** What one call of retainGrowth does to the list. */
  function Retained(s: seq<Change>, c: Change): seq<Change> { Take(Insert(s, c), LIMIT) }

  function RetainAll(changes: seq<Change>): seq<Change> {
    if changes == [] then [] else Retained(RetainAll(changes[..|changes| - 1]), changes[|changes| - 1])
  }

  lemma {:induction false} InsertAt(s: seq<Change>, c: Change, at: nat)
    requires at <= |s|
    requires forall i :: 0 <= i < at ==> !Precedes(c, s[i])
    requires at < |s| ==> Precedes(c, s[at])
    ensures Insert(s, c) == s[..at] + [c] + s[at..]
  {
    if at > 0 {
      assert forall i :: 0 <= i < at - 1 ==> s[1..][i] == s[i + 1];
      InsertAt(s[1..], c, at - 1);
      assert s == [s[0]] + s[1..];
    }
  }

  lemma SortedPrepends(a: Change, s: seq<Change>)
    requires Sorted(s) && forall x :: x in s ==> Precedes(a, x)
    ensures Sorted([a] + s)
  {
  }

  lemma {:induction false} InsertHolds(s: seq<Change>, c: Change)
    ensures multiset(Insert(s, c)) == multiset(s) + multiset{c}
    ensures forall x :: x in Insert(s, c) <==> x == c || x in s
  {
    if s != [] && !Precedes(c, s[0]) {
      InsertHolds(s[1..], c);
      assert s == [s[0]] + s[1..];
    }
  }

  lemma {:induction false} InsertKeepsSorted(s: seq<Change>, c: Change)
    requires Sorted(s) && forall x :: x in s ==> x.path != c.path
    ensures Sorted(Insert(s, c))
  {
    if s == [] {
    } else if Precedes(c, s[0]) {
      forall x | x in s ensures Precedes(c, x) {
        if x != s[0] {
          PrecedesIsTransitive(c, s[0], x);
        }
      }
      SortedPrepends(c, s);
    } else {
      InsertKeepsSorted(s[1..], c);
      InsertHolds(s[1..], c);
      PrecedesIsTotal(s[0], c);
      SortedPrepends(s[0], Insert(s[1..], c));
    }
  }

  /** Whatever fell off the end of the list can never matter again. */
  lemma {:induction false} TakeInsertTake(s: seq<Change>, c: Change, k: nat)
    ensures Take(Insert(Take(s, k), c), k) == Take(Insert(s, c), k)
  {
    if |s| > k > 0 {
      assert Take(s, k)[1..] == Take(s[1..], k - 1);
      if !Precedes(c, s[0]) {
        TakeInsertTake(s[1..], c, k - 1);
        TakePrepends(s[0], Insert(s[1..], c), k);
        TakePrepends(s[0], Insert(Take(s[1..], k - 1), c), k);
      } else {
        TakePrepends(c, s, k);
        TakePrepends(c, Take(s, k), k);
      }
    }
  }

  lemma TakePrepends(a: Change, s: seq<Change>, k: nat)
    requires k > 0
    ensures Take([a] + s, k) == [a] + Take(s, k - 1)
  {
  }

  /** The unbounded list, in arrival order of insertion. */
  function InsertAll(changes: seq<Change>): seq<Change> {
    if changes == [] then [] else Insert(InsertAll(changes[..|changes| - 1]), changes[|changes| - 1])
  }

  lemma {:induction false} InsertAllSorts(changes: seq<Change>)
    requires DistinctPaths(changes)
    ensures Sorted(InsertAll(changes)) && multiset(InsertAll(changes)) == multiset(changes)
  {
    if changes != [] {
      var front, last := changes[..|changes| - 1], changes[|changes| - 1];
      InsertAllSorts(front);
      assert changes == front + [last];
      var sorted := InsertAll(front);
      forall x | x in sorted ensures x.path != last.path {
        assert x in multiset(front);
      }
      InsertKeepsSorted(sorted, last);
      InsertHolds(sorted, last);
    }
  }

  lemma {:induction false} RetainAllIsPrefix(changes: seq<Change>)
    ensures RetainAll(changes) == Take(InsertAll(changes), LIMIT)
  {
    if changes != [] {
      RetainAllIsPrefix(changes[..|changes| - 1]);
      TakeInsertTake(InsertAll(changes[..|changes| - 1]), changes[|changes| - 1], LIMIT);
    }
  }

  lemma FirstPrecedes(s: seq<Change>, x: Change)
    requires Sorted(s) && x in multiset(s)
    ensures x == s[0] || Precedes(s[0], x)
  {
    assert x in s;
  }

  lemma {:induction false} SortedIsUnique(s: seq<Change>, t: seq<Change>)
    requires Sorted(s) && Sorted(t) && multiset(s) == multiset(t)
    ensures s == t
  {
    assert |s| == |multiset(s)| == |t|;
    if s != [] {
      FirstPrecedes(s, t[0]);
      FirstPrecedes(t, s[0]);
      PrecedesIsTotal(s[0], t[0]);
      HeadAndTail(s);
      HeadAndTail(t);
      SortedIsUnique(s[1..], t[1..]);
    }
  }

  lemma HeadAndTail(s: seq<Change>)
    requires s != []
    ensures s == [s[0]] + s[1..] && multiset(s[1..]) == multiset(s) - multiset{s[0]}
  {
    assert s == [s[0]] + s[1..];
  }

  /** Bounded streaming selection: the list is the first 64 of any sorting of all changes. */
  lemma RetainsTheLargest(changes: seq<Change>, all: seq<Change>)
    requires DistinctPaths(changes)
    requires Sorted(all) && multiset(all) == multiset(changes)
    ensures RetainAll(changes) == all[..if |all| < 64 then |all| else 64]
  {
    RetainAllIsPrefix(changes);
    InsertAllSorts(changes);
    SortedIsUnique(InsertAll(changes), all);
  }

  /** Arrival order does not matter. */
  lemma ArrivalOrderIsIrrelevant(a: seq<Change>, b: seq<Change>)
    requires DistinctPaths(a) && DistinctPaths(b) && multiset(a) == multiset(b)
    ensures RetainAll(a) == RetainAll(b)
  {
    InsertAllSorts(b);
    RetainsTheLargest(a, InsertAll(b));
    RetainsTheLargest(b, InsertAll(b));
  }

  // ---------------------------------------------------------------- the table

  class Table {
    var rows: array<Change>
    var len: nat

    ghost predicate Valid()
      reads this
    {
      len <= LIMIT && rows.Length == LIMIT
    }

    ghost function Contents(): seq<Change>
      reads this, rows
      requires Valid()
    {
      rows[..len]
    }

    constructor ()
      ensures Valid() && fresh(rows) && Contents() == []
    {
      rows := new Change[LIMIT](_ => Change("", None));
      len := 0;
    }

    /** sort.Search over the rows: the first one the change precedes. */
    method Search(change: Change) returns (at: nat)
      requires Valid() && Sorted(Contents())
      ensures at <= len
      ensures forall i :: 0 <= i < at ==> !Precedes(change, rows[i])
      ensures forall i :: at <= i < len ==> Precedes(change, rows[i])
    {
      var lo, hi := 0, len;
      while lo < hi
        invariant lo <= hi <= len
        invariant forall i :: 0 <= i < lo ==> !Precedes(change, rows[i])
        invariant forall i :: hi <= i < len ==> Precedes(change, rows[i])
      {
        var mid := (lo + hi) / 2;
        if Precedes(change, rows[mid]) {
          forall i | mid <= i < len ensures Precedes(change, rows[i]) {
            assert Contents()[mid] == rows[mid] && Contents()[i] == rows[i];
            if mid < i {
              PrecedesIsTransitive(change, rows[mid], rows[i]);
            }
          }
          hi := mid;
        } else {
          forall i | 0 <= i <= mid ensures !Precedes(change, rows[i]) {
            assert Contents()[mid] == rows[mid] && Contents()[i] == rows[i];
            if i < mid && Precedes(change, rows[i]) {
              PrecedesIsTransitive(change, rows[i], rows[mid]);
            }
          }
          lo := mid + 1;
        }
      }
      at := lo;
    }

    /** retainGrowth: shift the tail one place, in place, and drop what does not fit. */
    method Retain(change: Change)
      requires Valid() && Sorted(Contents())
      modifies this, rows
      ensures Valid() && rows == old(rows)
      ensures Contents() == Retained(old(Contents()), change)
    {
      var at := Search(change);
      InsertAt(Contents(), change, at);
      ghost var before := Contents();
      if at >= LIMIT {
        return;
      }
      if len < LIMIT {
        len := len + 1;
      }
      Shift(at);
      rows[at] := change;
      ShiftedRows(before, change, at, Contents());
    }

    /** copy of the tail, one place further. */
    method Shift(at: nat)
      requires Valid() && at < len
      modifies rows
      ensures forall i :: 0 <= i < rows.Length ==> rows[i] == old(rows[if at < i < len then i - 1 else i])
    {
      forall i | at < i < len {
        rows[i] := rows[i - 1];
      }
    }
  }

  lemma ShiftedRows(before: seq<Change>, change: Change, at: nat, after: seq<Change>)
    requires at <= |before| <= LIMIT && at < |after| == if |before| < LIMIT then |before| + 1 else LIMIT
    requires after[at] == change
    requires forall i :: 0 <= i < at ==> after[i] == before[i]
    requires forall i :: at < i < |after| ==> after[i] == before[i - 1]
    ensures after == Take(before[..at] + [change] + before[at..], LIMIT)
  {
  }
}

// The bounded report of one scratch directory run (internal/cli/scratch.go).
module ScratchReports {

  datatype Status = Kept | Skipped | Deferred | Failed | Archived | Deleted | WouldArchive | WouldDelete

  datatype Item = Item(name: string, status: Status, size: nat)

  /** An entry that may be removed. Its item is listed at an index, or not listed. */
  datatype Candidate = Candidate(listed: bool, index: nat, item: Item, regenerable: bool)

  // ---------------------------------------------------------------- counting

  ghost function Count(st: Status, items: seq<Item>): nat {
    if items == [] then 0 else (if items[0].status == st then 1 else 0) + Count(st, items[1..])
  }

  ghost function Bytes(st: Status, items: seq<Item>): nat {
    if items == [] then 0 else (if items[0].status == st then items[0].size else 0) + Bytes(st, items[1..])
  }

  lemma {:induction false} CountAppends(st: Status, a: seq<Item>, b: seq<Item>)
    ensures Count(st, a + b) == Count(st, a) + Count(st, b)
    ensures Bytes(st, a + b) == Bytes(st, a) + Bytes(st, b)
  {
    if a == [] {
      assert a + b == b;
    } else {
      assert (a + b)[1..] == a[1..] + b;
      CountAppends(st, a[1..], b);
    }
  }

  function One(b: bool): nat {
    if b then 1 else 0
  }

  function SizeIf(b: bool, n: nat): nat {
    if b then n else 0
  }

  lemma CountLast(st: Status, a: seq<Item>, x: Item)
    ensures Count(st, a + [x]) == Count(st, a) + One(x.status == st)
    ensures Bytes(st, a + [x]) == Bytes(st, a) + SizeIf(x.status == st, x.size)
  {
    CountAppends(st, a, [x]);
    assert [x][1..] == [];
  }

  lemma CountUpdate(st: Status, a: seq<Item>, i: nat, x: Item)
    requires i < |a|
    ensures Count(st, a[i := x]) + One(a[i].status == st) == Count(st, a) + One(x.status == st)
    ensures Bytes(st, a[i := x]) + SizeIf(a[i].status == st, a[i].size) == Bytes(st, a) + SizeIf(x.status == st, x.size)
  {
    var (before, after) := (a[..i], a[i + 1..]);
    assert a == before + [a[i]] + after && a[i := x] == before + [x] + after;
    CountAppends(st, before + [a[i]], after);
    CountAppends(st, before + [x], after);
    CountLast(st, before, a[i]);
    CountLast(st, before, x);
  }

  /** Every item has exactly one of the eight statuses. */
  lemma {:induction false} EightStatuses(items: seq<Item>)
    ensures Count(Kept, items) + Count(Skipped, items) + Count(Deferred, items) + Count(Failed, items)
          + Count(Archived, items) + Count(Deleted, items) + Count(WouldArchive, items) + Count(WouldDelete, items) == |items|
  {
    if items != [] {
      EightStatuses(items[1..]);
    }
  }

  // ---------------------------------------------------------------- the report

  /** The items of the candidates that are listed, or of those that are not. */
  ghost function ItemsOf(cs: seq<Candidate>, listed: bool): seq<Item> {
    if cs == [] then []
    else ItemsOf(cs[..|cs| - 1], listed) + if cs[|cs| - 1].listed == listed then [cs[|cs| - 1].item] else []
  }

  /** A listed candidate's item is at its index, which no other candidate shares. */
  ghost predicate Linked(items: seq<Item>, cs: seq<Candidate>) {
    && (forall i :: 0 <= i < |cs| && cs[i].listed ==> cs[i].index < |items| && items[cs[i].index] == cs[i].item)
    && forall i, j :: 0 <= i < j < |cs| && cs[i].listed && cs[j].listed ==> cs[i].index != cs[j].index
  }

  class Report {
    const listedMax: nat
    var items: seq<Item>
    var unlisted: nat
    var unlistedBy: map<Status, nat>
    var unlistedBytes: map<Status, nat>
    ghost var hidden: seq<Item>
    var archived: nat
    var deleted: nat
    var wouldArchive: nat
    var wouldDelete: nat
    var kept: nat
    var skipped: nat
    var deferred: nat
    var failed: nat
    var freed: nat
    var wouldFree: nat

    /** The maps count the items that were left out. */
    ghost predicate Valid()
      reads this
    {
      && unlisted == |hidden| && |items| <= listedMax
      && forall st :: By(st) == Count(st, hidden) && SizeBy(st) == Bytes(st, hidden)
    }

    function By(st: Status): nat
      reads `unlistedBy
    {
      if st in unlistedBy then unlistedBy[st] else 0
    }

    function SizeBy(st: Status): nat
      reads `unlistedBytes
    {
      if st in unlistedBytes then unlistedBytes[st] else 0
    }

    constructor (listedMax: nat)
      ensures Valid() && this.listedMax == listedMax && items == [] && hidden == []
    {
      this.listedMax := listedMax;
      items, unlisted, unlistedBy, unlistedBytes, hidden := [], 0, map[], map[], [];
      archived, deleted, wouldArchive, wouldDelete, kept, skipped, deferred, failed, freed, wouldFree := 0, 0, 0, 0, 0, 0, 0, 0, 0, 0;
    }

    /** list. */
    method List(item: Item)
      requires Valid()
      modifies this
      ensures Valid()
      ensures (items, hidden) == (old(items) + [item], old(hidden)) || (items, hidden) == (old(items), old(hidden) + [item])
    {
      var listed, index := Slot(item);
      if !listed {
        Unlist(item);
      }
    }

    /** slot. */
    method Slot(item: Item) returns (listed: bool, index: nat)
      requires Valid()
      modifies `items
      ensures Valid() && listed == (|old(items)| < listedMax) && index == |old(items)|
      ensures items == if listed then old(items) + [item] else old(items)
    {
      listed, index := |items| < listedMax, |items|;
      if listed {
        items := items + [item];
      }
    }

    /** unlisted. */
    method Unlist(item: Item)
      requires Valid()
      modifies `unlisted, `unlistedBy, `unlistedBytes, `hidden
      ensures Valid() && hidden == old(hidden) + [item]
    {
      CountsLast(hidden, item);
      unlistedBy := unlistedBy[item.status := By(item.status) + 1];
      unlistedBytes := unlistedBytes[item.status := SizeBy(item.status) + item.size];
      unlisted := unlisted + 1;
      hidden := hidden + [item];
    }

    /** set: a candidate's outcome, on its listed item when it has one. */
    method Set(cs: seq<Candidate>, i: nat, status: Status) returns (ds: seq<Candidate>)
      requires Valid() && i < |cs| && Linked(items, cs)
      modifies `items
      ensures Valid() && Linked(items, ds)
      ensures ds == cs[i := cs[i].(item := cs[i].item.(status := status))]
      ensures items == if cs[i].listed then old(items)[cs[i].index := cs[i].item.(status := status)] else old(items)
    {
      ds := cs[i := cs[i].(item := cs[i].item.(status := status))];
      if cs[i].listed {
        items := items[cs[i].index := items[cs[i].index].(status := status)];
      }
    }

    /** settle: the unlisted candidates are counted once, and then the report is. */
    method Settle(cs: seq<Candidate>)
      requires Valid()
      modifies this
      ensures Valid() && items == old(items) && hidden == old(hidden) + ItemsOf(cs, false)
      ensures Counted()
    {
      assert hidden + ItemsOf(cs[..0], false) == hidden;
      for i := 0 to |cs|
        invariant Valid() && items == old(items) && hidden == old(hidden) + ItemsOf(cs[..i], false)
      {
        assert cs[..i + 1][..i] == cs[..i];
        if !cs[i].listed {
          Unlist(cs[i].item);
        }
      }
      assert cs[..|cs|] == cs;
      Recount();
    }

    ghost function Shown(): Totals
      reads this
    {
      Totals(archived, deleted, wouldArchive, wouldDelete, kept, skipped, deferred, failed, freed, wouldFree)
    }

    /** The counters count everything that is listed or hidden. */
    ghost predicate Counted()
      reads this
    {
      Shown() == Tally(hidden + items)
    }

    /** count. */
    method Recount()
      requires Valid()
      modifies `archived, `deleted, `wouldArchive, `wouldDelete, `kept, `skipped, `deferred, `failed, `freed, `wouldFree
      ensures Valid() && Counted()
    {
      CountUnlisted();
      assert hidden + items[..0] == hidden;
      for i := 0 to |items|
        invariant Shown() == Tally(hidden + items[..i])
      {
        assert hidden + items[..i + 1] == hidden + items[..i] + [items[i]];
        Add(items[i], hidden + items[..i]);
      }
      assert items[..|items|] == items;
    }

    /** The items that were left out. */
    method CountUnlisted()
      requires Valid()
      modifies `archived, `deleted, `wouldArchive, `wouldDelete, `kept, `skipped, `deferred, `failed, `freed, `wouldFree
      ensures Shown() == Tally(hidden)
    {
      ghost var tally := Unlisted();
      CountDone();
      CountKept();
    }

    method CountDone()
      modifies `archived, `deleted, `wouldArchive, `wouldDelete, `freed, `wouldFree
      ensures archived == By(Archived) && deleted == By(Deleted)
      ensures wouldArchive == By(WouldArchive) && wouldDelete == By(WouldDelete)
      ensures freed == SizeBy(Archived) + SizeBy(Deleted) && wouldFree == SizeBy(WouldArchive) + SizeBy(WouldDelete)
    {
      archived, deleted, wouldArchive, wouldDelete := By(Archived), By(Deleted), By(WouldArchive), By(WouldDelete);
      freed := SizeBy(Archived) + SizeBy(Deleted);
      wouldFree := SizeBy(WouldArchive) + SizeBy(WouldDelete);
    }

    method CountKept()
      modifies `kept, `skipped, `deferred, `failed
      ensures kept == By(Kept) && skipped == By(Skipped) && deferred == By(Deferred) && failed == By(Failed)
    {
      kept, skipped, deferred, failed := By(Kept), By(Skipped), By(Deferred), By(Failed);
    }

    ghost function Unlisted(): (t: Totals)
      requires Valid()
      reads this
      ensures t == Tally(hidden)
    {
      Totals(By(Archived), By(Deleted), By(WouldArchive), By(WouldDelete), By(Kept), By(Skipped), By(Deferred), By(Failed),
             SizeBy(Archived) + SizeBy(Deleted), SizeBy(WouldArchive) + SizeBy(WouldDelete))
    }

    /** One listed item. */
    method Add(item: Item, ghost some: seq<Item>)
      requires Shown() == Tally(some)
      modifies `archived, `deleted, `wouldArchive, `wouldDelete, `kept, `skipped, `deferred, `failed, `freed, `wouldFree
      ensures Shown() == Tally(some + [item])
    {
      TallyLast(some, item);
      Bump(item);
    }

    method Bump(item: Item)
      modifies `archived, `deleted, `wouldArchive, `wouldDelete, `kept, `skipped, `deferred, `failed, `freed, `wouldFree
      ensures Shown() == Bumped(old(Shown()), item)
    {
      match item.status
      case Archived =>
        archived := archived + 1;
        freed := freed + item.size;
      case Deleted =>
        deleted := deleted + 1;
        freed := freed + item.size;
      case WouldArchive =>
        wouldArchive := wouldArchive + 1;
        wouldFree := wouldFree + item.size;
      case WouldDelete =>
        wouldDelete := wouldDelete + 1;
        wouldFree := wouldFree + item.size;
      case Kept => kept := kept + 1;
      case Skipped => skipped := skipped + 1;
      case Deferred => deferred := deferred + 1;
      case Failed => failed := failed + 1;
    }
  }

  datatype Totals = Totals(archived: nat, deleted: nat, wouldArchive: nat, wouldDelete: nat, kept: nat, skipped: nat,
                           deferred: nat, failed: nat, freed: nat, wouldFree: nat)

  /** The counters of an unbounded listing. */
  ghost function Tally(items: seq<Item>): Totals {
    Totals(Count(Archived, items), Count(Deleted, items), Count(WouldArchive, items), Count(WouldDelete, items),
           Count(Kept, items), Count(Skipped, items), Count(Deferred, items), Count(Failed, items),
           Bytes(Archived, items) + Bytes(Deleted, items), Bytes(WouldArchive, items) + Bytes(WouldDelete, items))
  }

  /** One item more. */
  function Bumped(t: Totals, item: Item): Totals {
    match item.status
    case Archived => t.(archived := t.archived + 1, freed := t.freed + item.size)
    case Deleted => t.(deleted := t.deleted + 1, freed := t.freed + item.size)
    case WouldArchive => t.(wouldArchive := t.wouldArchive + 1, wouldFree := t.wouldFree + item.size)
    case WouldDelete => t.(wouldDelete := t.wouldDelete + 1, wouldFree := t.wouldFree + item.size)
    case Kept => t.(kept := t.kept + 1)
    case Skipped => t.(skipped := t.skipped + 1)
    case Deferred => t.(deferred := t.deferred + 1)
    case Failed => t.(failed := t.failed + 1)
  }

  lemma TallyLast(some: seq<Item>, item: Item)
    ensures Tally(some + [item]) == Bumped(Tally(some), item)
  {
    CountsLast(some, item);
  }

  lemma CountsLast(a: seq<Item>, x: Item)
    ensures forall st :: Count(st, a + [x]) == Count(st, a) + One(x.status == st)
    ensures forall st :: Bytes(st, a + [x]) == Bytes(st, a) + SizeIf(x.status == st, x.size)
  {
    forall st ensures Count(st, a + [x]) == Count(st, a) + One(x.status == st)
                   && Bytes(st, a + [x]) == Bytes(st, a) + SizeIf(x.status == st, x.size) {
      CountLast(st, a, x);
    }
  }
}

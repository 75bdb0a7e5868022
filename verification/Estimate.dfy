// How many bytes deleting a selection would free (internal/action/estimate_linux.go).
module Estimate {
  import opened Wrappers
  import opened Paths

  const MAX_INT64: int := 0x7FFF_FFFF_FFFF_FFFF

  /** Device and inode. */
  datatype Key = Key(device: nat, inode: nat)

  datatype Inode = Inode(blocks: int, links: nat, directory: bool)

  type Disk = Key -> Inode

  /** A name on disk, and the names listed in it when its inode is a directory. */
  datatype Node = Node(key: Key, children: seq<Node>)

  // ---------------------------------------------------------------- what a forest holds

  ghost function Size(disk: Disk, n: Node): nat
    decreases n
  {
    1 + if disk(n.key).directory then SizeAll(disk, n.children) else 0
  }

  ghost function SizeAll(disk: Disk, ns: seq<Node>): nat
    decreases ns
  {
    if ns == [] then 0 else Size(disk, ns[0]) + SizeAll(disk, ns[1..])
  }

  /** How many names below a node lead to an inode. */
  ghost function Count(disk: Disk, n: Node, k: Key): nat
    decreases n
  {
    (if n.key == k then 1 else 0) + if disk(n.key).directory then CountAll(disk, n.children, k) else 0
  }

  ghost function CountAll(disk: Disk, ns: seq<Node>, k: Key): nat
    decreases ns
  {
    if ns == [] then 0 else Count(disk, ns[0], k) + CountAll(disk, ns[1..], k)
  }

  ghost function Keys(disk: Disk, n: Node): set<Key>
    decreases n
  {
    {n.key} + if disk(n.key).directory then KeysAll(disk, n.children) else {}
  }

  ghost function KeysAll(disk: Disk, ns: seq<Node>): set<Key>
    decreases ns
  {
    if ns == [] then {} else Keys(disk, ns[0]) + KeysAll(disk, ns[1..])
  }

  lemma {:induction false} KeysAreCounted(disk: Disk, ns: seq<Node>, k: Key)
    ensures k in KeysAll(disk, ns) <==> CountAll(disk, ns, k) > 0
    decreases ns
  {
    if ns != [] {
      KeysAreCounted(disk, ns[0].children, k);
      KeysAreCounted(disk, ns[1..], k);
    }
  }

  lemma {:induction false} AllAppends(disk: Disk, a: seq<Node>, n: Node)
    ensures SizeAll(disk, a + [n]) == SizeAll(disk, a) + Size(disk, n)
    ensures forall k :: CountAll(disk, a + [n], k) == CountAll(disk, a, k) + Count(disk, n, k)
  {
    if a == [] {
      assert a + [n] == [n] && [n][1..] == [];
    } else {
      assert (a + [n])[1..] == a[1..] + [n];
      AllAppends(disk, a[1..], n);
    }
  }

  lemma AllPops(disk: Disk, ns: seq<Node>)
    requires ns != []
    ensures SizeAll(disk, ns) == SizeAll(disk, ns[..|ns| - 1]) + Size(disk, ns[|ns| - 1])
    ensures forall k :: CountAll(disk, ns, k) == CountAll(disk, ns[..|ns| - 1], k) + Count(disk, ns[|ns| - 1], k)
  {
    var (front, last) := (ns[..|ns| - 1], ns[|ns| - 1]);
    assert front + [last] == ns;
    AllAppends(disk, front, last);
  }

  lemma {:induction false} AtLeastTheNames(disk: Disk, ns: seq<Node>)
    ensures |ns| <= SizeAll(disk, ns)
  {
    if ns != [] {
      AtLeastTheNames(disk, ns[1..]);
    }
  }

  // ---------------------------------------------------------------- what is freed

  ghost function Blocks(disk: Disk, ks: set<Key>): int {
    if ks == {} then 0
    else
      var k :| k in ks;
      disk(k).blocks + Blocks(disk, ks - {k})
  }

  /** The sum does not depend on the order in which a map is walked. */
  lemma {:induction false} BlocksOf(disk: Disk, ks: set<Key>, k: Key)
    requires k in ks
    ensures Blocks(disk, ks) == disk(k).blocks + Blocks(disk, ks - {k})
    decreases ks
  {
    var j :| j in ks && Blocks(disk, ks) == disk(j).blocks + Blocks(disk, ks - {j});
    if j != k {
      BlocksOf(disk, ks - {j}, k);
      BlocksOf(disk, ks - {k}, j);
      assert ks - {j} - {k} == ks - {k} - {j};
    }
  }

  ghost predicate NonNegative(disk: Disk, ks: set<Key>) {
    forall k :: k in ks ==> disk(k).blocks >= 0
  }

  lemma {:induction false} BlocksGrow(disk: Disk, some: set<Key>, all: set<Key>)
    requires some <= all && NonNegative(disk, all)
    ensures 0 <= Blocks(disk, some) <= Blocks(disk, all)
    decreases all
  {
    if all != {} {
      var k :| k in all;
      BlocksOf(disk, all, k);
      if k in some {
        BlocksOf(disk, some, k);
      }
      BlocksGrow(disk, some - {k}, all - {k});
      assert k !in some ==> some - {k} == some;
    }
  }

  /** Deleting names frees a directory always, and any other inode when all of its links are among them. */
  ghost predicate Freed(disk: Disk, forest: seq<Node>, k: Key) {
    disk(k).directory || disk(k).links <= CountAll(disk, forest, k)
  }

  ghost function FreedKeys(disk: Disk, forest: seq<Node>): set<Key> {
    set k | k in KeysAll(disk, forest) && Freed(disk, forest, k)
  }

  ghost function SharedKeys(disk: Disk, forest: seq<Node>): set<Key> {
    set k | k in KeysAll(disk, forest) && !Freed(disk, forest, k)
  }

  /** No counted block value is negative, and their bytes fit in an int64. */
  ghost predicate Fits(disk: Disk, freed: set<Key>) {
    NonNegative(disk, freed) && 512 * Blocks(disk, freed) <= MAX_INT64
  }

  datatype Result =
    | Reclaim(bytes: int, shared: nat, observed: nat)
    | BadLimit
    | Unreadable
    | TooMany
    | Overflow

  /** What the estimate is meant to be for a forest of selected names. */
  ghost function Estimated(disk: Disk, forest: seq<Node>, maxEntries: int): Result {
    if SizeAll(disk, forest) > maxEntries then TooMany
    else if !Fits(disk, FreedKeys(disk, forest)) then Overflow
    else Reclaim(512 * Blocks(disk, FreedKeys(disk, forest)), |SharedKeys(disk, forest)|, SizeAll(disk, forest))
  }

  /** The estimate of a forest, told by links: an inode is freed if it is a directory or as many names lead to it
      as it has links, and shared otherwise. */
  lemma EstimatedExactlyWhen(disk: Disk, forest: seq<Node>, maxEntries: int, freed: set<Key>, kept: set<Key>)
    requires forall k :: k in freed <==> CountAll(disk, forest, k) > 0 && (disk(k).directory || CountAll(disk, forest, k) >= disk(k).links)
    requires forall k :: k in kept <==> CountAll(disk, forest, k) > 0 && !disk(k).directory && CountAll(disk, forest, k) < disk(k).links
    ensures var fits := (forall k :: k in freed ==> disk(k).blocks >= 0) && 512 * Blocks(disk, freed) <= 0x7FFF_FFFF_FFFF_FFFF;
            Estimated(disk, forest, maxEntries)
            == if SizeAll(disk, forest) > maxEntries then TooMany
               else if !fits then Overflow
               else Reclaim(512 * Blocks(disk, freed), |kept|, SizeAll(disk, forest))
  {
    forall k ensures k in KeysAll(disk, forest) <==> CountAll(disk, forest, k) > 0 {
      KeysAreCounted(disk, forest, k);
    }
    assert freed == FreedKeys(disk, forest) && kept == SharedKeys(disk, forest);
  }

  /** A selected entry: the identity it was inventoried with, and what is at its path now. */
  datatype Entry = Entry(path: string, id: Key, directory: bool, found: Option<Node>)

  /** Lstat, the identity and kind check, and every name below being on the entry's device. */
  ghost predicate Readable(disk: Disk, e: Entry) {
    && e.found.Some?
    && e.found.value.key == e.id
    && disk(e.id).directory == e.directory
    && OneDevice(disk, e.found.value, e.id.device)
  }

  ghost predicate OneDevice(disk: Disk, n: Node, device: nat) {
    forall k :: Count(disk, n, k) > 0 ==> k.device == device
  }

  // ---------------------------------------------------------------- the walk

  datatype Use = Use(blocks: int, links: nat, seen: nat, directory: bool)

  /** The map agrees with the names met so far. */
  ghost predicate Counted(disk: Disk, seen: map<Key, Use>, names: multiset<Key>) {
    && (forall k :: k in seen <==> names[k] > 0)
    && (forall k :: k in seen ==>
          && seen[k].blocks == disk(k).blocks && seen[k].links == disk(k).links && seen[k].directory == disk(k).directory
          && (!seen[k].directory ==> seen[k].seen == names[k]))
  }

  lemma Added(disk: Disk, ks: set<Key>, k: Key)
    requires k !in ks
    ensures Blocks(disk, ks + {k}) == Blocks(disk, ks) + disk(k).blocks
  {
    BlocksOf(disk, ks + {k}, k);
    assert ks + {k} - {k} == ks;
  }

  lemma TooLarge(disk: Disk, some: set<Key>, all: set<Key>, k: Key)
    requires k in some && some <= all
    requires disk(k).blocks < 0 || 512 * Blocks(disk, some) > MAX_INT64
    ensures !Fits(disk, all)
  {
    if NonNegative(disk, all) {
      BlocksGrow(disk, some, all);
    }
  }

  class Walk {
    const disk: Disk
    const maxEntries: int
    var seen: map<Key, Use>
    var observed: nat
    ghost var names: multiset<Key>

    ghost predicate Valid()
      reads this
    {
      Counted(disk, seen, names)
    }

    constructor (disk: Disk, maxEntries: int)
      ensures Valid() && this.disk == disk && this.maxEntries == maxEntries && names == multiset{} && observed == 0
    {
      this.disk, this.maxEntries := disk, maxEntries;
      seen, observed, names := map[], 0, multiset{};
    }

    /** One name: count it, and remember its inode. */
    method Meet(k: Key)
      requires Valid()
      modifies this
      ensures Valid() && observed == old(observed) + 1
      ensures forall j :: names[j] == old(names)[j] + if j == k then 1 else 0
    {
      observed := observed + 1;
      names := names[k := names[k] + 1];
      var inode := disk(k);
      if k !in seen {
        seen := seen[k := Use(inode.blocks, inode.links, 0, inode.directory)];
      }
      if !inode.directory {
        seen := seen[k := seen[k].(seen := seen[k].seen + 1)];
      }
    }

    /** Children are listed one at a time, so a huge directory is noticed while it is being listed. */
    method Push(stack: seq<Node>, n: Node) returns (grown: seq<Node>, full: bool)
      ensures full ==> observed + SizeAll(disk, stack) + SizeAll(disk, n.children) > maxEntries
      // The stack never outgrows what may still be observed.
      ensures !full ==> grown == stack || |grown| + observed <= maxEntries
      ensures |grown| + observed <= (if |stack| + observed > maxEntries then |stack| + observed else maxEntries) + 1
      ensures !full ==> SizeAll(disk, grown) == SizeAll(disk, stack) + SizeAll(disk, n.children)
      ensures !full ==> forall k :: CountAll(disk, grown, k) == CountAll(disk, stack, k) + CountAll(disk, n.children, k)
    {
      grown, full := stack, false;
      var i := 0;
      while i < |n.children|
        invariant 0 <= i <= |n.children| && ((i == 0 && grown == stack) || |grown| + observed <= maxEntries)
        invariant SizeAll(disk, grown) == SizeAll(disk, stack) + SizeAll(disk, n.children[..i])
        invariant forall k :: CountAll(disk, grown, k) == CountAll(disk, stack, k) + CountAll(disk, n.children[..i], k)
      {
        AllAppends(disk, grown, n.children[i]);
        AllAppends(disk, n.children[..i], n.children[i]);
        assert n.children[..i + 1] == n.children[..i] + [n.children[i]];
        grown := grown + [n.children[i]];
        i := i + 1;
        if |grown| + observed > maxEntries {
          AtLeastTheNames(disk, grown);
          PartIsLess(disk, n.children, i);
          return grown, true;
        }
      }
      assert n.children[..i] == n.children;
    }

    /** The name on top of the stack, which its children replace. */
    method Next(stack: seq<Node>, device: nat) returns (rest: seq<Node>, failure: Option<Result>)
      requires Valid() && stack != []
      modifies this
      ensures Valid()
      ensures failure == None ==>
                && observed == old(observed) + 1 <= maxEntries
                && SizeAll(disk, rest) + 1 == SizeAll(disk, stack)
                && (forall k :: names[k] + CountAll(disk, rest, k) == old(names)[k] + CountAll(disk, stack, k))
                && (forall k: Key :: k.device != device ==> names[k] == old(names)[k])
      ensures failure != None ==>
                || (failure == Some(Unreadable) && exists k: Key :: k.device != device && CountAll(disk, stack, k) > 0)
                || (failure == Some(TooMany) && old(observed) + SizeAll(disk, stack) > maxEntries)
    {
      AllPops(disk, stack);
      var n := stack[|stack| - 1];
      rest := stack[..|stack| - 1];
      if n.key.device != device {
        assert Count(disk, n, n.key) > 0;
        return rest, Some(Unreadable);
      }
      Meet(n.key);
      if observed > maxEntries {
        return rest, Some(TooMany);
      }
      failure := None;
      if disk(n.key).directory {
        var full;
        rest, full := Push(rest, n);
        failure := if full then Some(TooMany) else None;
      }
    }

    /** Everything below one selection, with an explicit stack. */
    method Subtree(root: Node, device: nat) returns (failure: Option<Result>)
      requires Valid()
      modifies this
      ensures Valid()
      ensures failure == None ==>
                && OneDevice(disk, root, device)
                && observed == old(observed) + Size(disk, root) && (observed <= maxEntries)
                && forall k :: names[k] == old(names)[k] + Count(disk, root, k)
      ensures failure != None ==>
                || (failure == Some(Unreadable) && !OneDevice(disk, root, device))
                || (failure == Some(TooMany) && old(observed) + Size(disk, root) > maxEntries)
    {
      ghost var base, before := observed, names;
      var stack := [root];
      assert [root][1..] == [];
      failure := None;
      while stack != []
        invariant Valid()
        invariant observed + SizeAll(disk, stack) == base + Size(disk, root)
        invariant forall k :: names[k] + CountAll(disk, stack, k) == before[k] + Count(disk, root, k)
        invariant forall k: Key :: k.device != device ==> names[k] == before[k]
        invariant failure == None && (stack == [root] || observed <= maxEntries)
        decreases SizeAll(disk, stack)
      {
        ghost var top, met := stack, names;
        stack, failure := Next(stack, device);
        if failure.Some? {
          if failure == Some(Unreadable) {
            ghost var k: Key :| k.device != device && CountAll(disk, top, k) > 0;
            assert met[k] + CountAll(disk, top, k) == before[k] + Count(disk, root, k);
          }
          return;
        }
      }
    }

    /** The walk has met exactly the names the selections lead to. */
    ghost predicate Holds(entered: seq<Entry>)
      reads this
    {
      && Valid()
      && observed == SizeAll(disk, Roots(entered)) <= maxEntries
      && forall k :: names[k] == CountAll(disk, Roots(entered), k)
    }

    /** One selection: its identity and kind are checked, then everything below it is met. */
    method Enter(e: Entry, ghost entered: seq<Entry>) returns (failure: Option<Result>)
      requires Holds(entered)
      modifies this
      ensures failure == None ==> Holds(entered + [e]) && Readable(disk, e)
      ensures failure == None ==>
                && e.found.Some? && e.found.value.key == e.id && disk(e.id).directory == e.directory
                && forall k :: Count(disk, e.found.value, k) > 0 ==> k.device == e.id.device
      ensures failure != None ==>
                || (failure == Some(Unreadable) && !Readable(disk, e))
                || (failure == Some(TooMany) && SizeAll(disk, Roots(entered + [e])) > maxEntries)
    {
      if e.found.None? || e.found.value.key != e.id || disk(e.id).directory != e.directory {
        return Some(Unreadable);
      }
      RootsOf(disk, entered, e);
      failure := Subtree(e.found.value, e.id.device);
    }

    /** The inodes, in whatever order the map yields them. */
    method Sum(ghost freed: set<Key>, ghost sharedKeys: set<Key>) returns (r: Result)
      requires Valid() && freed <= seen.Keys && sharedKeys <= seen.Keys
      requires forall k :: k in seen ==> (k in sharedKeys <==> k !in freed)
      requires forall k :: k in seen ==> (k in sharedKeys <==> !seen[k].directory && seen[k].seen < seen[k].links)
      ensures r == if Fits(disk, freed) then Reclaim(512 * Blocks(disk, freed), |sharedKeys|, observed) else Overflow
    {
      ghost var f: set<Key>, s: set<Key> := {}, {};
      var bytes, shared, left := 0, 0, seen.Keys;
      while left != {}
        invariant left <= seen.Keys
        invariant forall k :: k in f <==> k in freed && k !in left
        invariant forall k :: k in s <==> k in sharedKeys && k !in left
        invariant NonNegative(disk, f)
        invariant bytes == 512 * Blocks(disk, f) && 0 <= bytes <= MAX_INT64
        invariant shared == |s|
        decreases left
      {
        var k :| k in left;
        var use := seen[k];
        left := left - {k};
        if !use.directory && use.seen < use.links {
          s := s + {k};
          shared := shared + 1;
        } else {
          Added(disk, f, k);
          f := f + {k};
          if use.blocks < 0 || use.blocks > (MAX_INT64 - bytes) / 512 {
            TooLarge(disk, f, freed, k);
            return Overflow;
          }
          bytes := bytes + use.blocks * 512;
        }
      }
      assert f == freed && s == sharedKeys;
      r := Reclaim(bytes, shared, observed);
    }

    lemma Sorts(forest: seq<Node>)
      requires Valid() && forall k :: names[k] == CountAll(disk, forest, k)
      ensures seen.Keys == FreedKeys(disk, forest) + SharedKeys(disk, forest)
      ensures forall k :: k in seen ==> (k in SharedKeys(disk, forest) <==> !seen[k].directory && seen[k].seen < seen[k].links)
      ensures forall k :: k in seen ==> (k in SharedKeys(disk, forest) <==> k !in FreedKeys(disk, forest))
    {
      forall k ensures k in seen <==> k in KeysAll(disk, forest) {
        KeysAreCounted(disk, forest, k);
      }
    }
  }

  lemma {:induction false} PartIsLess(disk: Disk, ns: seq<Node>, i: nat)
    requires i <= |ns|
    ensures SizeAll(disk, ns[..i]) <= SizeAll(disk, ns)
    decreases |ns| - i
  {
    if i < |ns| {
      AllAppends(disk, ns[..i], ns[i]);
      assert ns[..i + 1] == ns[..i] + [ns[i]];
      PartIsLess(disk, ns, i + 1);
    } else {
      assert ns[..i] == ns;
    }
  }

  // ---------------------------------------------------------------- selections

  ghost function Roots(entries: seq<Entry>): seq<Node> {
    if entries == [] then [] else RootOf(entries[0]) + Roots(entries[1..])
  }

  function RootOf(e: Entry): seq<Node> {
    if e.found.Some? then [e.found.value] else []
  }

  ghost predicate AllReadable(disk: Disk, entries: seq<Entry>) {
    forall i :: 0 <= i < |entries| ==> Readable(disk, entries[i])
  }

  /** The selections the walk enters: those not within the last directory it entered. */
  function Entered(ordered: seq<Entry>, ancestor: string): seq<Entry> {
    if ordered == [] then []
    else if ancestor != "" && Within(ordered[0].path, ancestor) then Entered(ordered[1..], ancestor)
    else [ordered[0]] + Entered(ordered[1..], if ordered[0].directory then ordered[0].path else ancestor)
  }

  lemma {:induction false} RootsAppend(a: seq<Entry>, b: seq<Entry>)
    ensures Roots(a + b) == Roots(a) + Roots(b)
  {
    if a == [] {
      assert a + b == b && Roots(a) == [];
    } else {
      var (head, rest) := (RootOf(a[0]), Roots(a[1..]));
      assert (a + b)[0] == a[0] && (a + b)[1..] == a[1..] + b;
      RootsAppend(a[1..], b);
      Associates(head, rest, Roots(b));
    }
  }

  lemma Associates(x: seq<Node>, y: seq<Node>, z: seq<Node>)
    ensures x + (y + z) == x + y + z
  {
  }

  /** The selections in path order, skipping those within the last directory entered. */
  method EnterAll(walk: Walk, ordered: seq<Entry>) returns (failure: Option<Result>)
    requires walk.Holds([])
    modifies walk
    ensures failure == None ==>
              walk.Holds(Entered(ordered, "")) && AllReadable(walk.disk, Entered(ordered, ""))
    ensures failure != None ==>
              || (failure == Some(Unreadable) && !AllReadable(walk.disk, Entered(ordered, "")))
              || (failure == Some(TooMany) && SizeAll(walk.disk, Roots(Entered(ordered, ""))) > walk.maxEntries)
  {
    var ancestor := "";
    ghost var all: seq<Entry>, entered: seq<Entry> := Entered(ordered, ""), [];
    assert ordered[0..] == ordered;
    var i := 0;
    while i < |ordered|
      invariant 0 <= i <= |ordered|
      invariant all == entered + Entered(ordered[i..], ancestor)
      invariant AllReadable(walk.disk, entered) && walk.Holds(entered)
    {
      var e := ordered[i];
      ghost var now := Entered(ordered[i..], ancestor);
      EnteredNext(ordered, i, ancestor);
      i := i + 1;
      if ancestor == "" || !Within(e.path, ancestor) {
        ancestor := if e.directory then e.path else ancestor;
        ghost var rest := Entered(ordered[i..], ancestor);
        Regroup(entered, e, rest);
        failure := EnterOne(walk, e, entered, rest);
        if failure.Some? {
          return;
        }
        entered := entered + [e];
      }
    }
    assert all == entered;
    failure := None;
  }

  lemma Regroup(entered: seq<Entry>, e: Entry, rest: seq<Entry>)
    ensures entered + ([e] + rest) == entered + [e] + rest
  {
  }

  /** One selection, among those entered before and after it. */
  method EnterOne(walk: Walk, e: Entry, ghost entered: seq<Entry>, ghost rest: seq<Entry>) returns (failure: Option<Result>)
    requires walk.Holds(entered) && AllReadable(walk.disk, entered)
    modifies walk
    ensures failure == None ==> walk.Holds(entered + [e]) && AllReadable(walk.disk, entered + [e])
    ensures failure != None ==>
              || (failure == Some(Unreadable) && !AllReadable(walk.disk, entered + [e] + rest))
              || (failure == Some(TooMany) && SizeAll(walk.disk, Roots(entered + [e] + rest)) > walk.maxEntries)
  {
    failure := walk.Enter(e, entered);
    if failure.Some? {
      Stops(walk.disk, entered, e, rest);
    } else {
      AllReadableAppends(walk.disk, entered, e);
    }
  }

  /**
   * EstimateReclaim, of entries already sorted by path.
   */
  method EstimateReclaim(disk: Disk, ordered: seq<Entry>, maxEntries: int) returns (r: Result)
    ensures maxEntries <= 0 ==> r == BadLimit
    ensures maxEntries > 0 && AllReadable(disk, Entered(ordered, "")) ==>
              r == Estimated(disk, Roots(Entered(ordered, "")), maxEntries)
    ensures maxEntries > 0 && !AllReadable(disk, Entered(ordered, "")) ==> r == Unreadable || r == TooMany
    ensures r == Unreadable ==> !AllReadable(disk, Entered(ordered, ""))
    ensures r == TooMany ==> SizeAll(disk, Roots(Entered(ordered, ""))) > maxEntries
  {
    if maxEntries <= 0 {
      return BadLimit;
    }
    var walk := new Walk(disk, maxEntries);
    var failure := EnterAll(walk, ordered);
    if failure.Some? {
      return failure.value;
    }
    ghost var forest := Roots(Entered(ordered, ""));
    walk.Sorts(forest);
    r := walk.Sum(FreedKeys(disk, forest), SharedKeys(disk, forest));
  }

  lemma EnteredNext(ordered: seq<Entry>, i: nat, ancestor: string)
    requires i < |ordered|
    ensures Entered(ordered[i..], ancestor) ==
            if ancestor != "" && Within(ordered[i].path, ancestor) then Entered(ordered[i + 1..], ancestor)
            else [ordered[i]] + Entered(ordered[i + 1..], if ordered[i].directory then ordered[i].path else ancestor)
  {
    assert ordered[i..][1..] == ordered[i + 1..];
  }

  lemma RootsOf(disk: Disk, entered: seq<Entry>, e: Entry)
    requires e.found.Some?
    ensures Roots(entered + [e]) == Roots(entered) + [e.found.value]
    ensures SizeAll(disk, Roots(entered + [e])) == SizeAll(disk, Roots(entered)) + Size(disk, e.found.value)
    ensures forall k :: CountAll(disk, Roots(entered + [e]), k) == CountAll(disk, Roots(entered), k) + Count(disk, e.found.value, k)
  {
    RootsAppend(entered, [e]);
    assert [e][1..] == [];
    assert Roots([e]) == [e.found.value];
    AllAppends(disk, Roots(entered), e.found.value);
  }

  lemma AllReadableAppends(disk: Disk, entered: seq<Entry>, e: Entry)
    requires AllReadable(disk, entered) && Readable(disk, e)
    ensures AllReadable(disk, entered + [e])
  {
  }

  /** What stops one selection stops the whole estimate. */
  lemma Stops(disk: Disk, entered: seq<Entry>, e: Entry, rest: seq<Entry>)
    ensures SizeAll(disk, Roots(entered + [e])) <= SizeAll(disk, Roots(entered + [e] + rest))
    ensures !Readable(disk, e) ==> !AllReadable(disk, entered + [e] + rest)
  {
    var a := entered + [e];
    RootsAppend(a, rest);
    PartIsLess(disk, Roots(a + rest), |Roots(a)|);
    assert Roots(a + rest)[..|Roots(a)|] == Roots(a);
    assert (a + rest)[|entered|] == e;
  }

  // ---------------------------------------------------------------- what callers select

  ghost predicate Sorted(s: seq<Entry>) {
    forall i, j :: 0 <= i < j < |s| ==> !Before(s[j].path, s[i].path)
  }

  ghost predicate NonNested(s: seq<Entry>) {
    forall i, j :: 0 <= i < |s| && 0 <= j < |s| && i != j ==> !Within(s[i].path, s[j].path)
  }

  lemma {:induction false} NonNestedAreEntered(s: seq<Entry>, i: nat, ancestor: string)
    requires i <= |s| && NonNested(s)
    requires ancestor != "" ==> exists j :: 0 <= j < i && s[j].path == ancestor
    ensures Entered(s[i..], ancestor) == s[i..]
    decreases |s| - i
  {
    if i < |s| {
      EnteredNext(s, i, ancestor);
      NonNestedAreEntered(s, i + 1, if s[i].directory then s[i].path else ancestor);
      assert s[i..] == [s[i]] + s[i + 1..];
    }
  }

  lemma {:induction false} RearrangedCounts(disk: Disk, a: seq<Entry>, b: seq<Entry>)
    requires multiset(a) == multiset(b)
    ensures SizeAll(disk, Roots(a)) == SizeAll(disk, Roots(b))
    ensures forall k :: CountAll(disk, Roots(a), k) == CountAll(disk, Roots(b), k)
  {
    if a == [] {
      assert |multiset(b)| == 0;
      assert b == [];
    } else {
      var n := |a| - 1;
      var e := a[n];
      assert a == a[..n] + [e];
      var before, after := SplitAt(a[..n], e, b);
      RearrangedCounts(disk, a[..n], before + after);
      LastCounts(disk, a[..n], e);
      MovedLast(disk, before, e, after);
    }
  }

  lemma SplitAt(a: seq<Entry>, e: Entry, b: seq<Entry>) returns (before: seq<Entry>, after: seq<Entry>)
    requires multiset(a + [e]) == multiset(b)
    ensures b == before + [e] + after && multiset(before + after) == multiset(a)
  {
    assert e in multiset(a + [e]);
    var i :| 0 <= i < |b| && b[i] == e;
    before, after := b[..i], b[i + 1..];
    assert b == before + [e] + after;
    Without(before, e, after);
    assert a + [e] + [] == a + [e] && a + [] == a;
    Without(a, e, []);
  }

  lemma Without(before: seq<Entry>, e: Entry, after: seq<Entry>)
    ensures multiset(before + after) == multiset(before + [e] + after) - multiset{e}
  {
  }

  lemma LastCounts(disk: Disk, s: seq<Entry>, e: Entry)
    ensures SizeAll(disk, Roots(s + [e])) == SizeAll(disk, Roots(s)) + SizeAll(disk, Roots([e]))
    ensures forall k :: CountAll(disk, Roots(s + [e]), k) == CountAll(disk, Roots(s), k) + CountAll(disk, Roots([e]), k)
  {
    RootsAppend(s, [e]);
    assert [e][1..] == [];
    if e.found.Some? {
      assert Roots([e]) == [e.found.value];
      AllAppends(disk, Roots(s), e.found.value);
      assert [e.found.value][1..] == [];
    } else {
      assert Roots([e]) == [] && Roots(s) + [] == Roots(s);
    }
  }

  lemma {:induction false} MovedLast(disk: Disk, a: seq<Entry>, e: Entry, b: seq<Entry>)
    ensures SizeAll(disk, Roots(a + [e] + b)) == SizeAll(disk, Roots(a + b)) + SizeAll(disk, Roots([e]))
    ensures forall k :: CountAll(disk, Roots(a + [e] + b), k) == CountAll(disk, Roots(a + b), k) + CountAll(disk, Roots([e]), k)
  {
    hide Roots, SizeAll, CountAll;
    if b == [] {
      assert a + [e] + b == a + [e] && a + b == a;
      LastCounts(disk, a, e);
    } else {
      var n := |b| - 1;
      var (front, last) := (b[..n], b[n]);
      MovedLast(disk, a, e, front);
      assert b == front + [last];
      assert a + [e] + b == a + [e] + front + [last] && a + b == a + front + [last];
      BothGrow(disk, a + [e] + front, a + front, last);
    }
  }

  lemma BothGrow(disk: Disk, x: seq<Entry>, y: seq<Entry>, e: Entry)
    ensures SizeAll(disk, Roots(x + [e])) - SizeAll(disk, Roots(x)) == SizeAll(disk, Roots(y + [e])) - SizeAll(disk, Roots(y))
    ensures forall k :: CountAll(disk, Roots(x + [e]), k) - CountAll(disk, Roots(x), k)
                     == CountAll(disk, Roots(y + [e]), k) - CountAll(disk, Roots(y), k)
  {
    LastCounts(disk, x, e);
    LastCounts(disk, y, e);
  }

  lemma SameCountsSameEstimate(disk: Disk, a: seq<Node>, b: seq<Node>, maxEntries: int)
    requires SizeAll(disk, a) == SizeAll(disk, b)
    requires forall k :: CountAll(disk, a, k) == CountAll(disk, b, k)
    ensures Estimated(disk, a, maxEntries) == Estimated(disk, b, maxEntries)
  {
    forall k ensures k in KeysAll(disk, a) <==> k in KeysAll(disk, b) {
      KeysAreCounted(disk, a, k);
      KeysAreCounted(disk, b, k);
    }
    assert FreedKeys(disk, a) == FreedKeys(disk, b) && SharedKeys(disk, a) == SharedKeys(disk, b);
  }

  /**
   * For selections none of which is within another, the walk enters every one of them, and the
   * estimate is that of the selections themselves, however the sort arranged them.
   */
  lemma NonNestedEstimate(disk: Disk, entries: seq<Entry>, ordered: seq<Entry>, maxEntries: int)
    requires multiset(ordered) == multiset(entries) && NonNested(ordered)
    ensures Entered(ordered, "") == ordered
    ensures Estimated(disk, Roots(Entered(ordered, "")), maxEntries) == Estimated(disk, Roots(entries), maxEntries)
  {
    NonNestedAreEntered(ordered, 0, "");
    assert ordered[0..] == ordered;
    RearrangedCounts(disk, ordered, entries);
    SameCountsSameEstimate(disk, Roots(ordered), Roots(entries), maxEntries);
  }

  // ---------------------------------------------------------------- nested selections

  ghost predicate DistinctPaths(s: seq<Entry>) {
    && (forall i :: 0 <= i < |s| ==> s[i].path != "" && s[i].path[0] == '/')
    && forall i, j :: 0 <= i < |s| && 0 <= j < |s| && i != j ==> s[i].path != s[j].path
  }

  /** Not inside any other selected directory: what deleting the selection must count once. */
  ghost predicate Outer(s: seq<Entry>, i: nat)
    requires i < |s|
  {
    forall j :: 0 <= j < |s| && j != i && s[j].directory ==> !Within(s[i].path, s[j].path)
  }

  /** No outermost directory sorts between another one and a selection inside that other one. */
  ghost predicate Contiguous(s: seq<Entry>) {
    forall i, j, k :: 0 <= i < j < k < |s| && s[i].directory && s[j].directory && Outer(s, i) && Outer(s, j) ==>
      !Within(s[k].path, s[i].path)
  }

  /** The last directory entered before a position. */
  ghost function Ancestor(s: seq<Entry>, i: nat): string
    requires i <= |s|
    decreases i, 0
  {
    if i == 0 then ""
    else if Enters(s, i - 1) && s[i - 1].directory then s[i - 1].path
    else Ancestor(s, i - 1)
  }

  ghost predicate Enters(s: seq<Entry>, i: nat)
    requires i < |s|
    decreases i, 1
  {
    Ancestor(s, i) == "" || !Within(s[i].path, Ancestor(s, i))
  }

  lemma {:induction false} EnteredHas(s: seq<Entry>, i: nat, k: nat)
    requires i <= k < |s| && DistinctPaths(s)
    ensures s[k] in Entered(s[i..], Ancestor(s, i)) <==> Enters(s, k)
    decreases |s| - i
  {
    EnteredNext(s, i, Ancestor(s, i));
    assert Ancestor(s, i + 1) == if Enters(s, i) && s[i].directory then s[i].path else Ancestor(s, i);
    if i < k {
      EnteredHas(s, i + 1, k);
    } else if s[k] in Entered(s[i + 1..], Ancestor(s, i + 1)) {
      EnteredIsPart(s[i + 1..], Ancestor(s, i + 1), s[k]);
    }
  }

  lemma {:induction false} EnteredIsPart(s: seq<Entry>, ancestor: string, e: Entry)
    requires e in Entered(s, ancestor)
    ensures e in s
  {
    var next := if ancestor != "" && Within(s[0].path, ancestor) then ancestor
                else if s[0].directory then s[0].path else ancestor;
    if e != s[0] {
      EnteredIsPart(s[1..], next, e);
    }
  }

  lemma {:induction false} AncestorIsEntered(s: seq<Entry>, i: nat) returns (a: nat)
    requires i <= |s| && Ancestor(s, i) != ""
    ensures a < i && s[a].directory && Enters(s, a) && s[a].path == Ancestor(s, i)
    ensures forall j :: a < j < i && s[j].directory ==> !Enters(s, j)
  {
    if Enters(s, i - 1) && s[i - 1].directory {
      a := i - 1;
    } else {
      a := AncestorIsEntered(s, i - 1);
    }
  }

  lemma WithinIsTransitive(a: string, b: string, c: string)
    requires Within(a, b) && Within(b, c)
    ensures Within(a, c)
  {
  }

  lemma WithinIsNested(p: string, a: string, b: string)
    requires Within(p, a) && Within(p, b) && a[0] == b[0] == '/'
    ensures Within(a, b) || Within(b, a)
  {
    if p != a && p != b && a != "/" && b != "/" {
      assert a == p[..|a|] && b == p[..|b|];
      if |a| < |b| {
        assert a + "/" == p[..|a| + 1] == b[..|a| + 1];
      } else if |b| < |a| {
        assert b + "/" == p[..|b| + 1] == a[..|b| + 1];
      }
    }
  }

  lemma {:induction false} PrefixIsBefore(a: string, p: string)
    requires a <= p && a != p
    ensures Before(a, p)
  {
    if a != "" {
      PrefixIsBefore(a[1..], p[1..]);
    }
  }

  lemma {:induction false} OutermostOf(s: seq<Entry>, k: nat) returns (t: nat)
    requires k < |s| && DistinctPaths(s) && Sorted(s) && !Outer(s, k)
    ensures t < k && s[t].directory && Outer(s, t) && Within(s[k].path, s[t].path)
    decreases k
  {
    var j :| 0 <= j < |s| && j != k && s[j].directory && Within(s[k].path, s[j].path);
    PrefixIsBefore(s[j].path, s[k].path);
    if Outer(s, j) {
      t := j;
    } else {
      t := OutermostOf(s, j);
      WithinIsTransitive(s[k].path, s[j].path, s[t].path);
    }
  }

  lemma OuterEnters(s: seq<Entry>, k: nat)
    requires k < |s| && Outer(s, k)
    ensures Enters(s, k)
  {
    if Ancestor(s, k) != "" {
      var a := AncestorIsEntered(s, k);
    }
  }

  lemma {:induction false} EntersIsOuter(s: seq<Entry>, k: nat)
    requires k < |s| && DistinctPaths(s) && Sorted(s) && Contiguous(s) && Enters(s, k)
    ensures Outer(s, k)
  {
    if !Outer(s, k) {
      var t := OutermostOf(s, k);
      OuterEnters(s, t);
      AncestorSince(s, t, k);
      var a := AncestorIsEntered(s, k);
      if t < a {
        EntersIsOuter(s, a);
      }
    }
  }

  lemma {:induction false} AncestorSince(s: seq<Entry>, t: nat, k: nat)
    requires t < k <= |s| && DistinctPaths(s) && s[t].directory && Enters(s, t)
    ensures Ancestor(s, k) != ""
  {
    if t < k - 1 {
      AncestorSince(s, t, k - 1);
    }
  }

  /**
   * The byte order does not keep a subtree together. The walk enters exactly the outermost
   * selections when, and only when, no outermost directory sorts into the middle of another.
   */
  lemma EntersOutermostExactlyWhenContiguous(s: seq<Entry>)
    requires DistinctPaths(s) && Sorted(s)
    ensures (forall k :: 0 <= k < |s| ==> (s[k] in Entered(s, "") <==> Outer(s, k))) <==> Contiguous(s)
  {
    assert s[0..] == s;
    forall k | 0 <= k < |s|
      ensures s[k] in Entered(s, "") <==> Enters(s, k)
      ensures Outer(s, k) ==> Enters(s, k)
      ensures Contiguous(s) && Enters(s, k) ==> Outer(s, k)
    {
      EnteredHas(s, 0, k);
      if Outer(s, k) {
        OuterEnters(s, k);
      } else if Contiguous(s) && Enters(s, k) {
        EntersIsOuter(s, k);
      }
    }
    if forall k :: 0 <= k < |s| ==> (Enters(s, k) <==> Outer(s, k)) {
      forall i, j, k | 0 <= i < j < k < |s| && s[i].directory && s[j].directory && Outer(s, i) && Outer(s, j)
        ensures !Within(s[k].path, s[i].path)
      {
        InMiddle(s, i, j, k);
      }
    }
  }

  lemma InMiddle(s: seq<Entry>, i: nat, j: nat, k: nat)
    requires i < j < k < |s| && DistinctPaths(s) && s[i].directory && s[j].directory && Outer(s, i) && Enters(s, j)
    requires forall m :: 0 <= m < |s| && Enters(s, m) ==> Outer(s, m)
    ensures !Within(s[k].path, s[i].path)
  {
    AncestorSince(s, j, k);
    var a := AncestorIsEntered(s, k);
    assert j <= a;
    assert Enters(s, k) ==> Outer(s, k);
    OuterAreApart(s, i, a, s[k].path);
  }

  lemma OuterAreApart(s: seq<Entry>, i: nat, j: nat, p: string)
    requires i < |s| && j < |s| && i != j && DistinctPaths(s)
    requires s[i].directory && s[j].directory && Outer(s, i) && Outer(s, j)
    ensures !(Within(p, s[i].path) && Within(p, s[j].path))
  {
    if Within(p, s[i].path) && Within(p, s[j].path) {
      WithinIsNested(p, s[i].path, s[j].path);
    }
  }

  // ---------------------------------------------------------------- a subtree counted twice

  const A := Key(0, 1)
  const B := Key(0, 2)
  const C := Key(0, 3)
  const FILE := Key(0, 4)

  /** Directories without blocks, and a file of eight blocks with two links. */
  function SmallDisk(k: Key): Inode {
    if k == FILE then Inode(8, 2, false) else Inode(0, 1, true)
  }

  const FILE_NODE := Node(FILE, [])
  const C_NODE := Node(C, [FILE_NODE])
  const A_NODE := Node(A, [C_NODE])
  const B_NODE := Node(B, [])

  /** `/a/c` holds one link of the file; the other link is in none of the selections. */
  const SELECTED := [Entry("/a", A, true, Some(A_NODE)), Entry("/a-b", B, true, Some(B_NODE)), Entry("/a/c", C, true, Some(C_NODE))]

  lemma AllThreeAreSorted()
    ensures Sorted(SELECTED) && DistinctPaths(SELECTED) && Within("/a/c", "/a")
  {
    PrefixIsBefore("/a", "/a-b");
    PrefixIsBefore("/a", "/a/c");
    BeforeIsTotal("/a", "/a-b");
    BeforeIsTotal("/a", "/a/c");
    SiblingSortsBetween();
    BeforeIsTotal("/a-b", "/a/c");
  }

  lemma AllThreeAreEntered()
    ensures Entered(SELECTED, "") == SELECTED
  {
    EnteredNext(SELECTED, 0, "");
    EnteredNext(SELECTED, 1, "/a");
    EnteredNext(SELECTED, 2, "/a-b");
    assert ("/a" + "/")[2] == '/' && "/a-b"[2] == '-' && "/a/c"[2] == '/';
    assert SELECTED[0..] == SELECTED && SELECTED[3..] == [];
  }

  lemma SiblingSortsBetween()
    ensures Before("/a-b", "/a/c")
  {
    assert Before("-b", "/c");
    assert "a-b"[1..] == "-b" && "a/c"[1..] == "/c";
    assert Before("a-b", "a/c");
    assert "/a-b"[1..] == "a-b" && "/a/c"[1..] == "a/c";
  }

  /** How often the file is met below the two outermost selections, and below all three. */
  lemma FileIsMet(k: Key)
    ensures CountAll(SmallDisk, [A_NODE, B_NODE], k) == if k == A || k == B || k == C || k == FILE then 1 else 0
    ensures CountAll(SmallDisk, [A_NODE, B_NODE, C_NODE], k) ==
            if k == A || k == B then 1 else if k == C || k == FILE then 2 else 0
    ensures SizeAll(SmallDisk, [A_NODE, B_NODE]) == 4 && SizeAll(SmallDisk, [A_NODE, B_NODE, C_NODE]) == 6
  {
    AllAppends(SmallDisk, [], A_NODE);
    AllAppends(SmallDisk, [A_NODE], B_NODE);
    AllAppends(SmallDisk, [A_NODE, B_NODE], C_NODE);
    AllAppends(SmallDisk, [], C_NODE);
    AllAppends(SmallDisk, [], FILE_NODE);
    assert [] + [A_NODE] == [A_NODE] && [A_NODE] + [B_NODE] == [A_NODE, B_NODE];
    assert [A_NODE, B_NODE] + [C_NODE] == [A_NODE, B_NODE, C_NODE];
    assert [] + [C_NODE] == [C_NODE] && [] + [FILE_NODE] == [FILE_NODE];
    assert B_NODE.children == [] && FILE_NODE.children == [];
    assert A_NODE.children == [C_NODE] && C_NODE.children == [FILE_NODE];
  }

  lemma {:induction false} NoBlocks(ks: set<Key>)
    requires FILE !in ks
    ensures Blocks(SmallDisk, ks) == 0
    decreases ks
  {
    if ks != {} {
      var k :| k in ks;
      assert SmallDisk(k) == Inode(0, 1, true);
      BlocksOf(SmallDisk, ks, k);
      NoBlocks(ks - {k});
    }
  }

  lemma SelectedRoots()
    ensures Roots(SELECTED) == [A_NODE, B_NODE, C_NODE]
  {
    var (a, b, c) := (SELECTED[0], SELECTED[1], SELECTED[2]);
    RootsOf(SmallDisk, [], a);
    RootsOf(SmallDisk, [a], b);
    RootsOf(SmallDisk, [a, b], c);
    assert [] + [a] == [a] && [a] + [b] == [a, b] && [a, b] + [c] == SELECTED;
    assert [] + [A_NODE] == [A_NODE] && [A_NODE] + [B_NODE] == [A_NODE, B_NODE];
  }

  /** The file keeps its other link, so nothing would be freed; counted twice, it seems to lose both. */
  lemma ASubtreeCountedTwice()
    ensures Sorted(SELECTED) && DistinctPaths(SELECTED) && Within("/a/c", "/a")
    ensures Entered(SELECTED, "") == SELECTED && Roots(SELECTED) == [A_NODE, B_NODE, C_NODE]
    ensures Estimated(SmallDisk, [A_NODE, B_NODE], 10) == Reclaim(0, 1, 4)
    ensures Estimated(SmallDisk, [A_NODE, B_NODE, C_NODE], 10) == Reclaim(4096, 0, 6)
  {
    AllThreeAreSorted();
    AllThreeAreEntered();
    SelectedRoots();
    SmallEstimate([A_NODE, B_NODE], {A, B, C}, {FILE});
    SmallEstimate([A_NODE, B_NODE, C_NODE], {A, B, C, FILE}, {});
    NoBlocks({A, B, C});
    BlocksOf(SmallDisk, {A, B, C, FILE}, FILE);
    assert {A, B, C, FILE} - {FILE} == {A, B, C};
    FileIsMet(FILE);
  }

  lemma SmallEstimate(forest: seq<Node>, freed: set<Key>, shared: set<Key>)
    requires (forest == [A_NODE, B_NODE] && freed == {A, B, C} && shared == {FILE})
             || (forest == [A_NODE, B_NODE, C_NODE] && freed == {A, B, C, FILE} && shared == {})
    ensures FreedKeys(SmallDisk, forest) == freed && SharedKeys(SmallDisk, forest) == shared
    ensures NonNegative(SmallDisk, freed)
  {
    forall k
      ensures k in FreedKeys(SmallDisk, forest) <==> k in freed
      ensures k in SharedKeys(SmallDisk, forest) <==> k in shared
    {
      KeysAreCounted(SmallDisk, forest, k);
      FileIsMet(k);
    }
  }
}

// One run over a scratch directory (internal/cli/scratch.go): what it selects, and the order in
// which it archives, verifies, records and deletes.
module Scratch {
  import opened Wrappers
  import opened ScratchReports

  // ---------------------------------------------------------------- what the run finds

  /** One observation of an entry: whether something keeps it, its size, age and identity. */
  datatype Seen = Seen(keep: bool, size: nat, newest: int, identity: nat)

  /** What becomes of an entry when the run comes to delete it. */
  datatype Fate = Fate(inUse: bool, changed: bool, idle: int, removes: bool, receipted: bool)

  /** A name, its first observation, the second one, and the length of its name in a receipt. */
  datatype Entry = Entry(name: string, skipped: bool, regenerable: bool, first: Seen, second: Seen, encoded: nat, fate: Fate)

  /** The policy as it is loaded again before anything is deleted. */
  datatype Policy = Policy(refused: set<string>, skips: set<string>, regenerable: set<string>, sensitive: set<string>,
                           idle: int, regenerableIdle: int)

  /** ScratchRunReceiptMaxBytes is a constant of the store; its value does not matter here. */
  datatype Limits = Limits(regenerableOnly: bool, maxBytes: nat, receiptMax: nat)

  /** How each step before the first deletion turns out. */
  datatype Gates = Gates(archives: bool, verifies: bool, opens: bool, records: bool, rechecks: bool, policy: Option<Policy>, configured: bool)

  // ---------------------------------------------------------------- selection

  datatype Choice = Choice(entry: Entry, item: Item, candidate: bool)

  function Early(e: Entry): Option<Item> {
    if e.skipped then Option.Some(Item(e.name, Skipped, 0))
    else if e.first.keep then Option.Some(Item(e.name, Kept, e.first.size))
    else None
  }

  function Choose(e: Entry, l: Limits, total: nat, receipt: nat): Choice {
    if l.regenerableOnly && !e.regenerable then Choice(e, Item(e.name, Kept, e.first.size), false)
    else if l.maxBytes > 0 && total + e.first.size > l.maxBytes then Choice(e, Item(e.name, Deferred, e.first.size), false)
    else if !e.regenerable && receipt + e.encoded + 1 > l.receiptMax then Choice(e, Item(e.name, Deferred, e.first.size), false)
    else if e.second.keep || e.second.identity != e.first.identity then Choice(e, Item(e.name, Kept, e.first.size), false)
    else Choice(e, Item(e.name, if e.regenerable then WouldDelete else WouldArchive, e.second.size), true)
  }

  function BytesOf(c: Choice): nat {
    if c.candidate then c.item.size else 0
  }

  function ReceiptOf(c: Choice): nat {
    if c.candidate && !c.entry.regenerable then c.entry.encoded + 1 else 0
  }

  ghost function Select(found: seq<Entry>, l: Limits, total: nat, receipt: nat): seq<Choice> {
    if found == [] then []
    else
      var c := Choose(found[0], l, total, receipt);
      [c] + Select(found[1..], l, total + BytesOf(c), receipt + ReceiptOf(c))
  }

  ghost function EarlyItems(world: seq<Entry>): seq<Item> {
    if world == [] then []
    else (if Early(world[0]).Some? then [Early(world[0]).value] else []) + EarlyItems(world[1..])
  }

  ghost function Found(world: seq<Entry>): seq<Entry> {
    if world == [] then []
    else (if Early(world[0]).Some? then [] else [world[0]]) + Found(world[1..])
  }

  /** sort.SliceStable, oldest first. */
  function Insert(e: Entry, s: seq<Entry>): seq<Entry> {
    if s == [] || e.first.newest <= s[0].first.newest then [e] + s else [s[0]] + Insert(e, s[1..])
  }

  function Sort(s: seq<Entry>): (r: seq<Entry>) {
    if s == [] then [] else Insert(s[0], Sort(s[1..]))
  }

  lemma {:induction false} SortKeepsLength(s: seq<Entry>)
    ensures |Sort(s)| == |s|
  {
    if s != [] {
      SortKeepsLength(s[1..]);
      InsertAddsOne(s[0], Sort(s[1..]));
    }
  }

  lemma {:induction false} InsertAddsOne(e: Entry, s: seq<Entry>)
    ensures |Insert(e, s)| == |s| + 1
  {
    if s != [] && !(e.first.newest <= s[0].first.newest) {
      InsertAddsOne(e, s[1..]);
    }
  }

  /** The entries of one age, in their order. */
  ghost function OfAge(s: seq<Entry>, newest: int): seq<Entry> {
    if s == [] then [] else (if s[0].first.newest == newest then [s[0]] else []) + OfAge(s[1..], newest)
  }

  ghost predicate OldestFirst(s: seq<Entry>) {
    forall i, j :: 0 <= i < j < |s| ==> s[i].first.newest <= s[j].first.newest
  }

  lemma {:induction false} InsertIsStable(e: Entry, s: seq<Entry>, newest: int)
    requires OldestFirst(s)
    ensures OldestFirst(Insert(e, s)) && forall x :: x in Insert(e, s) <==> x == e || x in s
    ensures OfAge(Insert(e, s), newest) == (if e.first.newest == newest then [e] else []) + OfAge(s, newest)
  {
    if s == [] || e.first.newest <= s[0].first.newest {
      assert ([e] + s)[1..] == s;
    } else {
      var rest := Insert(e, s[1..]);
      InsertIsStable(e, s[1..], newest);
      assert ([s[0]] + rest)[1..] == rest;
      forall x | x in rest ensures s[0].first.newest <= x.first.newest {
        if x != e {
          var i :| 0 <= i < |s[1..]| && s[1..][i] == x;
          assert s[i + 1] == x;
        }
      }
      NoneOfAge(e, s, newest);
    }
  }

  lemma NoneOfAge(e: Entry, s: seq<Entry>, newest: int)
    requires s != [] && e.first.newest > s[0].first.newest
    ensures (if e.first.newest == newest then [e] else []) + OfAge(s, newest)
         == (if s[0].first.newest == newest then [s[0]] else [])
            + ((if e.first.newest == newest then [e] else []) + OfAge(s[1..], newest))
  {
  }

  /** Oldest first, and entries of one age in the order in which they were found. */
  lemma {:induction false} SortIsStable(s: seq<Entry>, newest: int)
    ensures OldestFirst(Sort(s)) && OfAge(Sort(s), newest) == OfAge(s, newest)
    ensures forall e :: e in Sort(s) <==> e in s
  {
    if s != [] {
      SortIsStable(s[1..], newest);
      InsertIsStable(s[0], Sort(s[1..]), newest);
      assert s == [s[0]] + s[1..];
    }
  }

  /** Those that are only reported, and those that may be removed. */
  ghost function Reported(cs: seq<Choice>): seq<Item> {
    if cs == [] then [] else (if cs[0].candidate then [] else [cs[0].item]) + Reported(cs[1..])
  }

  ghost function Removable(cs: seq<Choice>): seq<Choice> {
    if cs == [] then [] else (if cs[0].candidate then [cs[0]] else []) + Removable(cs[1..])
  }

  lemma {:induction false} SelectDecidesEach(found: seq<Entry>, l: Limits, total: nat, receipt: nat)
    ensures |Reported(Select(found, l, total, receipt))| + |Removable(Select(found, l, total, receipt))| == |found|
  {
    if found != [] {
      var c := Choose(found[0], l, total, receipt);
      var rest := Select(found[1..], l, total + BytesOf(c), receipt + ReceiptOf(c));
      SelectDecidesEach(found[1..], l, total + BytesOf(c), receipt + ReceiptOf(c));
      assert ([c] + rest)[1..] == rest;
    }
  }

  lemma {:induction false} EarlyOrFound(world: seq<Entry>)
    ensures |EarlyItems(world)| + |Found(world)| == |world|
  {
    if world != [] {
      EarlyOrFound(world[1..]);
    }
  }

  /** Pass 1 reports a skipped name with no bytes, and a kept one with what it was seen to hold. */
  lemma {:induction false} KeptAreReported(world: seq<Entry>, i: nat)
    requires i < |world|
    ensures world[i].skipped ==> Item(world[i].name, Skipped, 0) in EarlyItems(world)
    ensures !world[i].skipped && world[i].first.keep ==> Item(world[i].name, Kept, world[i].first.size) in EarlyItems(world)
  {
    if i > 0 {
      KeptAreReported(world[1..], i - 1);
    }
  }

  /** Pass 1 leaves exactly the entries that no skip pattern and no first observation keeps. */
  lemma {:induction false} FoundAreFree(world: seq<Entry>)
    ensures forall e :: e in Found(world) <==> e in world && !e.skipped && !e.first.keep
  {
    if world != [] {
      FoundAreFree(world[1..]);
      assert world == [world[0]] + world[1..];
    }
  }

  lemma {:induction false} SelectKeepsEntries(found: seq<Entry>, l: Limits, total: nat, receipt: nat)
    ensures var cs := Select(found, l, total, receipt);
            |cs| == |found| && forall k :: 0 <= k < |cs| ==> cs[k].entry == found[k]
  {
    if found != [] {
      var c := Choose(found[0], l, total, receipt);
      SelectKeepsEntries(found[1..], l, total + BytesOf(c), receipt + ReceiptOf(c));
    }
  }

  /** What pass 2 makes of an entry, when some bytes and some of the receipt are used already. */
  lemma ChosenExactlyWhen(e: Entry, l: Limits, bytes: nat, used: nat)
    ensures var c := Choose(e, l, bytes, used);
            var fits := (l.maxBytes == 0 || bytes + e.first.size <= l.maxBytes) && (e.regenerable || used + e.encoded + 1 <= l.receiptMax);
            && c.entry == e
            && (c.candidate <==>
                  (l.regenerableOnly ==> e.regenerable) && fits && !e.second.keep && e.second.identity == e.first.identity)
            && (c.item.status == Deferred <==> (l.regenerableOnly ==> e.regenerable) && !fits)
            && c.item == (if c.candidate then Item(e.name, if e.regenerable then WouldDelete else WouldArchive, e.second.size)
                          else Item(e.name, if c.item.status == Deferred then Deferred else Kept, e.first.size))
            && BytesOf(c) == (if c.candidate then e.second.size else 0)
            && ReceiptOf(c) == (if c.candidate && !e.regenerable then e.encoded + 1 else 0)
  {
  }

  /** Each entry is judged by what the entries before it were charged. */
  lemma {:induction false} SelectedInTurn(found: seq<Entry>, l: Limits, total: nat, receipt: nat, k: nat)
    requires k < |found|
    ensures |Select(found, l, total, receipt)| == |found|
    ensures var cs := Select(found, l, total, receipt);
            cs[k] == Choose(found[k], l, total + TotalBytes(cs[..k]), receipt + TotalReceipt(cs[..k]))
  {
    hide Choose;
    SelectKeepsEntries(found, l, total, receipt);
    var c := Choose(found[0], l, total, receipt);
    var rest := Select(found[1..], l, total + BytesOf(c), receipt + ReceiptOf(c));
    var cs := Select(found, l, total, receipt);
    assert cs == [c] + rest;
    if k > 0 {
      SelectedInTurn(found[1..], l, total + BytesOf(c), receipt + ReceiptOf(c), k - 1);
      assert cs[..k] == [c] + rest[..k - 1] && cs[..k][1..] == rest[..k - 1];
    }
  }

  /** The candidates are entries that were found. */
  lemma {:induction false} RemovableAreFound(found: seq<Entry>, l: Limits, total: nat, receipt: nat)
    ensures forall c :: c in Removable(Select(found, l, total, receipt)) ==> c.entry in found
  {
    hide Choose, BytesOf, ReceiptOf, TotalBytes, TotalReceipt, LastGrowth;
    if found != [] {
      var c := Choose(found[0], l, total, receipt);
      RemovableAreFound(found[1..], l, total + BytesOf(c), receipt + ReceiptOf(c));
      SelectKeepsEntries(found, l, total, receipt);
      SelectCons(found, l, total, receipt);
    }
  }

  // ---------------------------------------------------------------- the bounds of one run

  ghost function TotalBytes(cs: seq<Choice>): nat {
    if cs == [] then 0 else BytesOf(cs[0]) + TotalBytes(cs[1..])
  }

  ghost function TotalReceipt(cs: seq<Choice>): nat {
    if cs == [] then 0 else ReceiptOf(cs[0]) + TotalReceipt(cs[1..])
  }

  /** By how much the last selected entry grew between the two observations of it. */
  ghost function LastGrowth(cs: seq<Choice>): nat {
    if cs == [] then 0
    else if Removable(cs[1..]) != [] then LastGrowth(cs[1..])
    else if cs[0].candidate && cs[0].entry.second.size > cs[0].entry.first.size
    then cs[0].entry.second.size - cs[0].entry.first.size
    else 0
  }

  /** The guard on max_bytes_per_run, asked again with the second size of each entry that is selected. */
  ghost predicate SecondFits(found: seq<Entry>, l: Limits, total: nat, receipt: nat) {
    found == []
    || (var c := Choose(found[0], l, total, receipt);
        && (c.candidate ==> total + found[0].second.size <= l.maxBytes)
        && SecondFits(found[1..], l, total + BytesOf(c), receipt + ReceiptOf(c)))
  }

  /** Past the limit nothing more is selected. */
  lemma {:induction false} NothingPastTheLimit(found: seq<Entry>, l: Limits, total: nat, receipt: nat)
    requires 0 < l.maxBytes < total
    ensures var cs := Select(found, l, total, receipt);
            TotalBytes(cs) == 0 && Removable(cs) == [] && LastGrowth(cs) == 0
  {
    if found != [] {
      var c := Choose(found[0], l, total, receipt);
      NothingPastTheLimit(found[1..], l, total, receipt);
      SelectCons(found, l, total, receipt);
    }
  }

  lemma SelectCons(found: seq<Entry>, l: Limits, total: nat, receipt: nat)
    requires found != []
    ensures var c := Choose(found[0], l, total, receipt);
            var (cs, rest) := (Select(found, l, total, receipt), Select(found[1..], l, total + BytesOf(c), receipt + ReceiptOf(c)));
            && cs == [c] + rest
            && TotalBytes(cs) == BytesOf(c) + TotalBytes(rest)
            && TotalReceipt(cs) == ReceiptOf(c) + TotalReceipt(rest)
            && Removable(cs) == (if c.candidate then [c] else []) + Removable(rest)
            && LastGrowth(cs) == if Removable(rest) != [] then LastGrowth(rest) else LastGrowth([c])
  {
    var c := Choose(found[0], l, total, receipt);
    var rest := Select(found[1..], l, total + BytesOf(c), receipt + ReceiptOf(c));
    assert ([c] + rest)[1..] == rest && [c][1..] == [];
  }

  /** The run's receipt never outgrows its bound. */
  lemma {:induction false} ReceiptIsBounded(found: seq<Entry>, l: Limits, total: nat, receipt: nat)
    requires receipt <= l.receiptMax
    ensures receipt + TotalReceipt(Select(found, l, total, receipt)) <= l.receiptMax
  {
    if found != [] {
      var c := Choose(found[0], l, total, receipt);
      ReceiptIsBounded(found[1..], l, total + BytesOf(c), receipt + ReceiptOf(c));
      SelectCons(found, l, total, receipt);
    }
  }

  /** The byte limit is exceeded by at most what the last selected entry grew. */
  lemma {:induction false} OnlyTheLastOvershoots(found: seq<Entry>, l: Limits, total: nat, receipt: nat)
    requires total <= l.maxBytes && 0 < l.maxBytes
    ensures var cs := Select(found, l, total, receipt);
            total + TotalBytes(cs) <= l.maxBytes + LastGrowth(cs)
  {
    if found != [] {
      var c := Choose(found[0], l, total, receipt);
      SelectCons(found, l, total, receipt);
      assert [c][1..] == [];
      if total + BytesOf(c) <= l.maxBytes {
        OnlyTheLastOvershoots(found[1..], l, total + BytesOf(c), receipt + ReceiptOf(c));
        var rest := Select(found[1..], l, total + BytesOf(c), receipt + ReceiptOf(c));
        if Removable(rest) == [] {
          NoneRemovable(rest);
        }
      } else {
        NothingPastTheLimit(found[1..], l, total + BytesOf(c), receipt + ReceiptOf(c));
      }
    }
  }

  lemma {:induction false} NoneRemovable(cs: seq<Choice>)
    requires Removable(cs) == []
    ensures TotalBytes(cs) == 0 && LastGrowth(cs) == 0
  {
    if cs != [] {
      NoneRemovable(cs[1..]);
    }
  }

  /** The run stays within max_bytes_per_run if and only if the guard would also have passed with the
      size that is charged, at every entry that is selected. */
  lemma {:induction false} LimitHoldsExactlyWhen(found: seq<Entry>, l: Limits, total: nat, receipt: nat)
    requires total <= l.maxBytes && 0 < l.maxBytes
    ensures total + TotalBytes(Select(found, l, total, receipt)) <= l.maxBytes <==> SecondFits(found, l, total, receipt)
  {
    if found != [] {
      var c := Choose(found[0], l, total, receipt);
      SelectCons(found, l, total, receipt);
      if total + BytesOf(c) <= l.maxBytes {
        LimitHoldsExactlyWhen(found[1..], l, total + BytesOf(c), receipt + ReceiptOf(c));
      }
    }
  }

  /** One entry that grew from one byte to ten is selected under a limit of five. */
  lemma TheByteLimitCanBeExceeded(e: Entry)
    requires !e.skipped && !e.first.keep && !e.second.keep && e.regenerable && e.first.identity == e.second.identity
    requires e.first.size == 1 && e.second.size == 10
    ensures TotalBytes(Select([e], Limits(false, 5, 0), 0, 0)) == 10
  {
    var c := Choose(e, Limits(false, 5, 0), 0, 0);
    assert [e][1..] == [] && [c][1..] == [];
    assert Select([e], Limits(false, 5, 0), 0, 0) == [c];
  }

  // ---------------------------------------------------------------- deletion

  /** scratchDeletionRefusal: the policy loaded last decides again. */
  predicate Refuses(p: Policy, name: string, regenerable: bool) {
    name in p.refused || name in p.skips || (regenerable && name !in p.regenerable) || name in p.sensitive
  }

  function IdleFor(p: Policy, name: string): int {
    if name in p.regenerable then p.regenerableIdle else p.idle
  }

  /** The policy loaded last and the fresh observations let an entry go. */
  predicate Cleared(p: Policy, e: Entry) {
    !Refuses(p, e.name, e.regenerable) && !e.fate.inUse && !e.fate.changed && e.fate.idle >= IdleFor(p, e.name)
  }

  function Resolve(p: Policy, e: Entry): Status {
    if !Cleared(p, e) then Kept
    else if !e.fate.removes then Failed
    else if e.regenerable then Deleted
    else Archived
  }

  /** What lets an entry go, and how it ends: everything that policy and observations must say. */
  lemma ResolvedExactlyWhen(p: Policy, e: Entry)
    ensures var cleared := && e.name !in p.refused && e.name !in p.skips && e.name !in p.sensitive
                           && (e.regenerable ==> e.name in p.regenerable)
                           && !e.fate.inUse && !e.fate.changed
                           && e.fate.idle >= (if e.name in p.regenerable then p.regenerableIdle else p.idle);
            && (Cleared(p, e) <==> cleared)
            && (Resolve(p, e) == Archived <==> cleared && e.fate.removes && !e.regenerable)
            && (Resolve(p, e) == Deleted <==> cleared && e.fate.removes && e.regenerable)
            && (Resolve(p, e) == Failed <==> cleared && !e.fate.removes)
            && (Resolve(p, e) == Kept <==> !cleared)
  {
  }

  /** Every step before the first deletion succeeded. */
  predicate Passes(g: Gates, archiving: bool) {
    (archiving ==> g.archives && g.verifies) && g.opens && g.records && g.rechecks && g.policy.Some? && g.configured
  }

  ghost predicate Archiving(cs: seq<Choice>) {
    exists i :: 0 <= i < |cs| && !cs[i].entry.regenerable
  }

  function FinalStatus(c: Choice, g: Gates, dryRun: bool, archiving: bool): Status {
    if dryRun then c.item.status
    else if !Passes(g, archiving) then Failed
    else Resolve(g.policy.value, c.entry)
  }

  ghost function Finals(cs: seq<Choice>, g: Gates, dryRun: bool, archiving: bool): seq<Item> {
    if cs == [] then []
    else [cs[0].item.(status := FinalStatus(cs[0], g, dryRun, archiving))] + Finals(cs[1..], g, dryRun, archiving)
  }

  /** A candidate keeps its label in a preview, fails with the first step that fails, and is decided on its own otherwise. */
  lemma EndsExactlyAs(cs: seq<Choice>, g: Gates, dryRun: bool, i: nat)
    requires i < |cs|
    ensures |Finals(cs, g, dryRun, Archiving(cs))| == |cs|
    ensures var archived := exists j :: 0 <= j < |cs| && !cs[j].entry.regenerable;
            var ready := (archived ==> g.archives && g.verifies) && g.opens && g.records && g.rechecks && g.policy.Some? && g.configured;
            Finals(cs, g, dryRun, Archiving(cs))[i]
            == if dryRun then cs[i].item
               else cs[i].item.(status := if ready then Resolve(g.policy.value, cs[i].entry) else Failed)
  {
    FinalsAreOfEach(cs, g, dryRun, Archiving(cs));
  }

  /** Every entry's outcome. The bound on the listing plays no part in it. */
  ghost function Outcomes(world: seq<Entry>, l: Limits, receipt: nat, g: Gates, dryRun: bool): seq<Item> {
    var choices := Select(Sort(Found(world)), l, 0, receipt);
    var cs := Removable(choices);
    EarlyItems(world) + Reported(choices) + Finals(cs, g, dryRun, Archiving(cs))
  }

  lemma OutcomesAreOfEach(world: seq<Entry>, l: Limits, receipt: nat, g: Gates, dryRun: bool)
    ensures |Outcomes(world, l, receipt, g, dryRun)| == |world|
  {
    var choices := Select(Sort(Found(world)), l, 0, receipt);
    EarlyOrFound(world);
    SortKeepsLength(Found(world));
    SelectDecidesEach(Sort(Found(world)), l, 0, receipt);
    FinalsAreOfEach(Removable(choices), g, dryRun, Archiving(Removable(choices)));
  }

  lemma {:induction false} FinalsAreOfEach(cs: seq<Choice>, g: Gates, dryRun: bool, archiving: bool)
    ensures |Finals(cs, g, dryRun, archiving)| == |cs|
    ensures forall i :: 0 <= i < |cs| ==>
              Finals(cs, g, dryRun, archiving)[i] == cs[i].item.(status := FinalStatus(cs[i], g, dryRun, archiving))
  {
    if cs != [] {
      FinalsAreOfEach(cs[1..], g, dryRun, archiving);
    }
  }

  // ---------------------------------------------------------------- what a run does, in order

  /** The irreversible steps and the durable ones. A crash leaves a prefix of them. */
  datatype Event =
    | ArchiveCreated(names: set<string>)
    | ArchiveVerified(names: set<string>)
    | RunRecorded(names: set<string>)
    | InUseRechecked
    | PolicyLoaded(policy: Policy)
    | Removing(entry: Entry)
    | Removed(entry: Entry)
    | ReceiptRecorded(entry: Entry)

  type Log = seq<Event>

  /** The policy that was loaded last. */
  ghost function LatestPolicy(log: Log): Option<Policy> {
    if log == [] then None
    else if log[|log| - 1].PolicyLoaded? then Option.Some(log[|log| - 1].policy)
    else LatestPolicy(log[..|log| - 1])
  }

  ghost predicate Follows(before: Log, e: Event) {
    match e
    case ArchiveCreated(_) => true
    case ArchiveVerified(names) => ArchiveCreated(names) in before
    case RunRecorded(names) => names == {} || ArchiveVerified(names) in before
    case InUseRechecked => exists names :: RunRecorded(names) in before
    case PolicyLoaded(_) => InUseRechecked in before
    case Removing(e) =>
      && LatestPolicy(before).Some? && Cleared(LatestPolicy(before).value, e)
      && (!e.regenerable ==> exists names :: RunRecorded(names) in before && e.name in names)
    case Removed(e) => Removing(e) in before && e.fate.removes
    case ReceiptRecorded(e) => Removed(e) in before && e.fate.receipted
  }

  ghost predicate Sound(log: Log) {
    log == [] || (Sound(log[..|log| - 1]) && Follows(log[..|log| - 1], log[|log| - 1]))
  }

  lemma SoundOn(log: Log, e: Event)
    requires Sound(log) && Follows(log, e)
    ensures Sound(log + [e])
  {
    assert (log + [e])[..|log|] == log;
  }

  lemma {:induction false} SoundAt(log: Log, i: nat)
    requires Sound(log) && i < |log|
    ensures Sound(log[..i]) && Follows(log[..i], log[i])
  {
    if i < |log| - 1 {
      SoundAt(log[..|log| - 1], i);
      assert log[..|log| - 1][..i] == log[..i];
    }
  }

  lemma {:induction false} LatestIsLoaded(log: Log) returns (loaded: nat)
    requires LatestPolicy(log).Some?
    ensures loaded < |log| && log[loaded].PolicyLoaded? && log[loaded].policy == LatestPolicy(log).value
    ensures forall k :: loaded < k < |log| ==> !log[k].PolicyLoaded?
  {
    if log[|log| - 1].PolicyLoaded? {
      loaded := |log| - 1;
    } else {
      loaded := LatestIsLoaded(log[..|log| - 1]);
    }
  }

  lemma RecordIsVerified(log: Log, i: nat, names: set<string>) returns (recorded: nat, verified: nat)
    requires Sound(log) && i < |log| && RunRecorded(names) in log[..i] && names != {}
    ensures verified < recorded < i && log[recorded] == RunRecorded(names) && log[verified] == ArchiveVerified(names)
  {
    recorded :| 0 <= recorded < i && log[recorded] == RunRecorded(names);
    SoundAt(log, recorded);
    assert ArchiveVerified(names) in log[..recorded];
    verified :| 0 <= verified < recorded && log[verified] == ArchiveVerified(names);
  }

  /** The policy was loaded after the references in use had been read again, and that after a run was recorded. */
  lemma LoadIsLate(log: Log, loaded: nat) returns (recorded: nat, rechecked: nat)
    requires Sound(log) && loaded < |log| && log[loaded].PolicyLoaded?
    ensures recorded < rechecked < loaded && log[recorded].RunRecorded? && log[rechecked].InUseRechecked?
  {
    SoundAt(log, loaded);
    rechecked :| 0 <= rechecked < loaded && log[rechecked] == InUseRechecked;
    SoundAt(log, rechecked);
    var names :| RunRecorded(names) in log[..rechecked];
    recorded :| 0 <= recorded < rechecked && log[recorded] == RunRecorded(names);
  }

  /**
   * At every point of a run: what it has begun to remove is neither refused, skipped nor sensitive by the
   * policy loaded last before, which was loaded after the references in use had been read again. It is not
   * in use, unchanged and idle for as long as that policy asks. And it either matches a regenerable pattern
   * of that policy or is named by a recorded run whose archive had been verified.
   */
  lemma RemovalIsEarned(log: Log, i: nat) returns (rechecked: nat, loaded: nat, recorded: nat, verified: nat)
    requires Sound(log) && i < |log| && log[i].Removing?
    ensures rechecked < loaded < i && log[rechecked].InUseRechecked? && log[loaded].PolicyLoaded?
    ensures forall k :: loaded < k < i ==> !log[k].PolicyLoaded?
    ensures var (e, p) := (log[i].entry, log[loaded].policy);
            && e.name !in p.refused && e.name !in p.skips && e.name !in p.sensitive
            && !e.fate.inUse && !e.fate.changed
            && e.fate.idle >= (if e.name in p.regenerable then p.regenerableIdle else p.idle)
            && (e.regenerable ==> e.name in p.regenerable)
    ensures !log[i].entry.regenerable ==>
              && verified < recorded < i && log[recorded].RunRecorded? && log[verified] == ArchiveVerified(log[recorded].names)
              && log[i].entry.name in log[recorded].names
  {
    SoundAt(log, i);
    loaded := LatestIsLoaded(log[..i]);
    recorded, rechecked := LoadIsLate(log, loaded);
    verified := 0;
    if !log[i].entry.regenerable {
      var names :| RunRecorded(names) in log[..i] && log[i].entry.name in names;
      recorded, verified := RecordIsVerified(log, i, names);
    }
  }

  ghost function Removals(log: Log, archived: bool): nat {
    if log == [] then 0
    else
      var last := log[|log| - 1];
      Removals(log[..|log| - 1], archived) + if last.Removed? && last.entry.regenerable != archived then 1 else 0
  }

  ghost predicate NothingRemoved(log: Log) {
    forall e :: e in log ==> !e.Removing? && !e.Removed? && !e.ReceiptRecorded?
  }

  // ---------------------------------------------------------------- the run itself

  /** Two lists of outcomes that no counter can tell apart. */
  ghost predicate Alike(a: seq<Item>, b: seq<Item>) {
    forall st :: Count(st, a) == Count(st, b) && Bytes(st, a) == Bytes(st, b)
  }

  /** The report holds the items noted for good, and the candidates' current items. */
  ghost predicate Accounts(r: Report, noted: seq<Item>, cs: seq<Candidate>)
    reads r
  {
    r.Valid() && Linked(r.items, cs) && Alike(r.hidden + r.items, noted + ItemsOf(cs, true))
  }

  lemma Sums(a: seq<Item>, b: seq<Item>)
    ensures forall st :: Count(st, a + b) == Count(st, a) + Count(st, b)
    ensures forall st :: Bytes(st, a + b) == Bytes(st, a) + Bytes(st, b)
  {
    forall st ensures Count(st, a + b) == Count(st, a) + Count(st, b) && Bytes(st, a + b) == Bytes(st, a) + Bytes(st, b) {
      CountAppends(st, a, b);
    }
  }

  lemma AlikeNoted(hidden: seq<Item>, items: seq<Item>, noted: seq<Item>, listed: seq<Item>, x: Item)
    requires Alike(hidden + items, noted + listed)
    ensures Alike(hidden + (items + [x]), noted + [x] + listed)
    ensures Alike(hidden + [x] + items, noted + [x] + listed)
    ensures Alike(hidden + (items + [x]), noted + (listed + [x]))
  {
    Sums(hidden, items); Sums(noted, listed);
    Sums(items, [x]); Sums(hidden, [x]); Sums(noted, [x]); Sums(listed, [x]);
    Sums(hidden, items + [x]); Sums(hidden + [x], items); Sums(noted + [x], listed); Sums(noted, listed + [x]);
  }

  /** An entry that is only reported. */
  method Note(r: Report, item: Item, ghost noted: seq<Item>, ghost cs: seq<Candidate>)
    requires Accounts(r, noted, cs)
    modifies r
    ensures Accounts(r, noted + [item], cs)
  {
    AlikeNoted(r.hidden, r.items, noted, ItemsOf(cs, true), item);
    r.List(item);
  }

  /** A new candidate takes the place after the listed items, or none. */
  lemma OfferIsAlike(hidden: seq<Item>, items: seq<Item>, noted: seq<Item>, cs: seq<Candidate>, c: Candidate)
    requires Alike(hidden + items, noted + ItemsOf(cs, true)) && Linked(items, cs) && c.index == |items|
    ensures var after := if c.listed then items + [c.item] else items;
            Alike(hidden + after, noted + ItemsOf(cs + [c], true)) && Linked(after, cs + [c])
  {
    ghost var listed := ItemsOf(cs, true);
    ItemsOfLast(cs, c);
    OfferIsLinked(items, cs, c);
    if c.listed {
      AlikeNoted(hidden, items, noted, listed, c.item);
    }
  }

  lemma ItemsOfLast(cs: seq<Candidate>, c: Candidate)
    ensures ItemsOf(cs + [c], true) == if c.listed then ItemsOf(cs, true) + [c.item] else ItemsOf(cs, true)
  {
    assert (cs + [c])[..|cs|] == cs;
  }

  lemma OfferIsLinked(items: seq<Item>, cs: seq<Candidate>, c: Candidate)
    requires Linked(items, cs) && c.index == |items|
    ensures Linked(if c.listed then items + [c.item] else items, cs + [c])
  {
  }

  /** An entry that may be removed. */
  method Offer(r: Report, item: Item, regenerable: bool, ghost noted: seq<Item>, cs: seq<Candidate>) returns (ds: seq<Candidate>)
    requires Accounts(r, noted, cs)
    modifies r
    ensures Accounts(r, noted, ds) && |ds| == |cs| + 1 && ds[..|cs|] == cs
    ensures ds[|cs|].item == item && ds[|cs|].regenerable == regenerable
  {
    ghost var items := r.items;
    var listed, index := r.Slot(item);
    var c := Candidate(listed, index, item, regenerable);
    OfferIsAlike(r.hidden, items, noted, cs, c);
    ds := cs + [c];
    assert ds[..|cs|] == cs;
  }

  /** A candidate's outcome. */
  method Decide(r: Report, cs: seq<Candidate>, i: nat, status: Status, ghost noted: seq<Item>) returns (ds: seq<Candidate>)
    requires Accounts(r, noted, cs) && i < |cs|
    modifies r
    ensures Accounts(r, noted, ds) && ds == cs[i := cs[i].(item := cs[i].item.(status := status))]
  {
    DecisionIsAlike(r.hidden, r.items, noted, cs, i, status);
    ds := r.Set(cs, i, status);
  }

  lemma DecisionIsAlike(hidden: seq<Item>, items: seq<Item>, noted: seq<Item>, cs: seq<Candidate>, i: nat, status: Status)
    requires Alike(hidden + items, noted + ItemsOf(cs, true)) && i < |cs| && Linked(items, cs)
    ensures var x := cs[i].item.(status := status);
            var ds := cs[i := cs[i].(item := x)];
            Alike(hidden + (if cs[i].listed then items[cs[i].index := x] else items), noted + ItemsOf(ds, true))
  {
    var x := cs[i].item.(status := status);
    var ds := cs[i := cs[i].(item := x)];
    Sums(hidden, items);
    Sums(noted, ItemsOf(cs, true));
    Sums(noted, ItemsOf(ds, true));
    if cs[i].listed {
      Sums(hidden, items[cs[i].index := x]);
    }
    forall st
      ensures var after := if cs[i].listed then items[cs[i].index := x] else items;
              Count(st, hidden + after) == Count(st, noted + ItemsOf(ds, true))
              && Bytes(st, hidden + after) == Bytes(st, noted + ItemsOf(ds, true))
    {
      ItemsOfUpdate(st, cs, i, x);
      if cs[i].listed {
        CountUpdate(st, items, cs[i].index, x);
      }
    }
  }

  lemma {:induction false} ItemsOfUpdate(st: Status, cs: seq<Candidate>, i: nat, x: Item)
    requires i < |cs|
    ensures var (a, b) := (ItemsOf(cs, true), ItemsOf(cs[i := cs[i].(item := x)], true));
            if cs[i].listed
            then Count(st, b) + One(cs[i].item.status == st) == Count(st, a) + One(x.status == st)
                 && Bytes(st, b) + SizeIf(cs[i].item.status == st, cs[i].item.size) == Bytes(st, a) + SizeIf(x.status == st, x.size)
            else a == b
  {
    var n := |cs| - 1;
    var ds := cs[i := cs[i].(item := x)];
    if i < n {
      ItemsOfUpdate(st, cs[..n], i, x);
      assert ds[..n] == cs[..n][i := cs[i].(item := x)];
      if cs[n].listed {
        CountLast(st, ItemsOf(cs[..n], true), cs[n].item);
        CountLast(st, ItemsOf(ds[..n], true), cs[n].item);
      } else {
        assert ItemsOf(cs[..n], true) + [] == ItemsOf(cs[..n], true) && ItemsOf(ds[..n], true) + [] == ItemsOf(ds[..n], true);
      }
    } else {
      assert ds[..n] == cs[..n];
      if cs[n].listed {
        CountLast(st, ItemsOf(cs[..n], true), cs[n].item);
        CountLast(st, ItemsOf(cs[..n], true), x);
      }
    }
  }

  /** Once the candidates that are not listed are settled, every outcome is held exactly once. */
  lemma SettledIsAlike(hidden: seq<Item>, items: seq<Item>, noted: seq<Item>, cs: seq<Candidate>, finals: seq<Item>)
    requires Alike(hidden + items, noted + ItemsOf(cs, true))
    requires |finals| == |cs| && forall i :: 0 <= i < |cs| ==> cs[i].item == finals[i]
    ensures Alike(hidden + ItemsOf(cs, false) + items, noted + finals)
  {
    Sums(hidden, items);
    Sums(noted, ItemsOf(cs, true));
    Sums(hidden, ItemsOf(cs, false));
    Sums(hidden + ItemsOf(cs, false), items);
    Sums(noted, finals);
    forall st ensures Count(st, ItemsOf(cs, true)) + Count(st, ItemsOf(cs, false)) == Count(st, finals)
                   && Bytes(st, ItemsOf(cs, true)) + Bytes(st, ItemsOf(cs, false)) == Bytes(st, finals) {
      BothItems(st, cs, finals);
    }
  }

  lemma {:induction false} BothItems(st: Status, cs: seq<Candidate>, finals: seq<Item>)
    requires |finals| == |cs| && forall i :: 0 <= i < |cs| ==> cs[i].item == finals[i]
    ensures Count(st, ItemsOf(cs, true)) + Count(st, ItemsOf(cs, false)) == Count(st, finals)
    ensures Bytes(st, ItemsOf(cs, true)) + Bytes(st, ItemsOf(cs, false)) == Bytes(st, finals)
  {
    if cs != [] {
      var n := |cs| - 1;
      BothItems(st, cs[..n], finals[..n]);
      assert finals == finals[..n] + [finals[n]];
      CountLast(st, finals[..n], finals[n]);
      CountLast(st, ItemsOf(cs[..n], cs[n].listed), finals[n]);
      var other := ItemsOf(cs[..n], !cs[n].listed);
      assert other + [] == other;
    }
  }

  /** Alike outcomes give equal counters, and are equally many. */
  lemma AlikeTallies(a: seq<Item>, b: seq<Item>)
    requires Alike(a, b)
    ensures Tally(a) == Tally(b) && |a| == |b|
  {
    EightStatuses(a);
    EightStatuses(b);
  }

  // ---------------------------------------------------------------- pass 1 and pass 2

  /** Pass 1: every entry is counted; those that nothing keeps are found. */
  method Observe(r: Report, world: seq<Entry>) returns (found: seq<Entry>, ghost noted: seq<Item>)
    requires Accounts(r, [], []) && r.hidden == r.items == []
    modifies r
    ensures found == Found(world) && noted == EarlyItems(world) && Accounts(r, noted, [])
  {
    hide Linked, Alike;
    found, noted := [], [];
    assert world[0..] == world;
    var i := 0;
    while i < |world|
      invariant 0 <= i <= |world| && Accounts(r, noted, [])
      invariant found + Found(world[i..]) == Found(world)
      invariant noted + EarlyItems(world[i..]) == EarlyItems(world)
    {
      var e := world[i];
      assert world[i..][1..] == world[i + 1..];
      if Early(e).Some? {
        Note(r, Early(e).value, noted, []);
        noted := noted + [Early(e).value];
      } else {
        found := found + [e];
      }
      i := i + 1;
    }
  }

  /** What has been picked and noted, and what is still to be, is the whole selection. */
  ghost predicate Selecting(all: seq<Choice>, rest: seq<Choice>, picked: seq<Choice>, now: seq<Item>, noted: seq<Item>) {
    picked + Removable(rest) == Removable(all) && now + Reported(rest) == noted + Reported(all)
  }

  lemma SelectingOn(all: seq<Choice>, c: Choice, rest: seq<Choice>, picked: seq<Choice>, now: seq<Item>, noted: seq<Item>)
    requires Selecting(all, [c] + rest, picked, now, noted)
    ensures Selecting(all, rest, picked + (if c.candidate then [c] else []), now + (if c.candidate then [] else [c.item]), noted)
  {
    assert ([c] + rest)[1..] == rest;
    var (x, y) := (if c.candidate then [c] else [], if c.candidate then [] else [c.item]);
    assert picked + x + Removable(rest) == picked + (x + Removable(rest));
    assert now + y + Reported(rest) == now + (y + Reported(rest));
  }

  /** Pass 2: oldest first, within the bounds. */
  method SelectEntries(r: Report, found: seq<Entry>, l: Limits, base: nat, ghost noted: seq<Item>)
      returns (cs: seq<Candidate>, picked: seq<Choice>)
    requires Accounts(r, noted, [])
    modifies r
    ensures picked == Removable(Select(found, l, 0, base)) && Follow(cs, picked)
    ensures Accounts(r, noted + Reported(Select(found, l, 0, base)), cs)
  {
    cs, picked := [], [];
    ghost var all, now := Select(found, l, 0, base), noted;
    var total: nat, receipt: nat := 0, base;
    assert found[0..] == found;
    var i := 0;
    while i < |found|
      invariant 0 <= i <= |found| && Accounts(r, now, cs) && Follow(cs, picked)
      invariant Selecting(all, Select(found[i..], l, total, receipt), picked, now, noted)
    {
      var c := Choose(found[i], l, total, receipt);
      SelectNext(found, i, l, total, receipt);
      total, receipt := total + BytesOf(c), receipt + ReceiptOf(c);
      i := i + 1;
      SelectingOn(all, c, Select(found[i..], l, total, receipt), picked, now, noted);
      cs, picked, now := Place(r, c, now, cs, picked);
    }
    assert picked == Removable(all) && now == noted + Reported(all);
  }

  method Place(r: Report, c: Choice, ghost noted: seq<Item>, cs: seq<Candidate>, picked: seq<Choice>)
      returns (ds: seq<Candidate>, more: seq<Choice>, ghost now: seq<Item>)
    requires Accounts(r, noted, cs) && Follow(cs, picked)
    modifies r
    ensures Accounts(r, now, ds) && Follow(ds, more)
    ensures more == picked + (if c.candidate then [c] else []) && now == noted + if c.candidate then [] else [c.item]
  {
    ds, more, now := cs, picked, noted;
    if c.candidate {
      ds := Offer(r, c.item, c.entry.regenerable, noted, cs);
      more := picked + [c];
      assert now + [] == now;
    } else {
      Note(r, c.item, noted, cs);
      now := noted + [c.item];
      assert more + [] == more;
    }
  }

  lemma SelectNext(found: seq<Entry>, i: nat, l: Limits, total: nat, receipt: nat)
    requires i < |found|
    ensures var c := Choose(found[i], l, total, receipt);
            Select(found[i..], l, total, receipt) == [c] + Select(found[i + 1..], l, total + BytesOf(c), receipt + ReceiptOf(c))
  {
    assert found[i..][1..] == found[i + 1..];
  }

  /** The candidates are those picked, as they were first listed. */
  ghost predicate Follow(cs: seq<Candidate>, picked: seq<Choice>) {
    |cs| == |picked| && forall i :: 0 <= i < |cs| ==> cs[i].item == picked[i].item && cs[i].regenerable == picked[i].entry.regenerable
  }

  // ---------------------------------------------------------------- gates and deletion

  function ArchivedNames(picked: seq<Choice>): set<string> {
    set c | c in picked && !c.entry.regenerable :: c.entry.name
  }

  lemma NamesWhenArchiving(picked: seq<Choice>)
    ensures Archiving(picked) <==> ArchivedNames(picked) != {}
  {
    if Archiving(picked) {
      var i :| 0 <= i < |picked| && !picked[i].entry.regenerable;
      assert picked[i].entry.name in ArchivedNames(picked);
    }
  }

  /** The policy is loaded, and the run that names everything archived is recorded. */
  ghost predicate Ready(log: Log, p: Policy, names: set<string>) {
    Sound(log) && LatestPolicy(log) == Option.Some(p) && RunRecorded(names) in log
  }

  lemma ReadyOn(log: Log, p: Policy, names: set<string>, e: Event)
    requires Ready(log, p, names) && Follows(log, e) && !e.PolicyLoaded?
    ensures Ready(log + [e], p, names) && e in log + [e]
    ensures Removals(log + [e], true) == Removals(log, true) + One(e.Removed? && !e.entry.regenerable)
    ensures Removals(log + [e], false) == Removals(log, false) + One(e.Removed? && e.entry.regenerable)
  {
    SoundOn(log, e);
    assert (log + [e])[..|log|] == log;
  }

  /** A durable step that removes nothing. */
  lemma Took(past: Log, e: Event) returns (log: Log)
    requires Sound(past) && NothingRemoved(past) && Follows(past, e) && NothingRemoved([e])
    ensures log == past + [e] && Sound(log) && NothingRemoved(log) && e in log
    ensures LatestPolicy(log) == if e.PolicyLoaded? then Option.Some(e.policy) else LatestPolicy(past)
    ensures Removals(log, true) == Removals(past, true) && Removals(log, false) == Removals(past, false)
  {
    log := past + [e];
    SoundOn(past, e);
    assert log[..|past|] == past;
  }

  /** Archive, and read the published archive back, if anything is to be archived. */
  method Archive(names: set<string>, g: Gates) returns (ok: bool, ghost log: Log)
    ensures ok <==> (names != {} ==> g.archives && g.verifies)
    ensures Sound(log) && NothingRemoved(log) && Removals(log, true) == Removals(log, false) == 0
    ensures ok ==> Follows(log, RunRecorded(names))
    ensures log == (if names == {} || !g.archives then []
                    else if !g.verifies then [ArchiveCreated(names)]
                    else [ArchiveCreated(names), ArchiveVerified(names)])
  {
    ok, log := names == {} || (g.archives && g.verifies), [];
    if names == {} || !g.archives {
      return;
    }
    log := Took(log, ArchiveCreated(names));
    if g.verifies {
      log := Took(log, ArchiveVerified(names));
    }
  }

  /** Archive, record the run, check again what is in use, and load the policy again. */
  method Prepare(picked: seq<Choice>, g: Gates) returns (ok: bool, ghost log: Log)
    ensures ok <==>
              && ((exists i :: 0 <= i < |picked| && !picked[i].entry.regenerable) ==> g.archives && g.verifies)
              && g.opens && g.records && g.rechecks && g.policy.Some? && g.configured
    ensures ok <==> Passes(g, Archiving(picked))
    ensures Sound(log) && NothingRemoved(log) && Removals(log, true) == Removals(log, false) == 0
    ensures ok ==> Ready(log, g.policy.value, ArchivedNames(picked))
    // Each step is taken if and only if those before it worked.
    ensures var names := ArchivedNames(picked);
            && (ArchiveCreated(names) in log <==> names != {} && g.archives)
            && (ArchiveVerified(names) in log <==> names != {} && g.archives && g.verifies)
            && (RunRecorded(names) in log <==> (names != {} ==> g.archives && g.verifies) && g.opens && g.records)
            && (InUseRechecked in log <==> RunRecorded(names) in log && g.rechecks)
            && (g.policy.Some? ==> (PolicyLoaded(g.policy.value) in log <==> InUseRechecked in log))
  {
    var names := ArchivedNames(picked);
    NamesWhenArchiving(picked);
    ok, log := Archive(names, g);
    if !ok || !g.opens || !g.records {
      ok := false;
      return;
    }
    log := Took(log, RunRecorded(names));
    if !g.rechecks {
      ok := false;
      return;
    }
    log := Took(log, InUseRechecked);
    if g.policy.None? {
      ok := false;
      return;
    }
    log := Took(log, PolicyLoaded(g.policy.value));
    ok := g.configured;
  }

  /** What one candidate adds to the log. */
  function Steps(p: Policy, e: Entry): seq<Event> {
    if !Cleared(p, e) then []
    else if !e.fate.removes then [Removing(e)]
    else if !e.fate.receipted then [Removing(e), Removed(e)]
    else [Removing(e), Removed(e), ReceiptRecorded(e)]
  }

  /** One candidate, after everything has been recorded. */
  method Remove(p: Policy, e: Entry, ghost names: set<string>, ghost past: Log) returns (status: Status, ghost log: Log)
    requires Ready(past, p, names) && (!e.regenerable ==> e.name in names)
    ensures status == Resolve(p, e) && log == past + Steps(p, e)
    ensures Ready(log, p, names)
    ensures Removals(log, true) == Removals(past, true) + One(status == Archived)
    ensures Removals(log, false) == Removals(past, false) + One(status == Deleted)
  {
    hide Ready, Removals;
    log := past;
    if Refuses(p, e.name, e.regenerable) || e.fate.inUse || e.fate.changed || e.fate.idle < IdleFor(p, e.name) {
      return Kept, log;
    }
    log := Began(p, e, names, log);
    if !e.fate.removes {
      return Failed, log;
    }
    log := Went(p, e, names, log);
    status := if e.regenerable then Deleted else Archived;
    if e.fate.receipted {
      log := Receipted(p, e, names, log);
    }
  }

  lemma Receipted(p: Policy, e: Entry, names: set<string>, past: Log) returns (log: Log)
    requires Ready(past, p, names) && Removed(e) in past && e.fate.receipted
    ensures Ready(log, p, names) && log == past + [ReceiptRecorded(e)]
    ensures Removals(log, true) == Removals(past, true) && Removals(log, false) == Removals(past, false)
  {
    ReadyOn(past, p, names, ReceiptRecorded(e));
    log := past + [ReceiptRecorded(e)];
  }

  lemma Began(p: Policy, e: Entry, names: set<string>, past: Log) returns (log: Log)
    requires Ready(past, p, names) && (!e.regenerable ==> e.name in names) && Cleared(p, e)
    ensures Ready(log, p, names) && log == past + [Removing(e)]
    ensures Removals(log, true) == Removals(past, true) && Removals(log, false) == Removals(past, false)
  {
    ReadyOn(past, p, names, Removing(e));
    log := past + [Removing(e)];
  }

  lemma Went(p: Policy, e: Entry, names: set<string>, past: Log) returns (log: Log)
    requires Ready(past, p, names) && Removing(e) in past && e.fate.removes
    ensures Ready(log, p, names) && log == past + [Removed(e)] && Removed(e) in log
    ensures Removals(log, true) == Removals(past, true) + One(!e.regenerable)
    ensures Removals(log, false) == Removals(past, false) + One(e.regenerable)
  {
    ReadyOn(past, p, names, Removed(e));
    log := past + [Removed(e)];
  }

  /** Of the entries picked, those that are cleared are begun, and those of them that can be are removed and receipted. */
  ghost predicate Carried(log: Log, picked: seq<Choice>, p: Policy) {
    forall e ::
      && (Removing(e) in log <==> Cleared(p, e) && Among(picked, e))
      && (Removed(e) in log <==> Removing(e) in log && e.fate.removes)
      && (ReceiptRecorded(e) in log <==> Removed(e) in log && e.fate.receipted)
  }

  lemma CarriedOn(log: Log, picked: seq<Choice>, i: nat, p: Policy)
    requires i < |picked| && Carried(log, picked[..i], p)
    ensures Carried(log + Steps(p, picked[i].entry), picked[..i + 1], p)
  {
    var x := picked[i].entry;
    var (longer, now) := (log + Steps(p, x), picked[..i + 1]);
    assert forall v :: v in longer <==> v in log || v in Steps(p, x);
    forall e
      ensures Removing(e) in longer <==> Cleared(p, e) && Among(now, e)
      ensures Removed(e) in longer <==> Removing(e) in longer && e.fate.removes
      ensures ReceiptRecorded(e) in longer <==> Removed(e) in longer && e.fate.receipted
    {
      AmongOn(picked, i, e);
    }
  }

  ghost predicate Among(picked: seq<Choice>, e: Entry) {
    exists i :: 0 <= i < |picked| && picked[i].entry == e
  }

  lemma AmongOn(picked: seq<Choice>, i: nat, e: Entry)
    requires i < |picked|
    ensures Among(picked[..i + 1], e) <==> Among(picked[..i], e) || e == picked[i].entry
  {
    var now := picked[..i + 1];
    assert now[i].entry == picked[i].entry && forall j :: 0 <= j < i ==> now[j] == picked[..i][j];
  }

  /** The candidates' items are those of the outcomes, up to an index. */
  ghost predicate Decided(cs: seq<Candidate>, picked: seq<Choice>, finals: seq<Item>, i: nat) {
    |cs| == |picked| == |finals| && i <= |cs|
    && (forall j :: 0 <= j < i ==> cs[j].item == finals[j])
    && (forall j :: i <= j < |cs| ==> cs[j].item == picked[j].item)
  }

  /** The deletions, one by one. */
  method DeleteSelected(r: Report, cs: seq<Candidate>, picked: seq<Choice>, g: Gates, ghost noted: seq<Item>, ghost past: Log)
      returns (ds: seq<Candidate>, ghost log: Log)
    requires Accounts(r, noted, cs) && Follow(cs, picked) && Passes(g, Archiving(picked))
    requires Ready(past, g.policy.value, ArchivedNames(picked)) && Removals(past, true) == Removals(past, false) == 0
    requires NothingRemoved(past)
    modifies r
    ensures Accounts(r, noted, ds) && Decided(ds, picked, Finals(picked, g, false, Archiving(picked)), |ds|)
    ensures Sound(log) && past <= log && Carried(log, picked, g.policy.value)
    ensures Removals(log, true) == Count(Archived, Finals(picked, g, false, Archiving(picked)))
    ensures Removals(log, false) == Count(Deleted, Finals(picked, g, false, Archiving(picked)))
  {
    hide Accounts, Removals, Finals, ArchivedNames, Resolve, Carried;
    CarriesNothing(past, picked, g.policy.value);
    ds, log := cs, past;
    ghost var names, finals := ArchivedNames(picked), Finals(picked, g, false, Archiving(picked));
    FinalsAreOfEach(picked, g, false, Archiving(picked));
    var i := 0;
    while i < |picked|
      invariant 0 <= i <= |picked| && Accounts(r, noted, ds) && Decided(ds, picked, finals, i)
      invariant Deleting(log, past, g.policy.value, names, finals[..i], picked[..i])
    {
      NamedIfArchived(picked, i);
      ds, log := DeleteOne(r, ds, picked, i, g.policy.value, names, noted, finals, past, log);
      i := i + 1;
    }
    assert finals[..i] == finals && picked[..i] == picked;
  }

  lemma CarriesNothing(past: Log, picked: seq<Choice>, p: Policy)
    requires NothingRemoved(past)
    ensures Carried(past, picked[..0], p)
  {
  }

  /** What the deletions up to some outcomes have done. */
  ghost predicate Deleting(log: Log, past: Log, p: Policy, names: set<string>, done: seq<Item>, tried: seq<Choice>) {
    && Ready(log, p, names) && past <= log && Carried(log, tried, p)
    && Removals(log, true) == Count(Archived, done) && Removals(log, false) == Count(Deleted, done)
  }

  lemma NamedIfArchived(picked: seq<Choice>, i: nat)
    requires i < |picked|
    ensures !picked[i].entry.regenerable ==> picked[i].entry.name in ArchivedNames(picked)
  {
  }

  method DeleteOne(r: Report, cs: seq<Candidate>, picked: seq<Choice>, i: nat, p: Policy, ghost names: set<string>,
                   ghost noted: seq<Item>, ghost finals: seq<Item>, ghost past: Log, ghost before: Log)
      returns (ds: seq<Candidate>, ghost log: Log)
    requires Accounts(r, noted, cs) && Decided(cs, picked, finals, i) && i < |picked|
    requires Deleting(before, past, p, names, finals[..i], picked[..i])
    requires !picked[i].entry.regenerable ==> picked[i].entry.name in names
    requires finals[i] == picked[i].item.(status := Resolve(p, picked[i].entry))
    modifies r
    ensures Accounts(r, noted, ds) && Decided(ds, picked, finals, i + 1)
    ensures Deleting(log, past, p, names, finals[..i + 1], picked[..i + 1])
  {
    hide Carried, Steps;
    CarriedOn(before, picked, i, p);
    var status;
    status, log := Remove(p, picked[i].entry, names, before);
    ds := Decide(r, cs, i, status, noted);
    assert finals[..i + 1] == finals[..i] + [finals[i]];
    CountLast(Archived, finals[..i], finals[i]);
    CountLast(Deleted, finals[..i], finals[i]);
  }

  /** failAll. */
  method FailAll(r: Report, cs: seq<Candidate>, picked: seq<Choice>, g: Gates, ghost noted: seq<Item>) returns (ds: seq<Candidate>)
    requires Accounts(r, noted, cs) && Follow(cs, picked) && !Passes(g, Archiving(picked))
    modifies r
    ensures Accounts(r, noted, ds) && Decided(ds, picked, Finals(picked, g, false, Archiving(picked)), |ds|)
  {
    ds := cs;
    ghost var finals := Finals(picked, g, false, Archiving(picked));
    FinalsAreOfEach(picked, g, false, Archiving(picked));
    var i := 0;
    while i < |picked|
      invariant 0 <= i <= |picked| && Accounts(r, noted, ds) && Decided(ds, picked, finals, i)
    {
      ds := Decide(r, ds, i, Failed, noted);
      i := i + 1;
    }
  }

  lemma {:induction false} EarlyDeletesNothing(world: seq<Entry>, st: Status)
    requires st != Kept && st != Skipped
    ensures Count(st, EarlyItems(world)) == 0
  {
    if world != [] {
      EarlyDeletesNothing(world[1..], st);
      if Early(world[0]).Some? {
        CountAppends(st, [Early(world[0]).value], EarlyItems(world[1..]));
        assert [Early(world[0]).value][1..] == [];
      } else {
        assert [] + EarlyItems(world[1..]) == EarlyItems(world[1..]);
      }
    }
  }

  /** The status of a choice says whether it is a candidate. */
  ghost predicate Labelled(cs: seq<Choice>) {
    cs == [] || (LabelledOne(cs[0]) && Labelled(cs[1..]))
  }

  ghost predicate LabelledOne(c: Choice) {
    if c.candidate then c.item.status == WouldArchive || c.item.status == WouldDelete
    else c.item.status == Kept || c.item.status == Deferred
  }

  lemma {:induction false} SelectLabels(found: seq<Entry>, l: Limits, total: nat, receipt: nat)
    ensures Labelled(Select(found, l, total, receipt))
  {
    if found != [] {
      var c := Choose(found[0], l, total, receipt);
      var rest := Select(found[1..], l, total + BytesOf(c), receipt + ReceiptOf(c));
      SelectLabels(found[1..], l, total + BytesOf(c), receipt + ReceiptOf(c));
      assert ([c] + rest)[1..] == rest;
    }
  }

  lemma {:induction false} ReportedDeletesNothing(cs: seq<Choice>, st: Status)
    requires Labelled(cs) && st != Kept && st != Deferred
    ensures Count(st, Reported(cs)) == 0
  {
    if cs != [] {
      ReportedDeletesNothing(cs[1..], st);
      if cs[0].candidate {
        assert [] + Reported(cs[1..]) == Reported(cs[1..]);
      } else {
        CountAppends(st, [cs[0].item], Reported(cs[1..]));
        assert [cs[0].item][1..] == [];
      }
    }
  }

  /** Only what was removed is counted as archived or deleted. */
  lemma DeletedAreFinals(world: seq<Entry>, l: Limits, receipt: nat, g: Gates, dryRun: bool, st: Status)
    requires st == Archived || st == Deleted
    ensures var cs := Removable(Select(Sort(Found(world)), l, 0, receipt));
            Count(st, Outcomes(world, l, receipt, g, dryRun)) == Count(st, Finals(cs, g, dryRun, Archiving(cs)))
  {
    var choices := Select(Sort(Found(world)), l, 0, receipt);
    var cs := Removable(choices);
    EarlyDeletesNothing(world, st);
    SelectLabels(Sort(Found(world)), l, 0, receipt);
    ReportedDeletesNothing(choices, st);
    CountAppends(st, EarlyItems(world) + Reported(choices), Finals(cs, g, dryRun, Archiving(cs)));
    CountAppends(st, EarlyItems(world), Reported(choices));
  }

  lemma {:induction false} UndeletedFinals(cs: seq<Choice>, g: Gates, dryRun: bool, archiving: bool, st: Status)
    requires Labelled(cs) && (st == Archived || st == Deleted) && (dryRun || !Passes(g, archiving))
    ensures Count(st, Finals(Removable(cs), g, dryRun, archiving)) == 0
  {
    if cs != [] {
      UndeletedFinals(cs[1..], g, dryRun, archiving, st);
      if cs[0].candidate {
        assert ([cs[0]] + Removable(cs[1..]))[1..] == Removable(cs[1..]);
      } else {
        assert [] + Removable(cs[1..]) == Removable(cs[1..]);
      }
    }
  }

  // ---------------------------------------------------------------- the whole run

  /**
   * scratchCleanup. Whatever the listing bound, the counters are those of the outcomes of every name,
   * and each name is listed or counted as unlisted. The log orders what the run does; nothing is
   * removed in a preview, nor when any step before the first deletion fails.
   */
  method Clean(world: seq<Entry>, l: Limits, base: nat, g: Gates, dryRun: bool, listedMax: nat) returns (r: Report, ghost log: Log)
    ensures fresh(r) && r.Valid() && |r.items| <= listedMax
    ensures r.Shown() == Tally(Outcomes(world, l, base, g, dryRun))
    ensures |r.items| + r.unlisted == |world|
    ensures r.archived + r.deleted + r.wouldArchive + r.wouldDelete + r.kept + r.skipped + r.deferred + r.failed == |world|
    ensures Sound(log)
    // What is begun, removed and receipted is exactly what was selected and is cleared, if every gate opened.
    ensures var picked := Removable(Select(Sort(Found(world)), l, 0, base));
            if !dryRun && Passes(g, Archiving(picked)) then Carried(log, picked, g.policy.value) else NothingRemoved(log)
    ensures forall e :: Removing(e) in log ==> e in world && !e.skipped && !e.first.keep
    ensures r.archived == Removals(log, true) && r.deleted == Removals(log, false)
  {
    r := new Report(listedMax);
    assert r.hidden + r.items == [] && ItemsOf([], true) == [];
    var found;
    ghost var noted;
    found, noted := Observe(r, world);
    var cs, picked;
    cs, picked := SelectEntries(r, Sort(found), l, base, noted);
    noted := noted + Reported(Select(Sort(found), l, 0, base));
    ghost var finals := Finals(picked, g, dryRun, Archiving(picked));
    cs, log := Act(r, cs, picked, g, dryRun, noted);
    SettledIsAlike(r.hidden, r.items, noted, cs, finals);
    ghost var outcomes := Outcomes(world, l, base, g, dryRun);
    assert outcomes == noted + finals;
    r.Settle(cs);
    AlikeTallies(r.hidden + r.items, outcomes);
    OutcomesAreOfEach(world, l, base, g, dryRun);
    EightStatuses(outcomes);
    DeletedAreFinals(world, l, base, g, dryRun, Archived);
    DeletedAreFinals(world, l, base, g, dryRun, Deleted);
    Undeleted(Sort(found), l, base, g, dryRun);
    CarriedAreFree(world, l, base, picked);
  }

  lemma CarriedAreFree(world: seq<Entry>, l: Limits, base: nat, picked: seq<Choice>)
    requires picked == Removable(Select(Sort(Found(world)), l, 0, base))
    ensures forall i :: 0 <= i < |picked| ==>
              picked[i].entry in world && !picked[i].entry.skipped && !picked[i].entry.first.keep
  {
    RemovableAreFound(Sort(Found(world)), l, 0, base);
    SortIsStable(Found(world), 0);
    FoundAreFree(world);
    forall i | 0 <= i < |picked| ensures picked[i].entry in Found(world) {
      assert picked[i] in picked;
    }
  }

  lemma Undeleted(found: seq<Entry>, l: Limits, base: nat, g: Gates, dryRun: bool)
    ensures var picked := Removable(Select(found, l, 0, base));
            dryRun || !Passes(g, Archiving(picked)) ==>
              Count(Archived, Finals(picked, g, dryRun, Archiving(picked))) == Count(Deleted, Finals(picked, g, dryRun, Archiving(picked))) == 0
  {
    var choices := Select(found, l, 0, base);
    var archiving := Archiving(Removable(choices));
    SelectLabels(found, l, 0, base);
    if dryRun || !Passes(g, archiving) {
      UndeletedFinals(choices, g, dryRun, archiving, Archived);
      UndeletedFinals(choices, g, dryRun, archiving, Deleted);
    }
  }

  /** What follows the selection. */
  method Act(r: Report, cs: seq<Candidate>, picked: seq<Choice>, g: Gates, dryRun: bool, ghost noted: seq<Item>)
      returns (ds: seq<Candidate>, ghost log: Log)
    requires Accounts(r, noted, cs) && Follow(cs, picked)
    modifies r
    ensures Accounts(r, noted, ds) && Decided(ds, picked, Finals(picked, g, dryRun, Archiving(picked)), |ds|)
    ensures Sound(log)
    ensures !dryRun && Passes(g, Archiving(picked)) ==> Carried(log, picked, g.policy.value)
    ensures dryRun || !Passes(g, Archiving(picked)) ==> NothingRemoved(log) && Removals(log, true) == Removals(log, false) == 0
    ensures !dryRun && Passes(g, Archiving(picked)) ==>
              && Removals(log, true) == Count(Archived, Finals(picked, g, false, Archiving(picked)))
              && Removals(log, false) == Count(Deleted, Finals(picked, g, false, Archiving(picked)))
  {
    if dryRun {
      FinalsAreOfEach(picked, g, true, Archiving(picked));
      return cs, [];
    }
    var ok;
    ok, log := Prepare(picked, g);
    if ok {
      ds, log := DeleteSelected(r, cs, picked, g, noted, log);
    } else {
      ds := FailAll(r, cs, picked, g, noted);
    }
  }
}

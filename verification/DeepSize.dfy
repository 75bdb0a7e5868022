// Sizing a directory tree within an entry and a depth budget (internal/collect/deepsize.go).
module DeepSize {
  import opened Wrappers
  import opened Paths

  type Time = int

  /** The zero time.Time, before every modification time that counts. */
  const ZERO: Time := 0

  /**
   * A name in a directory. Missing is one that Lstat fails on. Listing a directory yields the
   * listed names; broken says that it then failed, without having yielded the hidden ones.
   */
  datatype Node =
    | Missing(name: string, size: nat)
    | File(name: string, size: nat, modified: Time, regular: bool)
    | Dir(name: string, size: nat, modified: Time, device: Option<nat>, listed: seq<Node>, hidden: seq<Node>, broken: bool)

  /** Bytes of everything in a directory. */
  ghost function Whole(ns: seq<Node>): nat
    decreases ns
  {
    if ns == [] then 0
    else ns[0].size + (if ns[0].Dir? then Whole(ns[0].listed) + Whole(ns[0].hidden) else 0) + Whole(ns[1..])
  }

  /** Bytes of everything that listing and Lstat show. */
  ghost function Shown(ns: seq<Node>): nat
    decreases ns
  {
    if ns == [] then 0 else ShownOne(ns[0]) + Shown(ns[1..])
  }

  ghost function ShownOne(n: Node): nat
    decreases n
  {
    match n
    case Missing(_, _) => 0
    case File(_, size, _, _) => size
    case Dir(_, size, _, _, listed, _, _) => size + Shown(listed)
  }

  ghost function Names(ns: seq<Node>): nat
    decreases ns
  {
    if ns == [] then 0 else NamesOne(ns[0]) + Names(ns[1..])
  }

  ghost function NamesOne(n: Node): nat
    decreases n
  {
    1 + if n.Dir? then Names(n.listed) else 0
  }

  // ---------------------------------------------------------------- Git directories

  /** What Lstat of one name in a directory finds. */
  function Find(ns: seq<Node>, name: string): Option<Node> {
    if ns == [] then None else if ns[0].name == name then Some(ns[0]) else Find(ns[1..], name)
  }

  predicate RegularIn(ns: seq<Node>, name: string) {
    var found := Find(ns, name);
    found.Some? && found.value.File? && found.value.regular
  }

  /** isGitDir. */
  predicate IsGitDir(n: Node)
    requires n.Dir?
  {
    var all := n.listed + n.hidden;
    RegularIn(all, "HEAD") && ((Find(all, "objects").Some? && Find(all, "objects").value.Dir?) || RegularIn(all, "commondir"))
  }

  /** A regular file HEAD, and a directory of objects or a regular file commondir. */
  lemma IsGitDirExactlyWhen(n: Node)
    requires n.Dir?
    requires forall i, j :: 0 <= i < j < |n.listed + n.hidden| ==> (n.listed + n.hidden)[i].name != (n.listed + n.hidden)[j].name
    ensures IsGitDir(n) <==>
              && (exists h :: h in n.listed + n.hidden && h.name == "HEAD" && h.File? && h.regular)
              && ((exists o :: o in n.listed + n.hidden && o.name == "objects" && o.Dir?)
                  || exists c :: c in n.listed + n.hidden && c.name == "commondir" && c.File? && c.regular)
  {
    var all := n.listed + n.hidden;
    FindsTheOne(all, "HEAD");
    FindsTheOne(all, "objects");
    FindsTheOne(all, "commondir");
  }

  lemma {:induction false} FindsTheOne(ns: seq<Node>, name: string)
    requires forall i, j :: 0 <= i < j < |ns| ==> ns[i].name != ns[j].name
    ensures forall n :: n in ns && n.name == name ==> Find(ns, name) == Some(n)
    ensures Find(ns, name).Some? ==> Find(ns, name).value in ns && Find(ns, name).value.name == name
  {
    if ns != [] {
      FindsTheOne(ns[1..], name);
      assert ns == [ns[0]] + ns[1..];
    }
  }

  /** The parts of a path relative to the Git directory it is in. */
  type Parts = seq<string>

  const GIT_BOOKKEEPING: set<Parts> :=
    {["index"], ["index.lock"], ["FETCH_HEAD"], ["ORIG_HEAD"], ["logs"], ["objects"], ["packed-refs"], ["shallow"],
     ["refs", "remotes"]}

  /** bookkeeping: the path and each of its parents are looked up. */
  method Bookkeeping(rel: Parts) returns (r: bool)
    ensures r <==> IsBookkeeping(rel)
  {
    var p := rel;
    while p != []
      invariant |p| <= |rel| && p == rel[..|p|]
      invariant forall i :: |p| < i <= |rel| ==> rel[..i] !in GIT_BOOKKEEPING
      decreases |p|
    {
      if p in GIT_BOOKKEEPING {
        return true;
      }
      p := p[..|p| - 1];
    }
    r := rel == [] || rel == ["refs"];
  }

  ghost predicate IsBookkeeping(rel: Parts) {
    rel == [] || rel == ["refs"] || exists i :: 0 < i <= |rel| && rel[..i] in GIT_BOOKKEEPING
  }

  /** What read-only Git commands rewrite, told by the first names of a path; commits, branches and tags are not among it. */
  lemma GitRewrites(rel: Parts)
    ensures IsBookkeeping(rel) <==>
              || rel == [] || rel == ["refs"]
              || rel[0] in {"index", "index.lock", "FETCH_HEAD", "ORIG_HEAD", "logs", "objects", "packed-refs", "shallow"}
              || (rel[0] == "refs" && rel[1] == "remotes")
  {
    if |rel| >= 1 {
      assert rel[..1] == [rel[0]];
    }
    if |rel| >= 2 {
      assert rel[..2] == [rel[0], rel[1]];
    }
    forall i | 0 < i <= |rel| && rel[..i] in GIT_BOOKKEEPING ensures i <= 2 {
      assert |rel[..i]| == i;
    }
  }

  /** Where a child is, relative to its enclosing Git directory. */
  function Inside(git: Option<Parts>, n: Node): Option<Parts> {
    match git
    case None => if n.name == ".git" && n.Dir? then Some([]) else None
    case Some(rel) => if n.Dir? && IsGitDir(n) then Some([]) else Some(rel + [n.name])
  }

  ghost predicate Counts(git: Option<Parts>, n: Node) {
    Inside(git, n).None? || !IsBookkeeping(Inside(git, n).value)
  }

  /** The time of a name counts unless it is a Git directory itself or what Git rewrites in one. */
  lemma CountedExactlyWhen(n: Node, rel: Parts)
    ensures Counts(None, n) <==> !(n.name == ".git" && n.Dir?)
    ensures Counts(Some(rel), n) <==> !(n.Dir? && IsGitDir(n)) && !IsBookkeeping(rel + [n.name])
  {
  }

  /** The modification times that are not Git bookkeeping. */
  ghost function Times(ns: seq<Node>, git: Option<Parts>): set<Time>
    decreases ns
  {
    if ns == [] then {} else TimesOne(ns[0], git) + Times(ns[1..], git)
  }

  ghost function TimesOne(n: Node, git: Option<Parts>): set<Time>
    decreases n
  {
    if n.Missing? then {}
    else (if Counts(git, n) then {n.modified} else {}) + if n.Dir? then Times(n.listed, Inside(git, n)) else {}
  }

  ghost predicate IsNewest(t: Time, start: Time, times: set<Time>) {
    (t == start || t in times) && start <= t && forall x :: x in times ==> x <= t
  }

  lemma NewestAccumulates(start: Time, a: set<Time>, t: Time, b: set<Time>, u: Time)
    requires IsNewest(t, start, a) && IsNewest(u, t, b)
    ensures IsNewest(u, start, a + b)
  {
  }

  // ---------------------------------------------------------------- listing

  /** sort.Strings, on names that are distinct. */
  function Insert(n: Node, s: seq<Node>): seq<Node> {
    if s == [] || !Before(s[0].name, n.name) then [n] + s else [s[0]] + Insert(n, s[1..])
  }

  function Sort(s: seq<Node>): seq<Node> {
    if s == [] then [] else Insert(s[0], Sort(s[1..]))
  }

  ghost predicate InOrder(s: seq<Node>) {
    forall i, j :: 0 <= i < j < |s| ==> !Before(s[j].name, s[i].name)
  }

  lemma {:induction false} InsertOrders(n: Node, s: seq<Node>)
    requires InOrder(s)
    ensures InOrder(Insert(n, s)) && multiset(Insert(n, s)) == multiset{n} + multiset(s)
  {
    if s == [] || !Before(s[0].name, n.name) {
      forall j | 0 <= j < |s| ensures !Before(s[j].name, n.name) {
        if Before(s[j].name, n.name) && j > 0 {
          BeforeIsTotal(s[0].name, s[j].name);
          BeforeIsTransitive(s[0].name, s[j].name, n.name);
        }
      }
    } else {
      var rest := Insert(n, s[1..]);
      InsertOrders(n, s[1..]);
      assert s == [s[0]] + s[1..];
      forall j | 0 <= j < |rest| ensures !Before(rest[j].name, s[0].name) {
        assert rest[j] in multiset(rest);
        BeforeIsTotal(s[0].name, n.name);
        if rest[j] != n {
          assert rest[j] in s[1..];
        }
      }
    }
  }

  /** The same nodes, in the order of their names. */
  lemma {:induction false} SortOrders(s: seq<Node>)
    ensures InOrder(Sort(s)) && multiset(Sort(s)) == multiset(s)
  {
    if s != [] {
      SortOrders(s[1..]);
      InsertOrders(s[0], Sort(s[1..]));
      assert s == [s[0]] + s[1..];
    }
  }

  // ---------------------------------------------------------------- the walk

  datatype Bounds = Bounds(crossFilesystem: bool, device: nat, maxDepth: int)

  /** Lstat, listing, the mount check and the depth limit all pass on everything in a directory. */
  ghost predicate Observable(dir: Node, bounds: Bounds, depth: int)
    requires dir.Dir?
    decreases dir, 0
  {
    && depth <= bounds.maxDepth
    && !(dir.broken && dir.listed == [])
    && AllObservable(dir.listed, bounds, depth)
  }

  ghost predicate AllObservable(ns: seq<Node>, bounds: Bounds, depth: int)
    decreases ns
  {
    ns == [] || (ObservableOne(ns[0], bounds, depth) && AllObservable(ns[1..], bounds, depth))
  }

  ghost predicate ObservableOne(n: Node, bounds: Bounds, depth: int)
    decreases n, 1
  {
    && !n.Missing?
    && (n.Dir? ==> (n.device == Some(bounds.device) || n.device == None || bounds.crossFilesystem)
                   && Observable(n, bounds, depth + 1))
  }

  /** A node k levels below a directory, through what listing shows. */
  ghost predicate At(top: Node, n: Node, k: nat)
    decreases k
  {
    if k == 0 then n == top else top.Dir? && exists c :: c in top.listed && At(c, n, k - 1)
  }

  /** A place that keeps nothing from being observed. */
  ghost predicate Open(n: Node, k: nat, bounds: Bounds, depth: int) {
    && !n.Missing?
    && (n.Dir? ==> && depth + k <= bounds.maxDepth && (n.broken ==> n.listed != [])
                   && (k > 0 && !bounds.crossFilesystem && n.device.Some? ==> n.device.value == bounds.device))
  }

  ghost predicate AllOpen(top: Node, bounds: Bounds, depth: int) {
    forall n, k: nat :: At(top, n, k) ==> Open(n, k, bounds, depth)
  }

  lemma {:induction false} MembersObservable(ns: seq<Node>, bounds: Bounds, depth: int)
    ensures AllObservable(ns, bounds, depth) <==> forall n :: n in ns ==> ObservableOne(n, bounds, depth)
  {
    if ns != [] {
      MembersObservable(ns[1..], bounds, depth);
      assert ns == [ns[0]] + ns[1..] && ns[0] in ns;
      assert forall n :: n in ns <==> n == ns[0] || n in ns[1..];
    }
  }

  /** A directory can be observed if and only if every place in it is open: no name is lost, no listing
      fails outright, none is too deep or behind a mount boundary. */
  lemma {:induction false} ObservableExactlyWhen(dir: Node, bounds: Bounds, depth: int)
    requires dir.Dir?
    ensures Observable(dir, bounds, depth) <==> AllOpen(dir, bounds, depth)
    decreases dir
  {
    MembersObservable(dir.listed, bounds, depth);
    forall c | c in dir.listed && c.Dir?
      ensures Observable(c, bounds, depth + 1) <==> AllOpen(c, bounds, depth + 1)
    {
      ObservableExactlyWhen(c, bounds, depth + 1);
    }
    if Observable(dir, bounds, depth) {
      forall n, k: nat | At(dir, n, k) ensures Open(n, k, bounds, depth) {
        if k > 0 {
          PlaceIsOpen(dir, n, k, bounds, depth);
        }
      }
    }
    if AllOpen(dir, bounds, depth) {
      assert At(dir, dir, 0);
      forall c | c in dir.listed ensures ObservableOne(c, bounds, depth) {
        ChildIsOpen(dir, c, bounds, depth);
      }
    }
  }

  lemma PlaceIsOpen(dir: Node, n: Node, k: nat, bounds: Bounds, depth: int)
    requires dir.Dir? && k > 0 && At(dir, n, k) && forall c :: c in dir.listed ==> ObservableOne(c, bounds, depth)
    requires forall c :: c in dir.listed && c.Dir? ==> AllOpen(c, bounds, depth + 1)
    ensures Open(n, k, bounds, depth)
  {
    var c :| c in dir.listed && At(c, n, k - 1);
    assert c.Dir? ==> Open(n, k - 1, bounds, depth + 1);
    assert k > 1 ==> c.Dir?;
  }

  lemma ChildIsOpen(dir: Node, c: Node, bounds: Bounds, depth: int)
    requires dir.Dir? && c in dir.listed && AllOpen(dir, bounds, depth)
    requires c.Dir? ==> (Observable(c, bounds, depth + 1) <==> AllOpen(c, bounds, depth + 1))
    ensures ObservableOne(c, bounds, depth)
  {
    assert At(c, c, 0) && At(dir, c, 1);
    assert Open(c, 1, bounds, depth);
    if c.Dir? {
      forall n, k: nat | At(c, n, k) ensures Open(n, k, bounds, depth + 1) {
        assert At(dir, n, k + 1);
        assert Open(n, k + 1, bounds, depth);
      }
    }
  }

  /** Bytes of what a walk may look at: not below the depth limit, nor behind a mount boundary. */
  ghost function Reach(ns: seq<Node>, bounds: Bounds, depth: int): nat
    decreases ns, 0
  {
    if ns == [] then 0 else ReachOne(ns[0], bounds, depth) + Reach(ns[1..], bounds, depth)
  }

  ghost function ReachOne(n: Node, bounds: Bounds, depth: int): nat
    decreases n, 1
  {
    match n
    case Missing(_, _) => 0
    case File(_, size, _, _) => size
    case Dir(_, size, _, device, _, _, _) =>
      size + if device.Some? && device.value != bounds.device && !bounds.crossFilesystem then 0 else ReachIn(n, bounds, depth + 1)
  }

  ghost function ReachIn(dir: Node, bounds: Bounds, depth: int): nat
    requires dir.Dir?
    decreases dir, 0
  {
    if depth > bounds.maxDepth then 0 else Reach(dir.listed, bounds, depth)
  }

  lemma {:induction false} ReachIsShown(ns: seq<Node>, bounds: Bounds, depth: int)
    ensures Reach(ns, bounds, depth) <= Shown(ns) <= Whole(ns)
    decreases ns
  {
    WholeIsSeenOrNot(ns);
    if ns != [] {
      ReachIsShown(ns[1..], bounds, depth);
      if ns[0].Dir? {
        ReachIsShown(ns[0].listed, bounds, depth + 1);
        assert ReachIn(ns[0], bounds, depth + 1) <= Shown(ns[0].listed);
      }
      assert ReachOne(ns[0], bounds, depth) <= ShownOne(ns[0]);
    }
  }

  /** Where a walk stands. */
  datatype Tally = Tally(budget: int, visited: nat, bytes: nat, newest: Time, partial: bool, cancelled: bool)

  /** What some names hold within reach, and what of it can be seen. */
  datatype Content = Content(reach: nat, shown: nat, names: nat, times: set<Time>, observable: bool)

  /** The walk went from one tally to another over some names. */
  ghost predicate Walked(a: Tally, b: Tally, c: Content) {
    && 0 <= b.budget && b.budget + b.visited == a.budget + a.visited && a.visited <= b.visited
    && a.bytes <= b.bytes <= a.bytes + c.reach
    && (a.partial ==> b.partial) && (a.cancelled ==> b.cancelled)
    && (!b.partial ==> && b.bytes == a.bytes + c.shown
                       && b.visited == a.visited + c.names
                       && IsNewest(b.newest, a.newest, c.times)
                       && c.observable)
    && (!a.partial && c.observable && c.names <= a.budget && !b.cancelled ==> !b.partial)
    // Nothing but the budget stops it from meeting every name.
    && (c.observable && !b.cancelled ==> b.budget == if c.names >= a.budget then 0 else a.budget - c.names)
  }

  ghost function Both(c: Content, d: Content): Content {
    Content(c.reach + d.reach, c.shown + d.shown, c.names + d.names, c.times + d.times, c.observable && d.observable)
  }

  lemma WalkedOn(a: Tally, b: Tally, c: Content, t: Tally, d: Content)
    requires Walked(a, b, c) && Walked(b, t, d)
    ensures Walked(a, t, Both(c, d))
  {
    if !t.partial {
      NewestAccumulates(a.newest, c.times, b.newest, d.times, t.newest);
    }
  }

  /** Stopping early is fine when it is reported, and had to be. */
  lemma WalkedShort(a: Tally, b: Tally, c: Content, d: Content)
    requires (Walked(a, b, c) || Walked(a.(partial := true), b, c)) && b.partial && d.reach >= c.reach
    requires !a.partial && d.observable && d.names <= a.budget ==> b.cancelled
    requires d.observable && !b.cancelled ==> b.budget == if d.names >= a.budget then 0 else a.budget - d.names
    ensures Walked(a, b, d)
  {
  }

  ghost function ContentOf(ns: seq<Node>, git: Option<Parts>, bounds: Bounds, depth: int): Content {
    Content(Reach(ns, bounds, depth), Shown(ns), Names(ns), Times(ns, git), AllObservable(ns, bounds, depth))
  }

  /** What a directory holds, when a walk comes to it. */
  ghost function InContent(dir: Node, git: Option<Parts>, bounds: Bounds, depth: int): Content
    requires dir.Dir?
  {
    ContentOf(dir.listed, git, bounds, depth).(reach := ReachIn(dir, bounds, depth), observable := Observable(dir, bounds, depth))
  }

  ghost function ContentOfOne(n: Node, git: Option<Parts>, bounds: Bounds, depth: int): Content {
    Content(ReachOne(n, bounds, depth), ShownOne(n), NamesOne(n),
            TimesOne(n, git), ObservableOne(n, bounds, depth))
  }

  lemma {:induction false} InsertKeeps(n: Node, s: seq<Node>, git: Option<Parts>, bounds: Bounds, depth: int)
    ensures ContentOf(Insert(n, s), git, bounds, depth)
         == Both(ContentOfOne(n, git, bounds, depth), ContentOf(s, git, bounds, depth))
  {
    if s == [] || !Before(s[0].name, n.name) {
      ContentOfCons(n, s, git, bounds, depth);
    } else {
      InsertKeeps(n, s[1..], git, bounds, depth);
      ContentOfCons(s[0], Insert(n, s[1..]), git, bounds, depth);
      ContentOfCons(s[0], s[1..], git, bounds, depth);
      assert s == [s[0]] + s[1..];
    }
  }

  lemma {:induction false} SortKeeps(s: seq<Node>, git: Option<Parts>, bounds: Bounds, depth: int)
    ensures ContentOf(Sort(s), git, bounds, depth) == ContentOf(s, git, bounds, depth)
    ensures forall m :: m in Sort(s) ==> m in s
  {
    if s != [] {
      SortKeeps(s[1..], git, bounds, depth);
      InsertKeeps(s[0], Sort(s[1..]), git, bounds, depth);
      InsertMembers(s[0], Sort(s[1..]));
      ContentOfCons(s[0], s[1..], git, bounds, depth);
      assert s == [s[0]] + s[1..];
    }
  }

  lemma ContentOfCons(n: Node, s: seq<Node>, git: Option<Parts>, bounds: Bounds, depth: int)
    ensures ContentOf([n] + s, git, bounds, depth)
         == Both(ContentOfOne(n, git, bounds, depth), ContentOf(s, git, bounds, depth))
  {
    assert ([n] + s)[1..] == s;
  }

  lemma {:induction false} InsertMembers(n: Node, s: seq<Node>)
    ensures forall m :: m in Insert(n, s) ==> m == n || m in s
  {
    if s != [] {
      InsertMembers(n, s[1..]);
    }
  }

  lemma {:induction false} PrefixHolds(s: seq<Node>, i: nat, bounds: Bounds, depth: int)
    requires i <= |s|
    ensures Reach(s[..i], bounds, depth) <= Reach(s, bounds, depth) && i <= Names(s[..i]) <= Names(s)
    ensures AllObservable(s, bounds, depth) ==> AllObservable(s[..i], bounds, depth)
  {
    if i > 0 {
      assert s[..i][1..] == s[1..][..i - 1];
      PrefixHolds(s[1..], i - 1, bounds, depth);
    }
  }

  ghost function OwnContent(n: Node, git: Option<Parts>): Content
    requires !n.Missing?
  {
    Content(n.size, n.size, 1, if Counts(git, n) then {n.modified} else {}, true)
  }

  lemma OutOfBudget(a: Tally, b: Tally, c: Content, rest: Content)
    requires Walked(a, b, c) && b.budget <= 0 && rest.names > 0
    ensures Walked(a, b.(partial := true), Both(c, rest))
  {
  }

  /** Of a listing that is longer than the budget, a part is as good as the whole. */
  lemma CutShort(a: Tally, b: Tally, dir: Node, n: nat, git: Option<Parts>, bounds: Bounds, depth: int)
    requires dir.Dir? && a.budget < n <= |dir.listed| && depth <= bounds.maxDepth
    requires Walked(a.(partial := true), b, ContentOf(dir.listed[..n], git, bounds, depth))
    ensures Walked(a, b, InContent(dir, git, bounds, depth))
  {
    PrefixHolds(dir.listed, n, bounds, depth);
    WalkedShort(a, b, ContentOf(dir.listed[..n], git, bounds, depth), InContent(dir, git, bounds, depth));
  }

  lemma WalkedInside(a: Tally, b: Tally, c: Content, d: Content)
    requires Walked(a, b, c)
    requires c.reach <= d.reach && c.shown == d.shown && c.names == d.names && c.times == d.times && c.observable == d.observable
    ensures Walked(a, b, d)
  {
  }

  lemma NothingWalked(a: Tally)
    requires a.budget >= 0
    ensures Walked(a, a, Content(0, 0, 0, {}, true))
  {
  }

  lemma NoNames(git: Option<Parts>, bounds: Bounds, depth: int)
    ensures ContentOf([], git, bounds, depth) == Content(0, 0, 0, {}, true)
  {
  }

  lemma NamesLeft(order: seq<Node>, i: nat, git: Option<Parts>, bounds: Bounds, depth: int)
    requires i < |order|
    ensures ContentOf(order[i..], git, bounds, depth)
         == Both(ContentOfOne(order[i], git, bounds, depth), ContentOf(order[i + 1..], git, bounds, depth))
    ensures ContentOf(order[i..], git, bounds, depth).names > 0
  {
    assert order[i..] == [order[i]] + order[i + 1..];
    ContentOfCons(order[i], order[i + 1..], git, bounds, depth);
  }

  lemma IsSmaller(dir: Node, n: Node)
    requires dir.Dir? && n in dir.listed
    ensures n < dir
  {
  }

  class SizeSum {
    const bounds: Bounds
    /** Whether the run is never cancelled. */
    const steady: bool
    var budget: int
    var bytes: nat
    var visited: nat
    var newest: Time
    var limited: bool
    var blind: bool
    var failures: nat
    ghost var cancelled: bool

    constructor (bounds: Bounds, steady: bool, budget: int, newest: Time)
      ensures this.bounds == bounds && this.steady == steady && !Partial() && Now() == Tally(budget, 0, 0, newest, false, false)
    {
      this.bounds, this.steady, this.budget, this.newest := bounds, steady, budget, newest;
      bytes, visited, limited, blind, failures, cancelled := 0, 0, false, false, 0, false;
    }

    predicate Partial()
      reads this
    {
      limited || blind || failures > 0
    }

    ghost function Now(): Tally
      reads this
    {
      Tally(budget, visited, bytes, newest, Partial(), cancelled)
    }

    /** walkIn: the names in one directory. git is where it lies in its Git directory. */
    method WalkIn(dir: Node, depth: int, git: Option<Parts>)
      requires dir.Dir? && budget >= 0
      modifies this
      ensures Walked(old(Now()), Now(), InContent(dir, git, bounds, depth))
      ensures steady ==> cancelled == old(cancelled)
      decreases dir, 1
    {
      var interrupted := *;
      if interrupted && !steady {
        cancelled, blind := true, true;
        return;
      }
      if depth > bounds.maxDepth {
        limited := true;
        return;
      }
      if dir.broken && dir.listed == [] {
        failures := failures + 1;
        return;
      }
      var names := dir.listed;
      if |names| > budget + 1 {
        names := names[..budget + 1];
        ghost var before := Now();
        limited := true;
        SortKeeps(names, git, bounds, depth);
        WalkNames(dir, Sort(names), depth, git);
        CutShort(before, Now(), dir, |names|, git, bounds, depth);
      } else {
        SortKeeps(names, git, bounds, depth);
        WalkNames(dir, Sort(names), depth, git);
      }
    }

    /** The names of one listing, in order. */
    method WalkNames(ghost dir: Node, order: seq<Node>, depth: int, git: Option<Parts>)
      requires dir.Dir? && budget >= 0 && forall m :: m in order ==> m in dir.listed
      modifies this
      ensures Walked(old(Now()), Now(), ContentOf(order, git, bounds, depth))
      ensures steady ==> cancelled == old(cancelled)
      decreases dir, 0
    {
      hide Walked, ContentOf, Reach, Shown, Names, Times, AllObservable;
      ghost var before, content, done := Now(), ContentOf(order, git, bounds, depth), Content(0, 0, 0, {}, true);
      var i := 0;
      NothingWalked(before);
      NoNames(git, bounds, depth);
      assert order[0..] == order;
      while i < |order|
        invariant 0 <= i <= |order|
        invariant Walked(before, Now(), done) && (steady ==> cancelled == old(cancelled))
        invariant content == Both(done, ContentOf(order[i..], git, bounds, depth))
      {
        NamesLeft(order, i, git, bounds, depth);
        if budget <= 0 {
          Exhaust(before, done, ContentOf(order[i..], git, bounds, depth));
          return;
        }
        IsSmaller(dir, order[i]);
        done := VisitNext(order[i], depth, git, before, done);
        i := i + 1;
      }
      assert order[i..] == [] && content == done;
    }

    method Exhaust(ghost before: Tally, ghost done: Content, ghost rest: Content)
      requires budget <= 0 && rest.names > 0 && Walked(before, Now(), done)
      modifies this
      ensures Walked(before, Now(), Both(done, rest)) && cancelled == old(cancelled)
    {
      OutOfBudget(before, Now(), done, rest);
      limited := true;
    }

    method VisitNext(n: Node, depth: int, git: Option<Parts>, ghost before: Tally, ghost done: Content) returns (ghost more: Content)
      requires budget > 0 && Walked(before, Now(), done)
      modifies this
      ensures more == Both(done, ContentOfOne(n, git, bounds, depth)) && Walked(before, Now(), more)
      ensures steady ==> cancelled == old(cancelled)
      decreases n, 3
    {
      ghost var now := Now();
      Visit(n, depth, git);
      more := Both(done, ContentOfOne(n, git, bounds, depth));
      WalkedOn(before, now, done, Now(), ContentOfOne(n, git, bounds, depth));
    }

    /** One name. */
    method Visit(n: Node, depth: int, git: Option<Parts>)
      requires budget > 0
      modifies this
      ensures Walked(old(Now()), Now(), ContentOfOne(n, git, bounds, depth))
      ensures steady ==> cancelled == old(cancelled)
      decreases n, 2
    {
      if n.Missing? {
        failures := failures + 1;
        return;
      }
      var inside := Inside(git, n);
      ghost var before, own := Now(), OwnContent(n, git);
      Count(n, git);
      ghost var counted := Now();
      if n.File? {
        return;
      }
      ghost var one := ContentOfOne(n, git, bounds, depth);
      if n.device.Some? && n.device.value != bounds.device && !bounds.crossFilesystem {
        blind := true;
        WalkedShort(before, Now(), own, one);
        return;
      }
      WalkIn(n, depth + 1, inside);
      ghost var below := InContent(n, inside, bounds, depth + 1);
      WalkedOn(before, counted, own, Now(), below);
      WalkedInside(before, Now(), Both(own, below), one);
    }

    /** A name itself, without what is below it. */
    method Count(n: Node, git: Option<Parts>)
      requires !n.Missing? && budget > 0
      modifies this
      ensures Walked(old(Now()), Now(), OwnContent(n, git)) && cancelled == old(cancelled)
    {
      budget := budget - 1;
      visited := visited + 1;
      var inside := Inside(git, n);
      var counts := true;
      if inside.Some? {
        var kept := Bookkeeping(inside.value);
        counts := !kept;
      }
      if counts && n.modified > newest {
        newest := n.modified;
      }
      bytes := bytes + n.size;
    }
  }

  // ---------------------------------------------------------------- what a complete walk is worth

  /** Bytes that neither Lstat nor a listing shows. */
  ghost function Unseen(ns: seq<Node>): nat
    decreases ns
  {
    if ns == [] then 0
    else (match ns[0]
          case Missing(_, size) => size
          case File(_, _, _, _) => 0
          case Dir(_, _, _, _, listed, hidden, _) => Unseen(listed) + Whole(hidden))
         + Unseen(ns[1..])
  }

  lemma {:induction false} WholeIsSeenOrNot(ns: seq<Node>)
    ensures Whole(ns) == Shown(ns) + Unseen(ns)
    decreases ns
  {
    if ns != [] {
      WholeIsSeenOrNot(ns[1..]);
      if ns[0].Dir? {
        WholeIsSeenOrNot(ns[0].listed);
      }
    }
  }

  /** Names are missing from a listing only if it failed. */
  ghost predicate WellFormed(ns: seq<Node>)
    decreases ns
  {
    ns == [] || ((ns[0].Dir? ==> (ns[0].hidden != [] ==> ns[0].broken) && WellFormed(ns[0].listed)) && WellFormed(ns[1..]))
  }

  /** Two lists of names that no walk can tell apart by size: only what is hidden differs. */
  ghost predicate SameView(ns: seq<Node>, ms: seq<Node>)
    decreases ns
  {
    if ns == [] || ms == [] then ns == [] && ms == []
    else SameViewOne(ns[0], ms[0]) && SameView(ns[1..], ms[1..])
  }

  ghost predicate SameViewOne(n: Node, m: Node)
    decreases n, 1
  {
    if n.Dir? && m.Dir? then
      n.(listed := [], hidden := []) == m.(listed := [], hidden := []) && SameView(n.listed, m.listed)
    else n == m
  }

  /** No listing failed. */
  ghost predicate Unbroken(ns: seq<Node>)
    decreases ns
  {
    ns == [] || ((ns[0].Dir? ==> !ns[0].broken && Unbroken(ns[0].listed)) && Unbroken(ns[1..]))
  }

  lemma {:induction false} ViewIsShown(ns: seq<Node>, ms: seq<Node>)
    requires SameView(ns, ms)
    ensures Shown(ns) == Shown(ms) && (Unbroken(ns) <==> Unbroken(ms))
    decreases ns
  {
    if ns != [] {
      ViewIsShown(ns[1..], ms[1..]);
      if ns[0].Dir? {
        ViewIsShown(ns[0].listed, ms[0].listed);
      }
    }
  }

  /** Where Lstat worked and no listing failed, everything is shown. */
  lemma {:induction false} UnbrokenIsSeen(ns: seq<Node>, bounds: Bounds, depth: int, ms: seq<Node>)
    requires AllObservable(ms, bounds, depth) && SameView(ns, ms) && WellFormed(ns) && Unbroken(ns)
    ensures Unseen(ns) == 0
    decreases ns
  {
    if ns != [] {
      UnbrokenIsSeen(ns[1..], bounds, depth, ms[1..]);
      if ns[0].Dir? {
        assert ObservableOne(ms[0], bounds, depth);
        assert Observable(ms[0], bounds, depth + 1);
        UnbrokenIsSeen(ns[0].listed, bounds, depth + 1, ms[0].listed);
      }
    }
  }

  /** Where a listing failed, something may be hidden. */
  lemma {:induction false} BrokenCanHide(ns: seq<Node>) returns (ms: seq<Node>)
    requires !Unbroken(ns)
    ensures SameView(ms, ns) && WellFormed(ms) && Unseen(ms) > 0
    decreases ns
  {
    var file := File("", 1, 0, true);
    assert Whole([file]) == 1 by { assert [file][1..] == []; }
    var n, rest := ns[0], ns[1..];
    if n.Dir? && (n.broken || !Unbroken(n.listed)) {
      var plain := Bare(rest);
      var inside := Bare(n.listed);
      if !n.broken {
        inside := BrokenCanHide(n.listed);
      }
      var m := n.(listed := inside, hidden := if n.broken then [file] else []);
      ms := [m] + plain;
      assert ms[1..] == plain;
    } else {
      var m := n;
      if n.Dir? {
        var inside := Bare(n.listed);
        m := n.(listed := inside, hidden := []);
      }
      var others := BrokenCanHide(rest);
      ms := [m] + others;
      assert ms[1..] == others;
    }
  }

  /** The same view with nothing hidden. */
  lemma {:induction false} Bare(ns: seq<Node>) returns (ms: seq<Node>)
    ensures SameView(ms, ns) && WellFormed(ms)
    decreases ns
  {
    ms := [];
    if ns != [] {
      var rest := Bare(ns[1..]);
      var m := ns[0];
      if m.Dir? {
        var inside := Bare(m.listed);
        m := m.(listed := inside, hidden := []);
      }
      ms := [m] + rest;
      assert ms[1..] == rest;
    }
  }

  /** The bytes in a directory. */
  ghost function Size(dir: Node): nat
    requires dir.Dir?
  {
    Whole(dir.listed) + Whole(dir.hidden)
  }

  /** A directory that shows a walk the same as another one does. */
  ghost predicate Alternative(d: Node, dir: Node) {
    d.Dir? && dir.Dir? && SameViewOne(d, dir) && WellFormed([d])
  }

  /**
   * A walk that reports nothing missing has the directory's size, whatever may be hidden from it, if
   * and only if none of the listings it relied on failed. A listing that fails after yielding some
   * names is not noticed.
   */
  lemma CompleteIsExactExactlyWhen(dir: Node, a: Tally, b: Tally, git: Option<Parts>, bounds: Bounds, depth: int)
    requires dir.Dir? && Walked(a, b, InContent(dir, git, bounds, depth))
    requires !b.partial
    ensures (forall d :: Alternative(d, dir) ==> b.bytes == a.bytes + Size(d)) <==> Unbroken([dir])
  {
    assert [dir][1..] == [];
    if Unbroken([dir]) {
      forall d | Alternative(d, dir) ensures b.bytes == a.bytes + Size(d) {
        assert [d][1..] == [];
        ViewIsShown(d.listed, dir.listed);
        UnbrokenIsSeen(d.listed, bounds, depth, dir.listed);
        WholeIsSeenOrNot(d.listed);
      }
    } else {
      var ds := BrokenCanHide([dir]);
      var d := ds[0];
      assert ds == [d] && [d][1..] == [];
      ViewIsShown(d.listed, dir.listed);
      WholeIsSeenOrNot(d.listed);
      assert Alternative(d, dir) && b.bytes != a.bytes + Size(d);
    }
  }

  /** One file is listed, another is not, and the sizes still count as complete. */
  lemma ACutListingLooksComplete(bounds: Bounds)
    requires bounds.maxDepth >= 1
    ensures var dir := Dir("d", 0, 0, None, [File("a", 1, 0, true)], [File("b", 1, 0, true)], true);
            WellFormed([dir]) && Observable(dir, bounds, 1) && Shown(dir.listed) < Size(dir)
  {
    var a, b := File("a", 1, 0, true), File("b", 1, 0, true);
    var dir := Dir("d", 0, 0, None, [a], [b], true);
    OneFile(a, bounds);
    OneFile(b, bounds);
    assert [dir][1..] == [];
    assert WellFormed([]);
  }

  lemma OneFile(f: Node, bounds: Bounds)
    requires f.File?
    ensures Shown([f]) == Whole([f]) == f.size && WellFormed([f]) && AllObservable([f], bounds, 1)
  {
    assert [f][1..] == [];
    assert AllObservable([], bounds, 1) && ObservableOne(f, bounds, 1);
  }

  // ---------------------------------------------------------------- every entry of every root

  type Directory = n: Node | n.Dir? witness Dir("", 0, 0, None, [], [], false)

  datatype RootDevice = Unreachable | Unknown | Known(device: nat)

  datatype Entry = Entry(root: string, name: string, directory: bool, device: nat, modified: Time, tree: Directory)

  datatype Roots = Roots(crosses: string -> bool, devices: string -> RootDevice)

  datatype Options = Options(perEntry: bool, maxEntries: nat, maxDepth: int)

  datatype Outcome = Skipped | Deep(bytes: nat, visited: nat, complete: bool, latest: Time)

  function Start(e: Entry): Time {
    if IsGitDir(e.tree) then ZERO else e.modified
  }

  function EntryGit(e: Entry): Option<Parts> {
    if IsGitDir(e.tree) then Some([]) else None
  }

  /** What an entry's outcome says of the entry. */
  ghost predicate Truthful(e: Entry, o: Outcome, options: Options) {
    o.Deep? ==>
      && e.directory
      && o.bytes <= Whole(e.tree.listed)
      && o.visited <= options.maxEntries
      && (!o.complete ==> o.latest == e.modified)
      && (o.complete ==>
            && o.bytes == Shown(e.tree.listed)
            && o.visited == Names(e.tree.listed)
            && IsNewest(o.latest, if IsGitDir(e.tree) then ZERO else e.modified,
                        Times(e.tree.listed, if IsGitDir(e.tree) then Some([]) else None)))
  }

  /** Dot-named entries are skipped when each entry has its own budget. */
  predicate Considered(e: Entry, options: Options) {
    e.directory && !(options.perEntry && e.name != "" && e.name[0] == '.')
  }

  /** Nothing but the budget keeps the entry from being sized completely. */
  ghost predicate Sizable(e: Entry, roots: Roots, options: Options) {
    && (!roots.crosses(e.root) ==> !roots.devices(e.root).Unreachable?
                                   && (roots.devices(e.root).Known? ==> roots.devices(e.root).device == e.device))
    && Observable(e.tree, Bounds(roots.crosses(e.root), e.device, options.maxDepth), 1)
  }

  /** The root's device is known to be the entry's, or does not matter, and every place in the entry is open. */
  lemma SizableExactlyWhen(e: Entry, roots: Roots, options: Options)
    ensures Sizable(e, roots, options) <==>
              && (roots.crosses(e.root) || roots.devices(e.root).Unknown? || roots.devices(e.root) == Known(e.device))
              && AllOpen(e.tree, Bounds(roots.crosses(e.root), e.device, options.maxDepth), 1)
  {
    ObservableExactlyWhen(e.tree, Bounds(roots.crosses(e.root), e.device, options.maxDepth), 1);
  }

  /** The budget an entry starts with: its own, or what the entries before it left of its root's. */
  ghost function Available(entries: seq<Entry>, outcomes: seq<Outcome>, options: Options, i: nat): int
    requires i < |outcomes| <= |entries|
  {
    if options.perEntry then options.maxEntries else options.maxEntries - Spent(entries, outcomes[..i], entries[i].root)
  }

  ghost function Spent(entries: seq<Entry>, outcomes: seq<Outcome>, root: string): nat
    requires |outcomes| <= |entries|
  {
    if outcomes == [] then 0
    else
      var last := |outcomes| - 1;
      (if entries[last].root == root && outcomes[last].Deep? then outcomes[last].visited else 0)
      + Spent(entries, outcomes[..last], root)
  }

  /** What is left of the entry budget of each root. */
  ghost predicate Budgeted(entries: seq<Entry>, outcomes: seq<Outcome>, budgets: map<string, int>, limit: nat)
    requires |outcomes| <= |entries|
  {
    forall root :: if root in budgets then budgets[root] >= 0 && budgets[root] + Spent(entries, outcomes, root) == limit
                   else Spent(entries, outcomes, root) == 0
  }

  lemma SpentOn(entries: seq<Entry>, outcomes: seq<Outcome>, o: Outcome, root: string)
    requires |outcomes| < |entries|
    ensures Spent(entries, outcomes + [o], root)
         == Spent(entries, outcomes, root) + if entries[|outcomes|].root == root && o.Deep? then o.visited else 0
  {
    assert (outcomes + [o])[..|outcomes|] == outcomes;
  }

  ghost function Left(budgets: map<string, int>, root: string, limit: nat): int {
    if root in budgets then budgets[root] else limit
  }

  lemma BudgetedOn(entries: seq<Entry>, outcomes: seq<Outcome>, budgets: map<string, int>, limit: nat, o: Outcome, left: int)
    requires |outcomes| < |entries| && Budgeted(entries, outcomes, budgets, limit)
    requires o.Deep? ==> left >= 0 && left + o.visited == Left(budgets, entries[|outcomes|].root, limit)
    ensures Budgeted(entries, outcomes + [o], if o.Deep? then budgets[entries[|outcomes|].root := left] else budgets, limit)
  {
    var after := if o.Deep? then budgets[entries[|outcomes|].root := left] else budgets;
    forall root
      ensures if root in after then after[root] >= 0 && after[root] + Spent(entries, outcomes + [o], root) == limit
              else Spent(entries, outcomes + [o], root) == 0
    {
      SpentOn(entries, outcomes, o, root);
    }
  }

  /** Sizes one directory entry from a budget. */
  method SizeEntry(e: Entry, roots: Roots, options: Options, steady: bool, budget: nat) returns (o: Outcome, left: nat, ghost cancelled: bool)
    requires e.directory && budget <= options.maxEntries
    ensures o.Deep? && Truthful(e, o, options) && left + o.visited == budget
    ensures Sizable(e, roots, options) && Names(e.tree.listed) <= budget && !cancelled ==> o.complete
    ensures o.complete ==> Sizable(e, roots, options)
    // Only what is within reach is looked at, and nothing but the budget keeps a walk from any of it.
    ensures o.bytes <= ReachIn(e.tree, Bounds(roots.crosses(e.root), e.device, options.maxDepth), 1)
    ensures Sizable(e, roots, options) && !cancelled ==>
              o.visited == if Names(e.tree.listed) >= budget then budget else Names(e.tree.listed)
    ensures steady ==> !cancelled
  {
    var sum := new SizeSum(Bounds(roots.crosses(e.root), e.device, options.maxDepth), steady, budget, Start(e));
    var rd := if roots.crosses(e.root) then Unknown else roots.devices(e.root);
    if rd.Unreachable? || (rd.Known? && e.device != rd.device) {
      sum.blind := true;
    } else {
      sum.WalkIn(e.tree, 1, EntryGit(e));
    }
    ReachIsShown(e.tree.listed, Bounds(roots.crosses(e.root), e.device, options.maxDepth), 1);
    var partial := sum.Partial();
    cancelled := sum.cancelled;
    o, left := Deep(sum.bytes, sum.visited, !partial, if partial then e.modified else sum.newest), sum.budget;
  }

  function Least(a: int, b: int): int { if a <= b then a else b }

  /** Every entry that counts is sized, and completely if it can be and its budget is enough. */
  ghost predicate Thorough(entries: seq<Entry>, outcomes: seq<Outcome>, roots: Roots, options: Options, cancelled: bool, i: nat)
    requires i < |outcomes| <= |entries|
  {
    && (outcomes[i].Deep? <==> Considered(entries[i], options))
    && (outcomes[i].Deep? && outcomes[i].complete ==> Sizable(entries[i], roots, options))
    && (outcomes[i].Deep? && !cancelled && Sizable(entries[i], roots, options) ==>
          Names(entries[i].tree.listed) <= Available(entries, outcomes, options, i) ==> outcomes[i].complete)
    && (outcomes[i].Deep? ==>
          outcomes[i].bytes <= ReachIn(entries[i].tree, Bounds(roots.crosses(entries[i].root), entries[i].device, options.maxDepth), 1))
    && (outcomes[i].Deep? && !cancelled && Sizable(entries[i], roots, options) ==>
          outcomes[i].visited == Least(Names(entries[i].tree.listed), Available(entries, outcomes, options, i)))
  }

  lemma ThoroughOn(entries: seq<Entry>, outcomes: seq<Outcome>, roots: Roots, options: Options, cancelled: bool,
                   longer: seq<Outcome>, stopped: bool)
    requires |outcomes| < |longer| <= |entries| && longer[..|outcomes|] == outcomes && (cancelled ==> stopped)
    requires forall i :: 0 <= i < |outcomes| ==> Thorough(entries, outcomes, roots, options, cancelled, i)
    ensures forall i :: 0 <= i < |outcomes| ==> Thorough(entries, longer, roots, options, stopped, i)
  {
    forall i | 0 <= i < |outcomes| ensures Thorough(entries, longer, roots, options, stopped, i) {
      assert Thorough(entries, outcomes, roots, options, cancelled, i);
      assert longer[..i] == outcomes[..i] && longer[i] == outcomes[i];
    }
  }

  /** collectDeepSize. */
  method CollectDeepSize(entries: seq<Entry>, roots: Roots, options: Options, steady: bool)
      returns (outcomes: seq<Outcome>, interrupted: bool, ghost cancelled: bool)
    ensures |outcomes| <= |entries| && (!interrupted ==> |outcomes| == |entries|)
    ensures steady ==> !interrupted && !cancelled
    // Exactly the directories are sized, but for dot-named ones when each entry has its own budget.
    ensures forall i :: 0 <= i < |outcomes| ==>
              (outcomes[i].Deep? <==>
                 entries[i].directory && (options.perEntry ==> entries[i].name == "" || entries[i].name[0] != '.'))
    ensures forall i :: 0 <= i < |outcomes| ==> Truthful(entries[i], outcomes[i], options)
    ensures forall i :: 0 <= i < |outcomes| ==> Thorough(entries, outcomes, roots, options, cancelled, i)
    ensures !options.perEntry ==> forall root :: Spent(entries, outcomes, root) <= options.maxEntries
  {
    var budgets: map<string, int> := map[];
    outcomes, interrupted, cancelled := [], false, false;
    while |outcomes| < |entries|
      invariant |outcomes| <= |entries| && (steady ==> !interrupted && !cancelled)
      invariant forall i :: 0 <= i < |outcomes| ==> Truthful(entries[i], outcomes[i], options)
      invariant forall i :: 0 <= i < |outcomes| ==> Thorough(entries, outcomes, roots, options, cancelled, i)
      invariant !options.perEntry ==> Budgeted(entries, outcomes, budgets, options.maxEntries)
      decreases |entries| - |outcomes|
    {
      var e := entries[|outcomes|];
      var o := Skipped;
      var left := 0;
      ghost var stopped := false;
      if Considered(e, options) {
        interrupted := *;
        interrupted := interrupted && !steady;
        if interrupted {
          break;
        }
        var budget := options.maxEntries;
        if e.root in budgets && !options.perEntry {
          budget := budgets[e.root];
          assert budget + Spent(entries, outcomes, e.root) == options.maxEntries;
        }
        o, left, stopped := SizeEntry(e, roots, options, steady, budget);
      }
      ghost var longer := outcomes + [o];
      assert longer[..|outcomes|] == outcomes;
      ThoroughOn(entries, outcomes, roots, options, cancelled, longer, cancelled || stopped);
      if !options.perEntry {
        BudgetedOn(entries, outcomes, budgets, options.maxEntries, o, left);
      }
      if o.Deep? {
        budgets := budgets[e.root := left];
      }
      outcomes, cancelled := outcomes + [o], cancelled || stopped;
    }
    forall i | 0 <= i < |outcomes| ensures outcomes[i].Deep? <==> Considered(entries[i], options) {
      assert Thorough(entries, outcomes, roots, options, cancelled, i);
    }
    if !options.perEntry {
      forall root ensures Spent(entries, outcomes, root) <= options.maxEntries {
        assert root in budgets ==> budgets[root] >= 0;
      }
    }
  }
}

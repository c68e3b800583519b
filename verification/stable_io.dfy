/** Reading one file that others may be writing: either one consistent snapshot or an error, in a bounded
    number of reads, and without leaking a descriptor. */
module StableReads {
  import opened Disks

  datatype Kind = Regular | Folder | Symlink | Special

  datatype Id = Id(device: nat, inode: nat)

  datatype Node = Node(kind: Kind, mode: nat, data: Bytes, entries: map<string, Id>, mtime: int, ctime: int)

  datatype World = World(nodes: map<Id, Node>, clock: int, cwd: seq<string>)

  datatype Stat = Stat(id: Id, kind: Kind, mode: nat, size: nat, mtime: int, ctime: int)

  datatype Path = Path(absolute: bool, parts: seq<string>)

  datatype Outcome = Ok(bytes: Bytes) | TooLarge | Unstable | BadLimit

  const CHUNK := 131072

  predicate Sane(w: World) {
    forall i :: i in w.nodes ==> w.nodes[i].ctime <= w.clock
  }

  /** What others can do between two calls: anything, but whatever they change gets a later ctime. */
  predicate Evolves(a: World, b: World) {
    && a.clock <= b.clock && a.nodes.Keys <= b.nodes.Keys
    && forall i :: i in b.nodes ==> (i in a.nodes && b.nodes[i] == a.nodes[i]) || a.clock < b.nodes[i].ctime <= b.clock
  }

  lemma EvolvesTrans(a: World, b: World, c: World)
    requires Evolves(a, b) && Evolves(b, c)
    ensures Evolves(a, c)
  {
    forall i | i in c.nodes
      ensures (i in a.nodes && c.nodes[i] == a.nodes[i]) || a.clock < c.nodes[i].ctime <= c.clock
    {
      if i in b.nodes && c.nodes[i] == b.nodes[i] {
        assert (i in a.nodes && b.nodes[i] == a.nodes[i]) || a.clock < b.nodes[i].ctime <= b.clock;
      }
    }
  }

  /** An inode that ends with the ctime it had at first has been the same all the time. */
  lemma SameCtimeSameNode(a: World, b: World, c: World, i: Id)
    requires Sane(a) && Evolves(a, b) && Evolves(b, c)
    requires i in a.nodes && i in c.nodes && c.nodes[i].ctime == a.nodes[i].ctime
    ensures i in b.nodes && b.nodes[i] == a.nodes[i] && c.nodes[i] == a.nodes[i]
  {
    EvolvesTrans(a, b, c);
    assert c.nodes[i].ctime <= a.clock <= b.clock;
  }

  function StatOf(i: Id, n: Node): Stat {
    Stat(i, n.kind, n.mode, |n.data|, n.mtime, n.ctime)
  }

  /** The entry of a directory, by name. */
  function Lookup(w: World, dir: Id, name: string): Option<Id> {
    if dir in w.nodes && name in w.nodes[dir].entries && w.nodes[dir].entries[name] in w.nodes
    then Some(w.nodes[dir].entries[name]) else None
  }

  // ---- Paths ----

  /** os.path.normpath of an absolute path: no empty or dot components, and none left to go up from. */
  function Normalized(parts: seq<string>): (r: seq<string>)
    ensures forall k :: 0 <= k < |r| ==> r[k] !in {"", ".", ".."}
  {
    if parts == [] then []
    else
      var before := Normalized(parts[..|parts| - 1]);
      var last := parts[|parts| - 1];
      if last == "" || last == "." then before
      else if last != ".." then before + [last]
      else if before == [] then [] else before[..|before| - 1]
  }

  function Components(path: Path, cwd: seq<string>): seq<string> {
    Normalized(if path.absolute then path.parts else cwd + path.parts)
  }

  /** The directory that real directories lead to. */
  function Walk(w: World, dir: Id, names: seq<string>): Option<Id>
    decreases |names|
  {
    if dir !in w.nodes || w.nodes[dir].kind != Folder then None
    else if names == [] then Some(dir)
    else match Lookup(w, dir, names[0]) case None => None case Some(child) => Walk(w, child, names[1..])
  }

  /** The path leads to that name in that directory, and to that inode. */
  predicate Leads(w: World, root: Id, path: Path, dir: Id, name: string, id: Id) {
    var names := Components(path, w.cwd);
    && names != [] && name == names[|names| - 1]
    && Walk(w, root, names[..|names| - 1]) == Some(dir) && Lookup(w, dir, name) == Some(id)
  }

  /** What a read returns when nobody interferes and no call fails. */
  function Expected(w: World, root: Id, path: Path, maximum: int): Outcome {
    if maximum < 0 then BadLimit else
    var names := Components(path, w.cwd);
    if names == [] then Unstable else
    match Walk(w, root, names[..|names| - 1])
    case None => Unstable
    case Some(dir) =>
      match Lookup(w, dir, names[|names| - 1])
      case None => Unstable
      case Some(i) =>
        if !w.nodes[i].kind.Regular? then Unstable
        else if |w.nodes[i].data| > maximum then TooLarge
        else Ok(w.nodes[i].data)
  }

  lemma WalkStep(w: World, dir: Id, names: seq<string>)
    requires dir in w.nodes && w.nodes[dir].kind == Folder && names != []
    ensures Walk(w, dir, names) ==
      match Lookup(w, dir, names[0])
      case None => None
      case Some(child) => if w.nodes[child].kind == Folder then Walk(w, child, names[1..]) else None
  {
  }

  /** At some moment since lo the directory had the real directory `child` under that name. */
  ghost predicate Led(moments: seq<World>, lo: nat, dir: Id, name: string, child: Id) {
    exists m :: lo <= m < |moments| && Lookup(moments[m], dir, name) == Some(child)
      && moments[m].nodes[child].kind == Folder
  }

  /** ids are real directories, each found in the one before at some moment since lo. */
  ghost predicate Walked(moments: seq<World>, lo: nat, ids: seq<Id>, names: seq<string>) {
    |ids| == |names| + 1 && forall k :: 0 <= k < |names| ==> Led(moments, lo, ids[k], names[k], ids[k + 1])
  }

  lemma LedLater(before: seq<World>, after: seq<World>, lo: nat, dir: Id, name: string, child: Id)
    requires before <= after && Led(before, lo, dir, name, child)
    ensures Led(after, lo, dir, name, child)
  {
    var m :| lo <= m < |before| && Lookup(before[m], dir, name) == Some(child) && before[m].nodes[child].kind == Folder;
    assert after[m] == before[m];
  }

  lemma WalkedLater(before: seq<World>, after: seq<World>, lo: nat, ids: seq<Id>, names: seq<string>)
    requires before <= after && Walked(before, lo, ids, names)
    ensures Walked(after, lo, ids, names)
  {
    forall k | 0 <= k < |names| ensures Led(after, lo, ids[k], names[k], ids[k + 1]) {
      LedLater(before, after, lo, ids[k], names[k], ids[k + 1]);
    }
  }

  lemma WalkedFurther(before: seq<World>, after: seq<World>, lo: nat, ids: seq<Id>, names: seq<string>, name: string,
                      id: Id)
    requires before <= after && Walked(before, lo, ids, names) && Led(after, lo, ids[|names|], name, id)
    ensures Walked(after, lo, ids + [id], names + [name])
  {
    WalkedLater(before, after, lo, ids, names);
    forall k | 0 <= k < |names| + 1 ensures Led(after, lo, (ids + [id])[k], (names + [name])[k], (ids + [id])[k + 1]) {
      if k < |names| { assert Led(after, lo, ids[k], names[k], ids[k + 1]); }
    }
  }

  /** The inode has been what it was at moment i ever since. */
  ghost predicate Steady(moments: seq<World>, id: Id, i: nat) {
    && i < |moments|
    && forall m :: i <= m < |moments| ==>
         id in moments[m].nodes && id in moments[i].nodes && moments[m].nodes[id] == moments[i].nodes[id]
  }

  /** That inode was over the limit at some moment since lo. */
  ghost predicate Exceeded(moments: seq<World>, lo: nat, id: Id, maximum: int) {
    exists m :: lo <= m < |moments| && id in moments[m].nodes && |moments[m].nodes[id].data| > maximum
  }

  /** At some moment since lo the path stood for these names. */
  ghost predicate Meant(moments: seq<World>, lo: nat, path: Path, names: seq<string>) {
    exists m :: lo <= m < |moments| && names == Components(path, moments[m].cwd)
  }

  /** Since lo the path stood for these names, and real directories led from the root to the last one. */
  ghost predicate Reached(moments: seq<World>, lo: nat, root: Id, path: Path, names: seq<string>, ids: seq<Id>) {
    && names != [] && Meant(moments, lo, path, names)
    && Walked(moments, lo, ids, names[..|names| - 1]) && ids[0] == root
  }

  lemma ReachedLater(before: seq<World>, after: seq<World>, lo: nat, root: Id, path: Path, names: seq<string>,
                     ids: seq<Id>)
    requires before <= after && Reached(before, lo, root, path, names, ids)
    ensures Reached(after, lo, root, path, names, ids)
  {
    hide Led;
    var m :| lo <= m < |before| && names == Components(path, before[m].cwd);
    assert after[m] == before[m];
    WalkedLater(before, after, lo, ids, names[..|names| - 1]);
  }

  lemma ReachedSooner(moments: seq<World>, lo: nat, later: nat, root: Id, path: Path, names: seq<string>, ids: seq<Id>)
    requires lo <= later && Reached(moments, later, root, path, names, ids)
    ensures Reached(moments, lo, root, path, names, ids)
  {
    hide Led;
    var m :| later <= m < |moments| && names == Components(path, moments[m].cwd);
    assert lo <= m;
    WalkedSooner(moments, lo, later, ids, names[..|names| - 1]);
  }

  lemma ReachedHas(moments: seq<World>, lo: nat, root: Id, path: Path, names: seq<string>, ids: seq<Id>)
    requires Reached(moments, lo, root, path, names, ids)
    ensures names != [] && |ids| == |names|
  {
  }

  // ---- The kernel ----

  datatype Handle = Handle(id: Id, offset: nat)

  /** What a process knows of its descriptors, and how often each number was closed. */
  datatype Books = Books(open: map<nat, Handle>, next: nat, closed: multiset<nat>) {
    ghost predicate Numbered() {
      (forall fd :: fd in open ==> fd < next) && (forall fd :: fd in closed ==> fd < next)
    }
  }

  /** Of the descriptors handed out from a to b the held ones are open, and every other one has been closed
      exactly once; the older ones are as they were. */
  ghost predicate Balanced(a: Books, b: Books, held: set<nat>) {
    && a.next <= b.next
    && (forall fd :: fd < a.next ==> b.closed[fd] == a.closed[fd] && (fd in b.open <==> fd in a.open))
    && (forall fd :: fd in a.open && fd in b.open ==> b.open[fd] == a.open[fd])
    && (forall fd :: a.next <= fd < b.next ==>
      (fd in b.open <==> fd in held) && b.closed[fd] == if fd in held then 0 else 1)
    && (forall fd :: fd in held ==> a.next <= fd < b.next)
  }

  lemma Untouched(a: Books)
    requires a.Numbered()
    ensures Balanced(a, a, {})
  {
  }

  lemma HandedOut(a: Books, b: Books, held: set<nat>, h: Handle)
    requires a.Numbered() && b.Numbered() && Balanced(a, b, held)
    ensures Balanced(a, Books(b.open[b.next := h], b.next + 1, b.closed), held + {b.next})
  {
  }

  lemma Moved(a: Books, b: Books, held: set<nat>, fd: nat, h: Handle)
    requires a.Numbered() && Balanced(a, b, held) && fd in held
    ensures Balanced(a, b.(open := b.open[fd := h]), held)
  {
  }

  lemma GivenUp(a: Books, b: Books, held: set<nat>, fd: nat)
    requires a.Numbered() && Balanced(a, b, held) && fd in held
    ensures Balanced(a, Books(b.open - {fd}, b.next, b.closed + multiset{fd}), held - {fd})
  {
  }

  lemma BalancedTrans(a: Books, b: Books, c: Books, held: set<nat>, more: set<nat>)
    requires a.Numbered() && b.Numbered() && Balanced(a, b, held) && Balanced(b, c, more)
    ensures Balanced(a, c, held + more) && held !! more
  {
  }

  class Kernel {
    const root: Id
    /** Whether others act between calls, and whether calls may fail for reasons of their own. */
    const noisy: bool
    const faults: bool

    var world: World
    /** Descriptors are numbered in the order they are handed out. */
    var open: map<nat, Handle>
    var next: nat
    var closed: multiset<nat>
    /** The number of reads that delivered anything. */
    var delivered: nat
    /** The world at every call so far. */
    ghost var moments: seq<World>

    ghost predicate Valid()
      reads this
    {
      && moments != [] && moments[|moments| - 1] == world
      && (forall i :: 0 <= i < |moments| ==> Sane(moments[i]))
      && (forall i, j :: 0 <= i < j < |moments| ==> Evolves(moments[i], moments[j]))
      && (forall fd :: fd in open ==> fd < next && open[fd].id in world.nodes)
      && (forall fd :: fd in closed ==> fd < next)
    }

    function Accounts(): Books
      reads this
    {
      Books(open, next, closed)
    }

    lemma Live(fd: nat)
      requires Valid() && fd in open
      ensures open[fd].id in world.nodes && moments != [] && moments[|moments| - 1] == world
    {
    }

    lemma Last()
      requires Valid()
      ensures moments != [] && moments[|moments| - 1] == world
    {
    }

    lemma Numbered()
      requires Valid()
      ensures Accounts().Numbered()
    {
    }

    ghost predicate Calm() {
      !noisy && !faults
    }

    constructor (root: Id, world: World, noisy: bool, faults: bool)
      requires Sane(world)
      ensures Valid() && this.root == root && this.world == world && this.noisy == noisy && this.faults == faults
      ensures open == map[] && moments == [world] && delivered == 0
    {
      this.root, this.world, this.noisy, this.faults := root, world, noisy, faults;
      open, next, closed, delivered, moments := map[], 0, multiset{}, 0, [world];
    }

    method Others()
      requires Valid()
      modifies this`world, this`moments
      ensures Valid() && moments == old(moments) + [world]
      ensures !noisy ==> world == old(world)
    {
      ghost var w0 := world;
      if noisy {
        var w: World := *;
        if Evolves(world, w) && Sane(w) { world := w; }
      }
      forall i | 0 <= i < |moments| ensures Evolves(moments[i], world) {
        if i < |moments| - 1 { EvolvesTrans(moments[i], w0, world); }
      }
      moments := moments + [world];
    }

    method Fails() returns (raises: bool)
      ensures raises ==> faults
    {
      var choice: bool := *;
      raises := choice && faults;
    }

    method Hand(id: Id) returns (fd: nat)
      requires Valid() && id in world.nodes
      modifies this`open, this`next
      ensures Valid() && fd == old(next) && next == fd + 1 && open == old(open)[fd := Handle(id, 0)]
    {
      fd := next;
      open, next := open[fd := Handle(id, 0)], next + 1;
    }

    method OpenRoot() returns (fd: Option<nat>)
      requires Valid()
      modifies this`world, this`moments, this`open, this`next
      ensures Valid() && moments == old(moments) + [world] && (!noisy ==> world == old(world))
      ensures fd.None? ==> open == old(open) && next == old(next)
      ensures fd.Some? ==>
        fd.value == old(next) && next == old(next) + 1 &&
        open == old(open)[fd.value := Handle(root, 0)]
      ensures fd.Some? ==> root in world.nodes && world.nodes[root].kind.Folder?
      ensures Calm() && fd.None? ==> root !in world.nodes || !world.nodes[root].kind.Folder?
    {
      Others();
      var raises := Fails();
      if raises || root !in world.nodes || !world.nodes[root].kind.Folder? { return None; }
      var n := Hand(root);
      fd := Some(n);
    }

    /** open relative to a directory, following no link; with O_DIRECTORY nothing but a directory opens. */
    method OpenAt(dir: nat, name: string, folder: bool) returns (fd: Option<nat>)
      requires Valid() && dir in open
      modifies this`world, this`moments, this`open, this`next
      ensures Valid() && moments == old(moments) + [world] && (!noisy ==> world == old(world))
      ensures fd.None? ==> open == old(open) && next == old(next)
      ensures fd.Some? ==>
        && Lookup(world, old(open[dir].id), name).Some?
        && var id := Lookup(world, old(open[dir].id), name).value;
           && fd.value == old(next) && next == old(next) + 1 && open == old(open)[fd.value := Handle(id, 0)]
           && (folder ==> world.nodes[id].kind.Folder?)
      ensures Calm() && fd.None? ==>
        match Lookup(world, old(open[dir].id), name)
        case None => true
        case Some(id) => world.nodes[id].kind.Symlink? || (folder && !world.nodes[id].kind.Folder?)
    {
      Others();
      var raises := Fails();
      var found := Lookup(world, open[dir].id, name);
      if raises || found.None? { return None; }
      var kind := world.nodes[found.value].kind;
      if kind.Symlink? || (folder && !kind.Folder?) { return None; }
      var n := Hand(found.value);
      fd := Some(n);
    }

    method StatAt(dir: nat, name: string) returns (s: Option<Stat>)
      requires Valid() && dir in open
      modifies this`world, this`moments
      ensures Valid() && moments == old(moments) + [world] && (!noisy ==> world == old(world))
      ensures s.Some? ==>
        && Lookup(world, open[dir].id, name) == Some(s.value.id)
        && s.value == StatOf(s.value.id, world.nodes[s.value.id])
      ensures Calm() && s.None? ==> Lookup(world, open[dir].id, name).None?
    {
      Others();
      var raises := Fails();
      var found := Lookup(world, open[dir].id, name);
      if raises || found.None? { return None; }
      s := Some(StatOf(found.value, world.nodes[found.value]));
    }

    method Fstat(fd: nat) returns (s: Option<Stat>)
      requires Valid() && fd in open
      modifies this`world, this`moments
      ensures Valid() && moments == old(moments) + [world] && (!noisy ==> world == old(world))
      ensures s.Some? ==> s.value == StatOf(open[fd].id, world.nodes[open[fd].id])
      ensures Calm() ==> s.Some?
    {
      Others();
      var raises := Fails();
      s := if raises then None else Some(StatOf(open[fd].id, world.nodes[open[fd].id]));
    }

    /** read: any number of the bytes there are, and none only at the end. */
    method Read(fd: nat, limit: nat) returns (chunk: Option<Bytes>)
      requires Valid() && fd in open && limit > 0
      modifies this`world, this`moments, this`open, this`delivered
      ensures Valid() && moments == old(moments) + [world] && (!noisy ==> world == old(world))
      ensures chunk.None? ==> faults && open == old(open) && delivered == old(delivered)
      ensures chunk.Some? ==>
        var h := old(open)[fd]; var n := |chunk.value|;
        && h.id in world.nodes && var data := world.nodes[h.id].data;
        && n <= limit && (h.offset < |data| ==> h.offset + n <= |data| && chunk.value == data[h.offset..h.offset + n])
        && (n == 0 <==> h.offset >= |data|)
        && open == old(open)[fd := Handle(h.id, h.offset + n)] && delivered == old(delivered) + if n > 0 then 1 else 0
    {
      Others();
      var raises := Fails();
      if raises { return None; }
      var h := open[fd];
      var data := world.nodes[h.id].data;
      if h.offset >= |data| {
        chunk := Some([]);
        assert open == open[fd := Handle(h.id, h.offset)];
        return;
      }
      var most := if |data| - h.offset < limit then |data| - h.offset else limit;
      var n: int := *;
      if !(1 <= n <= most) { n := most; }
      chunk := Some(data[h.offset..h.offset + n]);
      open, delivered := open[fd := Handle(h.id, h.offset + n)], delivered + 1;
    }

    /** One clause of a finally block. */
    method CloseIf(ghost start: Books, fd: Option<nat>, ghost held: set<nat>)
      requires Valid() && start.Numbered() && Balanced(start, Accounts(), held) && (fd.Some? ==> fd.value in held)
      modifies this`open, this`closed
      ensures Valid() && next == old(next)
      ensures Balanced(start, Accounts(), held - Held(fd))
    {
      if fd.Some? {
        GivenUp(start, Accounts(), held, fd.value);
        Close(fd.value);
      } else {
        assert held - Held(fd) == held;
      }
    }

    method Close(fd: nat)
      requires Valid() && fd < next
      modifies this`open, this`closed
      ensures Valid() && open == old(open) - {fd} && closed == old(closed) + multiset{fd}
    {
      open, closed := open - {fd}, closed + multiset{fd};
    }
  }

  // ---- _open_parent_no_follow ----

  /** Open the directory of the path one component at a time. On success its descriptor is the only one
      left open and real directories led to it; otherwise none is left open. */
  method OpenParent(k: Kernel, path: Path)
    returns (parent: Option<nat>, name: string, ghost names: seq<string>, ghost ids: seq<Id>)
    requires k.Valid()
    modifies k`world, k`moments, k`open, k`next, k`closed
    ensures k.Valid() && old(k.moments) <= k.moments && (!k.noisy ==> k.world == old(k.world))
    ensures Balanced(old(k.Accounts()), k.Accounts(), if parent.Some? then {parent.value} else {})
    ensures Meant(k.moments, |old(k.moments)|, path, names)
    ensures !k.noisy ==> names == Components(path, k.world.cwd)
    ensures parent.Some? ==>
      && names != [] && name == names[|names| - 1]
      && Reached(k.moments, |old(k.moments)|, k.root, path, names, ids)
      && parent.value in k.open && k.open[parent.value].id == ids[|names| - 1]
    ensures k.Calm() ==>
      (parent.None? <==> names == [] || Walk(k.world, k.root, names[..|names| - 1]) == None)
    ensures k.Calm() && parent.Some? ==> Walk(k.world, k.root, names[..|names| - 1]) == Some(k.open[parent.value].id)
  {
    ghost var lo := |k.moments|;
    ids := [];
    k.Others();
    var all := Components(path, k.world.cwd);
    names := all;
    assert names == Components(path, k.moments[lo].cwd);
    if all == [] { return None, "", names, ids; }
    name := all[|all| - 1];
    parent, ids := Descend(k, all[..|all| - 1], lo);
  }

  method Descend(k: Kernel, front: seq<string>, ghost lo: nat) returns (dir: Option<nat>, ghost ids: seq<Id>)
    requires k.Valid() && lo <= |k.moments|
    modifies k`world, k`moments, k`open, k`next, k`closed
    ensures k.Valid() && old(k.moments) <= k.moments && (!k.noisy ==> k.world == old(k.world))
    ensures Balanced(old(k.Accounts()), k.Accounts(), if dir.Some? then {dir.value} else {})
    ensures dir.Some? ==>
      && Walked(k.moments, lo, ids, front) && ids[0] == k.root
      && dir.value in k.open && k.open[dir.value].id == ids[|front|]
    ensures k.Calm() ==> Walk(k.world, k.root, front) == if dir.Some? then Some(k.open[dir.value].id) else None
  {
    hide Led;
    hide k.Valid;
    hide Balanced;
    ghost var books := k.Accounts();
    k.Numbered();
    Untouched(books);
    ids := [k.root];
    dir := k.OpenRoot();
    if dir.None? { return; }
    HandedOut(books, books, {}, Handle(k.root, 0));
    assert {} + {dir.value} == {dir.value};
    var i := 0;
    while i < |front|
      invariant 0 <= i <= |front| && k.Valid() && lo < |k.moments| && old(k.moments) <= k.moments
      invariant !k.noisy ==> k.world == old(k.world)
      invariant |ids| == i + 1 && dir.Some? && dir.value in k.open && k.open[dir.value].id == ids[i]
      invariant Balanced(old(k.Accounts()), k.Accounts(), {dir.value})
      invariant Walked(k.moments, lo, ids, front[..i]) && ids[0] == k.root
      invariant k.Calm() ==> Walk(k.world, k.root, front) == Walk(k.world, ids[i], front[i..])
      invariant k.Calm() ==> ids[i] in k.world.nodes && k.world.nodes[ids[i]].kind == Folder
    {
      ghost var before := k.moments;
      var child := Enter(k, dir.value, front[i], books);
      if k.Calm() {
        WalkStep(k.world, ids[i], front[i..]);
        assert front[i..][1..] == front[i + 1..];
      }
      if child.None? { return None, ids; }
      ghost var id := k.open[child.value].id;
      LedNow(k, before, lo, ids[i], front[i], id);
      WalkedFurther(before, k.moments, lo, ids, front[..i], front[i], id);
      assert front[..i + 1] == front[..i] + [front[i]];
      ids := ids + [id];
      dir := child;
      i := i + 1;
    }
    assert front[..i] == front;
  }

  /** One component: open the child directory, then close the one it was found in. */
  method Enter(k: Kernel, dir: nat, name: string, ghost books: Books) returns (child: Option<nat>)
    requires k.Valid() && dir in k.open && books.Numbered() && Balanced(books, k.Accounts(), {dir})
    modifies k`world, k`moments, k`open, k`next, k`closed
    ensures k.Valid() && k.moments == old(k.moments) + [k.world] && (!k.noisy ==> k.world == old(k.world))
    ensures Balanced(books, k.Accounts(), if child.Some? then {child.value} else {})
    ensures child.Some? ==>
      && child.value in k.open && Lookup(k.world, old(k.open[dir].id), name) == Some(k.open[child.value].id)
      && k.world.nodes[k.open[child.value].id].kind.Folder?
    ensures k.Calm() && child.None? ==>
      match Lookup(k.world, old(k.open[dir].id), name)
      case None => true
      case Some(id) => !k.world.nodes[id].kind.Folder?
  {
    hide k.Valid;
    hide Balanced;
    k.Numbered();
    ghost var held, open := {dir}, k.Accounts();
    child := k.OpenAt(dir, name, true);
    if child.Some? {
      HandedOut(books, open, held, k.open[child.value]);
      held := held + {child.value};
    }
    GivenUp(books, k.Accounts(), held, dir);
    k.Close(dir);
    assert held - {dir} == if child.Some? then {child.value} else {};
  }

  lemma LedNow(k: Kernel, before: seq<World>, lo: nat, dir: Id, name: string, child: Id)
    requires k.moments == before + [k.world] && lo <= |before|
    requires Lookup(k.world, dir, name) == Some(child) && k.world.nodes[child].kind == Folder
    ensures Led(k.moments, lo, dir, name, child)
  {
    assert k.moments[|before|] == k.world;
  }

  // ---- read_stable_regular_bytes ----

  /** Read to the end or over the limit. If the inode does not change meanwhile, what comes together is a
      prefix of its contents, however short the single reads are. */
  method ReadAll(k: Kernel, fd: nat, maximum: int, ghost i: nat) returns (r: Outcome)
    requires k.Valid() && fd in k.open && k.open[fd].offset == 0 && maximum >= 0 && i < |k.moments|
    modifies k`world, k`moments, k`open, k`delivered
    ensures k.Valid() && old(k.moments) <= k.moments && (!k.noisy ==> k.world == old(k.world))
    ensures fd in k.open && k.open[fd].id == old(k.open[fd].id) && k.open == old(k.open)[fd := k.open[fd]]
    ensures r.Ok? || r.TooLarge? || r.Unstable?
    ensures k.delivered <= old(k.delivered) + maximum + 1
    ensures r.Ok? ==> |r.bytes| <= maximum
    ensures r.Ok? && Steady(k.moments, k.open[fd].id, i) ==> r.bytes <= k.world.nodes[k.open[fd].id].data
    ensures r.TooLarge? ==> Exceeded(k.moments, i, k.open[fd].id, maximum)
    ensures k.Calm() ==>
      var data := k.world.nodes[k.open[fd].id].data; r == if |data| > maximum then TooLarge else Ok(data)
  {
    hide k.Valid;
    ghost var id := k.open[fd].id;
    k.Live(fd);
    var bytes: Bytes, more := [], true;
    while more
      invariant k.Valid() && old(k.moments) <= k.moments && (!k.noisy ==> k.world == old(k.world))
      invariant fd in k.open && k.open[fd] == Handle(id, |bytes|) && k.open == old(k.open)[fd := k.open[fd]]
      invariant id in k.world.nodes && |bytes| <= maximum
      invariant k.delivered - old(k.delivered) <= |bytes|
      invariant Steady(k.moments, id, i) || k.Calm() ==> bytes <= k.world.nodes[id].data
      invariant !more && k.Calm() ==> bytes == k.world.nodes[id].data
      decreases maximum - |bytes|, more
    {
      ghost var before := k.moments;
      k.Live(fd);
      var chunk := k.Read(fd, CHUNK);
      if chunk.None? { return Unstable; }
      if Steady(k.moments, id, i) { SteadyBefore(before, k.moments, id, i); }
      assert k.moments[|before|] == k.world;
      if |bytes| + |chunk.value| > maximum { return TooLarge; }
      PrefixGrows(bytes, chunk.value, k.world.nodes[id].data);
      if chunk.value == [] { more := false; }
      bytes := bytes + chunk.value;
    }
    r := Ok(bytes);
  }

  lemma PrefixGrows(a: Bytes, b: Bytes, whole: Bytes)
    requires b != [] ==> |a| + |b| <= |whole| && b == whole[|a|..|a| + |b|]
    ensures a <= whole ==> a + b <= whole
  {
  }

  lemma SteadyBefore(before: seq<World>, after: seq<World>, id: Id, i: nat)
    requires before <= after && Steady(after, id, i) && i < |before|
    ensures Steady(before, id, i)
    ensures before[|before| - 1].nodes[id] == after[|after| - 1].nodes[id]
  {
    forall m | i <= m < |before|
      ensures id in before[m].nodes && id in before[i].nodes && before[m].nodes[id] == before[i].nodes[id]
    {
      assert before[m] == after[m] && before[i] == after[i];
    }
    assert before[|before| - 1] == after[|before| - 1];
  }

  function Held(fd: Option<nat>): set<nat> {
    if fd.Some? then {fd.value} else {}
  }

  lemma ExceededNow(k: Kernel, before: seq<World>, lo: nat, id: Id, maximum: int)
    requires k.moments == before + [k.world] && lo <= |before|
    requires id in k.world.nodes && |k.world.nodes[id].data| > maximum
    ensures Exceeded(k.moments, lo, id, maximum)
  {
    assert k.moments[|before|] == k.world;
  }

  /** The name led to the inode already at some moment from lo on and before i. */
  ghost predicate NamedEarlier(moments: seq<World>, lo: nat, i: nat, dir: Id, name: string, id: Id) {
    exists m :: lo <= m < i && m < |moments| && Lookup(moments[m], dir, name) == Some(id)
  }

  lemma NamedLater(before: seq<World>, after: seq<World>, lo: nat, i: nat, dir: Id, name: string, id: Id)
    requires before <= after && NamedEarlier(before, lo, i, dir, name, id)
    ensures NamedEarlier(after, lo, i, dir, name, id)
  {
    var m :| lo <= m < i && m < |before| && Lookup(before[m], dir, name) == Some(id);
    assert after[m] == before[m];
  }

  /** The name in that directory led to the inode, and the inode was too large, both since lo. */
  ghost predicate Blamed(moments: seq<World>, lo: nat, dir: Id, name: string, id: Id, maximum: int) {
    NamedEarlier(moments, lo, |moments|, dir, name, id) && Exceeded(moments, lo, id, maximum)
  }

  lemma BlamedSooner(moments: seq<World>, lo: nat, later: nat, dir: Id, name: string, id: Id, maximum: int)
    requires lo <= later && Blamed(moments, later, dir, name, id, maximum)
    ensures Blamed(moments, lo, dir, name, id, maximum)
  {
    NamedSooner(moments, lo, later, |moments|, dir, name, id);
    ExceededSooner(moments, lo, later, id, maximum);
  }

  /** Up to the first look at the opened file; Ok means that there is something to read. `id` is the inode
      that is opened or refused for its size. */
  method OpenFile(k: Kernel, path: Path, maximum: int)
    returns (r: Outcome, parent: Option<nat>, fd: Option<nat>, name: string, before: Stat,
             ghost names: seq<string>, ghost ids: seq<Id>, ghost id: Id)
    requires k.Valid()
    modifies k`world, k`moments, k`open, k`next, k`closed
    ensures k.Valid() && old(k.moments) <= k.moments && (!k.noisy ==> k.world == old(k.world))
    ensures Balanced(old(k.Accounts()), k.Accounts(), Held(parent) + Held(fd))
    ensures (fd.Some? ==> parent.Some? && fd != parent) && |k.moments| > |old(k.moments)|
    ensures r == Ok([]) || r.TooLarge? || r.Unstable?
    ensures r.Ok? || r.TooLarge? ==>
      && parent.Some? && parent.value in k.open && names != [] && name == names[|names| - 1]
      && Reached(k.moments, |old(k.moments)|, k.root, path, names, ids) && |ids| == |names|
      && k.open[parent.value].id == ids[|names| - 1]
    ensures r.TooLarge? ==> Blamed(k.moments, |old(k.moments)|, ids[|names| - 1], name, id, maximum)
    ensures r.Ok? ==>
      && fd.Some? && fd.value in k.open && id == before.id
      && k.open[fd.value] == Handle(before.id, 0) && before.kind.Regular?
      && before.id in k.world.nodes && before == StatOf(before.id, k.world.nodes[before.id])
      && |k.moments| >= 2
      && NamedEarlier(k.moments, |old(k.moments)|, |k.moments| - 2, k.open[parent.value].id, name, before.id)
    ensures k.Calm() && r.Ok? ==>
      Leads(k.world, k.root, path, k.open[parent.value].id, name, before.id) && before.size <= maximum
    ensures k.Calm() && !r.Ok? && maximum >= 0 ==> r == Expected(k.world, k.root, path, maximum)
  {
    hide k.Valid;
    hide Balanced;
    hide Reached;
    hide Walk;
    hide Components;
    hide NamedEarlier;
    hide Blamed;
    ghost var lo, books := |k.moments|, k.Accounts();
    k.Numbered();
    fd, before, r, id := None, NOTHING, Unstable, NOTHING.id;
    parent, name, names, ids := OpenParent(k, path);
    assert Held(parent) + Held(fd) == Held(parent);
    if parent.None? { return; }
    ghost var m0, middle := k.moments, k.Accounts();
    k.Numbered();
    ReachedHas(m0, lo, k.root, path, names, ids);
    r, fd, before, id := OpenNamed(k, parent.value, name, maximum);
    ReachedLater(m0, k.moments, lo, k.root, path, names, ids);
    if r.TooLarge? { BlamedSooner(k.moments, lo, |m0|, ids[|names| - 1], name, id, maximum); }
    if fd.Some? { HandedOut(books, middle, {parent.value}, k.open[fd.value]); }
    assert {parent.value} + Held(fd) == Held(parent) + Held(fd);
    if r.Ok? { NamedSooner(k.moments, lo, |m0|, |k.moments| - 2, k.open[parent.value].id, name, before.id); }
  }

  lemma NamedSooner(moments: seq<World>, lo: nat, later: nat, i: nat, dir: Id, name: string, id: Id)
    requires lo <= later && NamedEarlier(moments, later, i, dir, name, id)
    ensures NamedEarlier(moments, lo, i, dir, name, id)
  {
    var m :| later <= m < i && m < |moments| && Lookup(moments[m], dir, name) == Some(id);
    assert lo <= m;
  }

  /** What opening the name in that directory comes to when left alone. */
  function Opened(w: World, dir: Id, name: string, maximum: int): Outcome {
    match Lookup(w, dir, name)
    case None => Unstable
    case Some(i) =>
      if !w.nodes[i].kind.Regular? then Unstable
      else if |w.nodes[i].data| > maximum then TooLarge else Ok([])
  }

  method OpenNamed(k: Kernel, parent: nat, name: string, maximum: int)
    returns (r: Outcome, fd: Option<nat>, before: Stat, ghost id: Id)
    requires k.Valid() && parent in k.open
    modifies k`world, k`moments, k`open, k`next
    ensures k.Valid() && old(k.moments) <= k.moments && |k.moments| >= |old(k.moments)| + 1
    ensures !k.noisy ==> k.world == old(k.world)
    ensures fd.None? ==> k.open == old(k.open) && k.next == old(k.next) && !r.Ok?
    ensures fd.Some? ==>
      && fd.value == old(k.next) && k.next == old(k.next) + 1 && fd.value in k.open
      && k.open == old(k.open)[fd.value := k.open[fd.value]]
    ensures r == Ok([]) || r.TooLarge? || r.Unstable?
    ensures r.TooLarge? ==> Blamed(k.moments, |old(k.moments)|, old(k.open[parent].id), name, id, maximum)
    ensures r.Ok? ==>
      && id == before.id
      && k.open[fd.value] == Handle(before.id, 0) && before.kind.Regular?
      && before.id in k.world.nodes && before == StatOf(before.id, k.world.nodes[before.id])
      && |k.moments| >= 2
      && NamedEarlier(k.moments, |old(k.moments)|, |k.moments| - 2, old(k.open[parent].id), name, before.id)
    ensures k.Calm() ==> r == Opened(k.world, old(k.open[parent].id), name, maximum)
    ensures k.Calm() && r.Ok? ==>
      Lookup(k.world, old(k.open[parent].id), name) == Some(before.id) && before.size <= maximum
  {
    hide k.Valid;
    hide NamedEarlier;
    hide Exceeded;
    fd, before, r, id := None, NOTHING, Unstable, NOTHING.id;
    ghost var m0, dir := k.moments, k.open[parent].id;
    var initial := k.StatAt(parent, name);
    if initial.None? || !initial.value.kind.Regular? { return; }
    id := initial.value.id;
    ghost var m1 := k.moments;
    NamedNow(m1, |m0|, dir, name, id);
    if initial.value.size > maximum {
      ExceededNow(k, m0, |m0|, id, maximum);
      r := TooLarge;
      return;
    }
    fd := k.OpenAt(parent, name, false);
    if fd.None? { return; }
    k.Live(fd.value);
    var found := k.Fstat(fd.value);
    if found.None? || !found.value.kind.Regular? || found.value.id != initial.value.id { return; }
    k.Live(fd.value);
    before := found.value;
    NamedLater(m1, k.moments, |m0|, |m1|, dir, name, before.id);
    r := Ok([]);
  }

  lemma NamedNow(moments: seq<World>, lo: nat, dir: Id, name: string, id: Id)
    requires lo < |moments| && Lookup(moments[|moments| - 1], dir, name) == Some(id)
    ensures NamedEarlier(moments, lo, |moments|, dir, name, id)
  {
    assert lo <= |moments| - 1;
  }

  /** What is looked up after the read: the opened file, its name in the opened directory, and both the
      directory and the name as the path leads to them now. */
  datatype View = View(
    after: Stat, current: Stat, name: string, openedParent: Stat, liveParent: Stat, liveCurrent: Stat)

  const NOTHING := Stat(Id(0, 0), Special, 0, 0, 0, 0)

  method LookAgain(k: Kernel, path: Path, parent: nat, fd: nat, name: string)
    returns (seen: Option<View>, live: Option<nat>, ghost names: seq<string>, ghost ids: seq<Id>)
    requires k.Valid() && parent in k.open && fd in k.open
    modifies k`world, k`moments, k`open, k`next, k`closed
    ensures k.Valid() && old(k.moments) <= k.moments && (!k.noisy ==> k.world == old(k.world))
    ensures Balanced(old(k.Accounts()), k.Accounts(), Held(live))
    ensures seen.Some? ==>
      var v := seen.value;
      && live.Some? && names != [] && v.name == names[|names| - 1] && |ids| == |names|
      && Reached(k.moments, |old(k.moments)|, k.root, path, names, ids)
      && v.openedParent.id == old(k.open[parent].id) && v.liveParent.id == ids[|names| - 1]
      && Lookup(k.world, ids[|names| - 1], v.name) == Some(v.liveCurrent.id)
      && v.liveCurrent == StatOf(v.liveCurrent.id, k.world.nodes[v.liveCurrent.id])
    ensures k.Calm() && Leads(k.world, k.root, path, old(k.open[parent].id), name, old(k.open[fd].id)) ==>
      var s := StatOf(old(k.open[fd].id), k.world.nodes[old(k.open[fd].id)]);
      seen.Some? && Agrees(s, name, s.size, seen.value)
  {
    hide k.Valid;
    hide Balanced;
    hide Reached;
    hide Walk;
    hide Components;
    ghost var lo := |k.moments|;
    k.Numbered();
    Untouched(k.Accounts());
    live, seen := None, None;
    names, ids := [], [];
    k.Live(fd);
    var here := LookHere(k, parent, fd, name);
    if here.None? { return; }
    ghost var books, m0 := k.Accounts(), k.moments;
    var again;
    live, again, names, ids := OpenParent(k, path);
    StillOpen(books, k.Accounts(), Held(live), parent);
    if live.None? { return; }
    ghost var m1 := k.moments;
    ReachedHas(m1, |m0|, k.root, path, names, ids);
    ReachedSooner(m1, lo, |m0|, k.root, path, names, ids);
    var there := LookThere(k, parent, live.value, again);
    ReachedLater(m1, k.moments, lo, k.root, path, names, ids);
    if there.None? { return; }
    seen := Some(View(here.value.0, here.value.1, again, there.value.0, there.value.1, there.value.2));
  }

  /** The opened file and its name in the opened directory. */
  method LookHere(k: Kernel, parent: nat, fd: nat, name: string) returns (seen: Option<(Stat, Stat)>)
    requires k.Valid() && parent in k.open && fd in k.open
    modifies k`world, k`moments
    ensures k.Valid() && old(k.moments) <= k.moments && (!k.noisy ==> k.world == old(k.world))
    ensures k.Calm() && Lookup(k.world, k.open[parent].id, name) == Some(k.open[fd].id) ==>
      var s := StatOf(k.open[fd].id, k.world.nodes[k.open[fd].id]); seen == Some((s, s))
  {
    hide k.Valid;
    seen := None;
    var after := k.Fstat(fd);
    if after.None? { return; }
    var current := k.StatAt(parent, name);
    if current.None? { return; }
    seen := Some((after.value, current.value));
  }

  /** Both directories, and the name in the live one. */
  method LookThere(k: Kernel, parent: nat, live: nat, name: string) returns (seen: Option<(Stat, Stat, Stat)>)
    requires k.Valid() && parent in k.open && live in k.open
    modifies k`world, k`moments
    ensures k.Valid() && old(k.moments) <= k.moments && (!k.noisy ==> k.world == old(k.world))
    ensures seen.Some? ==>
      var (p, l, c) := seen.value;
      && p.id == k.open[parent].id && l.id == k.open[live].id && Lookup(k.world, l.id, name) == Some(c.id)
      && c == StatOf(c.id, k.world.nodes[c.id])
    ensures k.Calm() && Lookup(k.world, k.open[live].id, name).Some? ==> seen.Some?
  {
    hide k.Valid;
    seen := None;
    var openedParent := k.Fstat(parent);
    if openedParent.None? { return; }
    var liveParent := k.Fstat(live);
    if liveParent.None? { return; }
    var liveCurrent := k.StatAt(live, name);
    if liveCurrent.None? { return; }
    seen := Some((openedParent.value, liveParent.value, liveCurrent.value));
  }

  lemma StillOpen(a: Books, b: Books, held: set<nat>, fd: nat)
    requires a.Numbered() && Balanced(a, b, held) && fd in a.open
    ensures fd in b.open && b.open[fd] == a.open[fd]
  {
  }

  lemma WalkedSooner(moments: seq<World>, lo: nat, later: nat, ids: seq<Id>, names: seq<string>)
    requires lo <= later && Walked(moments, later, ids, names)
    ensures Walked(moments, lo, ids, names)
  {
    forall k | 0 <= k < |names| ensures Led(moments, lo, ids[k], names[k], ids[k + 1]) {
      assert Led(moments, later, ids[k], names[k], ids[k + 1]);
    }
  }

  /** The comparisons at the end; equality of Stat is equality of all stable fields. */
  predicate Agrees(before: Stat, name: string, total: nat, v: View) {
    && total == before.size && v.name == name && v.openedParent.id == v.liveParent.id
    && before == v.after && before == v.current && before == v.liveCurrent
  }

  /** Where a result comes from: the inode, the moment it was first looked at, and the two walks. */
  datatype Evidence = Evidence(
    id: Id, i: nat, names: seq<string>, ids: seq<Id>, namesAgain: seq<string>, idsAgain: seq<Id>)

  /** bytes are the whole contents of one regular inode that has not changed since moment i; it had its
      name before, and now it is still found under the same name in the same directory; and the path stood
      for that name in that directory, with real directories leading there, both since the beginning and
      again since moment i. */
  ghost predicate Snapshot(moments: seq<World>, root: Id, path: Path, lo: nat, e: Evidence, bytes: Bytes) {
    && lo <= e.i < |moments| && Steady(moments, e.id, e.i)
    && moments[e.i].nodes[e.id].kind.Regular? && moments[e.i].nodes[e.id].data == bytes
    && Reached(moments, lo, root, path, e.names, e.ids)
    && Reached(moments, e.i, root, path, e.namesAgain, e.idsAgain)
    && e.names[|e.names| - 1] == e.namesAgain[|e.namesAgain| - 1]
    && e.ids[|e.names| - 1] == e.idsAgain[|e.namesAgain| - 1]
    && NamedEarlier(moments, lo, e.i, e.ids[|e.names| - 1], e.names[|e.names| - 1], e.id)
    && Lookup(moments[|moments| - 1], e.ids[|e.names| - 1], e.names[|e.names| - 1]) == Some(e.id)
  }

  /** The path led to a name, the name to an inode, and that inode was over the limit. */
  ghost predicate WasTooLarge(moments: seq<World>, root: Id, path: Path, lo: nat, e: Evidence, maximum: int) {
    && Reached(moments, lo, root, path, e.names, e.ids)
    && Blamed(moments, lo, e.ids[|e.names| - 1], e.names[|e.names| - 1], e.id, maximum)
  }

  /** The body of the try statement; Ok carries what was read, not yet compared. */
  method Attempt(k: Kernel, path: Path, maximum: int)
    returns (r: Outcome, parent: Option<nat>, live: Option<nat>, fd: Option<nat>,
             name: string, before: Stat, view: View, ghost e: Evidence)
    requires k.Valid() && maximum >= 0
    modifies k`world, k`moments, k`open, k`next, k`closed, k`delivered
    ensures k.Valid() && old(k.moments) <= k.moments && (!k.noisy ==> k.world == old(k.world))
    ensures Balanced(old(k.Accounts()), k.Accounts(), Held(parent) + Held(fd) + Held(live))
    ensures parent.Some? ==> live != parent && fd != parent
    ensures fd.Some? ==> fd != live
    ensures k.delivered <= old(k.delivered) + maximum + 1
    ensures r.Ok? || r.TooLarge? || r.Unstable?
    ensures r.TooLarge? ==> WasTooLarge(k.moments, k.root, path, |old(k.moments)|, e, maximum)
    ensures r.Ok? ==> |r.bytes| <= maximum
    ensures r.Ok? && Agrees(before, name, |r.bytes|, view) ==>
      Snapshot(k.moments, k.root, path, |old(k.moments)|, e, r.bytes)
    ensures k.Calm() ==> r == Expected(k.world, k.root, path, maximum)
    ensures k.Calm() && r.Ok? ==> Agrees(before, name, |r.bytes|, view)
  {
    hide k.Valid;
    hide Balanced;
    hide Reached;
    hide Blamed;
    hide NamedEarlier;
    hide Components;
    hide Walk;
    hide Snapshot;
    hide Agrees;
    ghost var lo, books := |k.moments|, k.Accounts();
    k.Numbered();
    view, live := View(NOTHING, NOTHING, "", NOTHING, NOTHING, NOTHING), None;
    ghost var names, ids, id;
    r, parent, fd, name, before, names, ids, id := OpenFile(k, path, maximum);
    e := Evidence(id, 0, names, ids, [], []);
    assert Held(parent) + Held(fd) == Held(parent) + Held(fd) + Held(live);
    if !r.Ok? { return; }
    assert Held(parent) + Held(fd) == {parent.value, fd.value};
    r, live, view, e := ReadAndLook(k, path, maximum, parent.value, fd.value, name, before, names, ids, lo, books);
    assert {parent.value, fd.value} + Held(live) == Held(parent) + Held(fd) + Held(live);
  }

  /** With the file open: read it, and look at everything again. */
  method ReadAndLook(k: Kernel, path: Path, maximum: int, parent: nat, fd: nat, name: string, before: Stat,
                     ghost names: seq<string>, ghost ids: seq<Id>, ghost lo: nat, ghost books: Books)
    returns (r: Outcome, live: Option<nat>, view: View, ghost e: Evidence)
    requires k.Valid() && maximum >= 0 && parent in k.open && fd in k.open
    requires k.open[fd] == Handle(before.id, 0) && before.kind.Regular?
    requires before.id in k.world.nodes && before == StatOf(before.id, k.world.nodes[before.id])
    requires |k.moments| >= 2 && lo < |k.moments|
    requires names != [] && name == names[|names| - 1] && |ids| == |names|
    requires Reached(k.moments, lo, k.root, path, names, ids) && k.open[parent].id == ids[|names| - 1]
    requires NamedEarlier(k.moments, lo, |k.moments| - 2, ids[|names| - 1], name, before.id)
    requires books.Numbered() && Balanced(books, k.Accounts(), {parent, fd})
    requires k.Calm() ==> Leads(k.world, k.root, path, k.open[parent].id, name, before.id)
    modifies k`world, k`moments, k`open, k`next, k`closed, k`delivered
    ensures k.Valid() && old(k.moments) <= k.moments && (!k.noisy ==> k.world == old(k.world))
    ensures Balanced(books, k.Accounts(), {parent, fd} + Held(live)) && {parent, fd} !! Held(live)
    ensures k.delivered <= old(k.delivered) + maximum + 1
    ensures r.Ok? || r.TooLarge? || r.Unstable?
    ensures r.TooLarge? ==> WasTooLarge(k.moments, k.root, path, lo, e, maximum)
    ensures r.Ok? ==> |r.bytes| <= maximum
    ensures r.Ok? && Agrees(before, name, |r.bytes|, view) ==> Snapshot(k.moments, k.root, path, lo, e, r.bytes)
    ensures k.Calm() ==>
      var data := old(k.world).nodes[before.id].data;
      r == (if |data| > maximum then TooLarge else Ok(data)) && (r.Ok? ==> Agrees(before, name, |r.bytes|, view))
  {
    hide k.Valid;
    hide Balanced;
    hide Reached;
    hide Exceeded;
    hide Steady;
    hide NamedEarlier;
    hide Components;
    hide Walk;
    hide Snapshot;
    view, live := View(NOTHING, NOTHING, "", NOTHING, NOTHING, NOTHING), None;
    e := Evidence(before.id, 0, names, ids, [], []);
    k.Live(fd);
    ghost var i, middle, held, m0 := |k.moments| - 1, k.Accounts(), {parent, fd}, k.moments;
    r := ReadAll(k, fd, maximum, i);
    Moved(books, middle, held, fd, k.open[fd]);
    assert held + Held(live) == held;
    if r.TooLarge? {
      ReachedLater(m0, k.moments, lo, k.root, path, names, ids);
      NowBlamed(m0, k.moments, lo, i, ids[|names| - 1], name, before.id, maximum);
    }
    if !r.Ok? { return; }
    k.Live(fd);
    k.Numbered();
    middle := k.Accounts();
    ghost var m1 := k.moments;
    var seen;
    ghost var namesAgain, idsAgain;
    seen, live, namesAgain, idsAgain := LookAgain(k, path, parent, fd, name);
    BalancedTrans(books, middle, k.Accounts(), held, Held(live));
    if seen.None? { r := Unstable; return; }
    view := seen.value;
    e := Evidence(before.id, i, names, ids, namesAgain, idsAgain);
    if Agrees(before, name, |r.bytes|, view) {
      k.Last();
      assert k.moments[i] == m0[i];
      Conclude(k, path, lo, m0, m1, e, name, before.ctime, r.bytes);
    }
  }

  lemma NowBlamed(before: seq<World>, after: seq<World>, lo: nat, i: nat, dir: Id, name: string, id: Id, maximum: int)
    requires before <= after && lo <= i == |before| - 1
    requires i > 0 && NamedEarlier(before, lo, i - 1, dir, name, id) && Exceeded(after, i, id, maximum)
    ensures Blamed(after, lo, dir, name, id, maximum)
  {
    var m :| lo <= m < i - 1 && m < |before| && Lookup(before[m], dir, name) == Some(id);
    assert after[m] == before[m];
    ExceededSooner(after, lo, i, id, maximum);
  }

  /** The same ctime at the beginning and at the end makes a prefix of the right length a snapshot. */
  lemma Conclude(k: Kernel, path: Path, lo: nat, m0: seq<World>, m1: seq<World>, e: Evidence, name: string, ctime: int,
                 bytes: Bytes)
    requires k.Valid() && m0 <= m1 <= k.moments && lo <= e.i == |m0| - 1
    requires |e.ids| == |e.names| && |e.idsAgain| == |e.namesAgain|
    requires e.names != [] && e.namesAgain != [] && name == e.names[|e.names| - 1] == e.namesAgain[|e.namesAgain| - 1]
    requires Reached(m0, lo, k.root, path, e.names, e.ids)
    requires Reached(k.moments, |m1|, k.root, path, e.namesAgain, e.idsAgain)
    requires e.ids[|e.names| - 1] == e.idsAgain[|e.namesAgain| - 1]
    requires e.i > 0 && NamedEarlier(m0, lo, e.i - 1, e.ids[|e.names| - 1], name, e.id)
    requires e.id in m0[e.i].nodes && m0[e.i].nodes[e.id].kind.Regular? && |bytes| == |m0[e.i].nodes[e.id].data|
    requires Lookup(k.world, e.ids[|e.names| - 1], name) == Some(e.id)
    requires m0[e.i].nodes[e.id].ctime == ctime == k.world.nodes[e.id].ctime
    requires Steady(m1, e.id, e.i) ==> bytes <= m1[|m1| - 1].nodes[e.id].data
    ensures Snapshot(k.moments, k.root, path, lo, e, bytes)
  {
    hide k.Valid;
    hide Reached;
    hide Steady;
    hide NamedEarlier;
    k.Last();
    ReachedLater(m0, k.moments, lo, k.root, path, e.names, e.ids);
    ReachedSooner(k.moments, e.i, |m1|, k.root, path, e.namesAgain, e.idsAgain);
    NamedLater(m0, k.moments, lo, e.i - 1, e.ids[|e.names| - 1], name, e.id);
    NamedUpTo(k.moments, lo, e.i, e.ids[|e.names| - 1], name, e.id);
    assert k.moments[e.i] == m0[e.i];
    BecomesSteady(k, e.id, e.i);
    SteadyBefore(m1, k.moments, e.id, e.i);
    SteadyEnds(m1, e.id, e.i);
  }

  lemma NamedUpTo(moments: seq<World>, lo: nat, i: nat, dir: Id, name: string, id: Id)
    requires i > 0 && NamedEarlier(moments, lo, i - 1, dir, name, id)
    ensures NamedEarlier(moments, lo, i, dir, name, id)
  {
  }

  lemma SteadyEnds(moments: seq<World>, id: Id, i: nat)
    requires Steady(moments, id, i)
    ensures moments[|moments| - 1].nodes[id] == moments[i].nodes[id]
  {
  }

  lemma ExceededSooner(moments: seq<World>, lo: nat, later: nat, id: Id, maximum: int)
    requires lo <= later && Exceeded(moments, later, id, maximum)
    ensures Exceeded(moments, lo, id, maximum)
  {
    var m :| later <= m < |moments| && id in moments[m].nodes && |moments[m].nodes[id].data| > maximum;
    assert lo <= m;
  }

  lemma BecomesSteady(k: Kernel, id: Id, i: nat)
    requires k.Valid() && i < |k.moments| && id in k.moments[i].nodes && id in k.world.nodes
    requires k.moments[i].nodes[id].ctime == k.world.nodes[id].ctime
    ensures Steady(k.moments, id, i)
  {
    var last := |k.moments| - 1;
    forall m | i <= m < |k.moments|
      ensures id in k.moments[m].nodes && k.moments[m].nodes[id] == k.moments[i].nodes[id]
    {
      if i < m < last {
        SameCtimeSameNode(k.moments[i], k.moments[m], k.moments[last], id);
      } else if i < m {
        Unmoved(k.world);
        SameCtimeSameNode(k.moments[i], k.world, k.world, id);
      }
    }
  }

  lemma Unmoved(w: World)
    requires Sane(w)
    ensures Evolves(w, w)
  {
  }

  /** read_stable_regular_bytes. Whatever others do and whichever calls fail: every descriptor is closed
      exactly once, at most maximum + 1 reads deliver anything, a result is a snapshot within the limit of
      what the path stands for, and only an inode that the path led to and that was over the limit is
      called too large. Left alone, it returns just what is there. */
  method ReadStable(k: Kernel, path: Path, maximum: int) returns (r: Outcome, ghost e: Evidence)
    requires k.Valid()
    modifies k`world, k`moments, k`open, k`next, k`closed, k`delivered
    ensures k.Valid() && old(k.moments) <= k.moments
    ensures Balanced(old(k.Accounts()), k.Accounts(), {})
    ensures k.delivered <= old(k.delivered) + if maximum >= 0 then maximum + 1 else 0
    ensures r.BadLimit? <==> maximum < 0
    ensures r.Ok? ==> |r.bytes| <= maximum && Snapshot(k.moments, k.root, path, |old(k.moments)|, e, r.bytes)
    ensures r.TooLarge? ==> WasTooLarge(k.moments, k.root, path, |old(k.moments)|, e, maximum)
    ensures k.Calm() ==> r == Expected(old(k.world), k.root, path, maximum)
  {
    hide k.Valid;
    hide Balanced;
    hide Snapshot;
    hide WasTooLarge;
    hide Agrees;
    e := Evidence(Id(0, 0), 0, [], [], [], []);
    k.Numbered();
    ghost var books := k.Accounts();
    Untouched(books);
    if maximum < 0 { return BadLimit, e; }
    var parent, live, fd, name, before, view;
    r, parent, live, fd, name, before, view, e := Attempt(k, path, maximum);
    ghost var held := Held(parent) + Held(fd) + Held(live);
    k.CloseIf(books, fd, held);
    k.CloseIf(books, live, held - Held(fd));
    k.CloseIf(books, parent, held - Held(fd) - Held(live));
    assert held - Held(fd) - Held(live) - Held(parent) == {};
    if r.Ok? && !Agrees(before, name, |r.bytes|, view) { r := Unstable; }
  }
}

/** Rollups per organ, built in one pass over tasks, prompts and links, against what they should count. */
module Rollups {
  import opened Disks

  datatype Organ = Organ(key: string, dir: string, registry: string)

  const ORGANS: seq<Organ> := [
    Organ("I", "organvm-i-theoria", "ORGAN-I"),
    Organ("II", "organvm-ii-poiesis", "ORGAN-II"),
    Organ("III", "organvm-iii-ergon", "ORGAN-III"),
    Organ("IV", "organvm-iv-taxis", "ORGAN-IV"),
    Organ("V", "organvm-v-logos", "ORGAN-V"),
    Organ("VI", "organvm-vi-koinonia", "ORGAN-VI"),
    Organ("VII", "organvm-vii-kerygma", "ORGAN-VII"),
    Organ("META", "meta-organvm", "META-ORGANVM"),
    Organ("SIGMA_E", "4444J99", "SIGMA-E"),
    Organ("LIMINAL", "4444J99", "PERSONAL")]

  datatype Task = Task(
    id: string, organ: string, repo: string, status: string, title: string, tags: seq<string>, fingerprint: string)

  datatype Prompt = Prompt(id: string, slug: string, kind: string, fingerprint: string)

  datatype Link = Link(task: string, prompt: string, jaccard: real)

  datatype Waiting = Waiting(id: string, title: string, status: string, tags: seq<string>)

  datatype CrossLink = CrossLink(task: string, prompt: string, taskOrgan: string, promptOrgan: string, jaccard: real)

  datatype OrganRollup = OrganRollup(
    organ: Organ, total: nat, pending: nat, completed: nat, byRepo: map<string, seq<Waiting>>,
    links: seq<CrossLink>, kinds: map<string, nat>, sessions: map<string, nat>, fingerprints: map<string, nat>)

  type Lower = string -> string

  // ---- Organs ----

  function Find(organs: seq<Organ>, key: string): Option<Organ> {
    if organs == [] then None else if organs[0].key == key then Some(organs[0]) else Find(organs[1..], key)
  }

  predicate Known(key: string) {
    Find(ORGANS, key).Some?
  }

  lemma FindsKey(organs: seq<Organ>, key: string)
    ensures Find(organs, key).Some? ==> Find(organs, key).value.key == key
  {
  }

  function OrganOf(key: string): (o: Organ)
    requires Known(key)
    ensures o.key == key
  {
    FindsKey(ORGANS, key);
    Find(ORGANS, key).value
  }

  /** A later organ of the same directory replaces an earlier one. */
  function KeyOfDir(organs: seq<Organ>, dir: string): Option<string> {
    if organs == [] then None
    else if organs[|organs| - 1].dir == dir then Some(organs[|organs| - 1].key)
    else KeyOfDir(organs[..|organs| - 1], dir)
  }

  /** Up to the first slash and behind it; None without a slash. */
  function Cut(slug: string): (r: Option<(string, string)>)
    ensures r.None? <==> '/' !in slug
    ensures r.Some? ==> '/' !in r.value.0 && slug == r.value.0 + "/" + r.value.1
  {
    if slug == "" then None
    else if slug[0] == '/' then Some(("", slug[1..]))
    else match Cut(slug[1..])
      case None => None
      case Some((a, b)) => assert slug == [slug[0]] + slug[1..]; Some(([slug[0]] + a, b))
  }

  function OrganKeyFromSlug(slug: string): Option<string> {
    match Cut(slug) case None => None case Some((dir, repo)) => KeyOfDir(ORGANS, dir)
  }

  function SessionOf(slug: string): string {
    match Cut(slug) case None => slug case Some((dir, repo)) => repo
  }

  // ---- The definition ----

  function MyTasks(tasks: seq<Task>, key: string): seq<Task> {
    if tasks == [] then []
    else
      var t := tasks[|tasks| - 1];
      if t.organ == key
      then MyTasks(tasks[..|tasks| - 1], key) + [t]
      else MyTasks(tasks[..|tasks| - 1], key)
  }

  predicate IsPending(status: string) {
    status in {"pending", "todo", "open", "blocked"}
  }

  predicate IsCompleted(status: string) {
    status in {"done", "complete", "completed"}
  }

  function WithStatus(tasks: seq<Task>, lower: Lower, test: string -> bool): seq<Task> {
    if tasks == [] then []
    else
      var t := tasks[|tasks| - 1];
      if test(lower(t.status))
      then WithStatus(tasks[..|tasks| - 1], lower, test) + [t]
      else WithStatus(tasks[..|tasks| - 1], lower, test)
  }

  function RepoOf(t: Task): string {
    if t.repo == "" then "_unattributed" else t.repo
  }

  function EntriesOf(tasks: seq<Task>, repo: string): seq<Waiting> {
    if tasks == [] then []
    else
      var t := tasks[|tasks| - 1];
      if RepoOf(t) == repo
      then EntriesOf(tasks[..|tasks| - 1], repo) + [Waiting(t.id, t.title, t.status, t.tags)]
      else EntriesOf(tasks[..|tasks| - 1], repo)
  }

  function Repos(tasks: seq<Task>): set<string> {
    set t | t in tasks :: RepoOf(t)
  }

  function Grouped(tasks: seq<Task>): map<string, seq<Waiting>> {
    map r | r in Repos(tasks) :: EntriesOf(tasks, r)
  }

  function CountOf(items: seq<string>, x: string): nat {
    if items == [] then 0
    else CountOf(items[..|items| - 1], x) + if items[|items| - 1] == x then 1 else 0
  }

  function Tally(items: seq<string>): map<string, nat> {
    map x | x in items :: CountOf(items, x)
  }

  const EMPTY_FINGERPRINT := "e3b0c44298fc"

  predicate Telling(fingerprint: string) {
    fingerprint != "" &&
    !(|EMPTY_FINGERPRINT| <= |fingerprint| && fingerprint[..|EMPTY_FINGERPRINT|] == EMPTY_FINGERPRINT)
  }

  function TaskPrints(tasks: seq<Task>): seq<string> {
    if tasks == [] then []
    else
      var f := tasks[|tasks| - 1].fingerprint;
      if Telling(f)
      then TaskPrints(tasks[..|tasks| - 1]) + [f]
      else TaskPrints(tasks[..|tasks| - 1])
  }

  function MyPrompts(prompts: seq<Prompt>, key: string): seq<Prompt> {
    if prompts == [] then []
    else
      var p := prompts[|prompts| - 1];
      if OrganKeyFromSlug(p.slug) == Some(key)
      then MyPrompts(prompts[..|prompts| - 1], key) + [p]
      else MyPrompts(prompts[..|prompts| - 1], key)
  }

  function Kinds(prompts: seq<Prompt>): (r: seq<string>)
    ensures |r| == |prompts|
  {
    if prompts == [] then [] else Kinds(prompts[..|prompts| - 1]) + [prompts[|prompts| - 1].kind]
  }

  function Sessions(prompts: seq<Prompt>): (r: seq<string>)
    ensures |r| == |prompts|
  {
    if prompts == [] then [] else Sessions(prompts[..|prompts| - 1]) + [SessionOf(prompts[|prompts| - 1].slug)]
  }

  function PromptPrints(prompts: seq<Prompt>): seq<string> {
    if prompts == [] then []
    else
      var f := prompts[|prompts| - 1].fingerprint;
      if Telling(f)
      then PromptPrints(prompts[..|prompts| - 1]) + [f]
      else PromptPrints(prompts[..|prompts| - 1])
  }

  /** The organ of the last task of that id that has a known one. */
  function TaskOrgan(tasks: seq<Task>, id: string): Option<string> {
    if tasks == [] then None
    else
      var t := tasks[|tasks| - 1];
      if t.id == id && Known(t.organ) then Some(t.organ) else TaskOrgan(tasks[..|tasks| - 1], id)
  }

  function PromptOrgan(prompts: seq<Prompt>, id: string): Option<string> {
    if prompts == [] then None
    else
      var p := prompts[|prompts| - 1];
      if p.id == id && OrganKeyFromSlug(p.slug).Some? then OrganKeyFromSlug(p.slug)
      else PromptOrgan(prompts[..|prompts| - 1], id)
  }

  /** The links between a task and a prompt of different organs. */
  function CrossLinks(links: seq<Link>, tasks: seq<Task>, prompts: seq<Prompt>): seq<CrossLink> {
    if links == [] then []
    else
      var l := links[|links| - 1];
      var before := CrossLinks(links[..|links| - 1], tasks, prompts);
      match (TaskOrgan(tasks, l.task), PromptOrgan(prompts, l.prompt))
      case (Some(a), Some(b)) => if a != b then before + [CrossLink(l.task, l.prompt, a, b, l.jaccard)] else before
      case _ => before
  }

  function Touching(links: seq<CrossLink>, key: string): seq<CrossLink> {
    if links == [] then []
    else
      var l := links[|links| - 1];
      if l.taskOrgan == key || l.promptOrgan == key
      then Touching(links[..|links| - 1], key) + [l]
      else Touching(links[..|links| - 1], key)
  }

  /** The rollup of one organ, each field on its own. */
  function RollupOf(organ: Organ, tasks: seq<Task>, prompts: seq<Prompt>, cross: seq<CrossLink>,
                    lower: Lower): OrganRollup {
    var mine, asked := MyTasks(tasks, organ.key), MyPrompts(prompts, organ.key);
    var pending := WithStatus(mine, lower, IsPending);
    OrganRollup(
      organ, |mine|, |pending|, |WithStatus(mine, lower, IsCompleted)|, Grouped(pending),
      Touching(cross, organ.key), Tally(Kinds(asked)), Tally(Sessions(asked)),
      Tally(TaskPrints(mine) + PromptPrints(asked)))
  }

  /** An organ has a rollup when it is known and something belongs to it. */
  ghost predicate Present(key: string, tasks: seq<Task>, prompts: seq<Prompt>) {
    Known(key) && (MyTasks(tasks, key) != [] || MyPrompts(prompts, key) != [])
  }

  ghost predicate Complete(rollups: map<string, OrganRollup>, tasks: seq<Task>, prompts: seq<Prompt>,
                           cross: seq<CrossLink>, lower: Lower)
  {
    && (forall k :: k in rollups <==> Present(k, tasks, prompts))
    && (forall k :: k in rollups ==> rollups[k] == RollupOf(OrganOf(k), tasks, prompts, cross, lower))
  }

  // ---- What the numbers and lists mean ----

  /** The positions whose items pass. */
  function Hits<T(!new)>(items: seq<T>, test: T -> bool): set<nat> {
    set i: nat | i < |items| && test(items[i])
  }

  lemma HitsMore<T(!new)>(items: seq<T>, x: T, test: T -> bool)
    ensures |Hits(items + [x], test)| == |Hits(items, test)| + if test(x) then 1 else 0
  {
    var all := items + [x];
    assert forall i: nat :: i < |items| ==> all[i] == items[i];
    assert Hits(all, test) == if test(x) then Hits(items, test) + {|items|} else Hits(items, test);
  }

  /** Ascending, and exactly the positions whose items pass. */
  ghost predicate Positions<T(!new)>(items: seq<T>, test: T -> bool, at: seq<nat>) {
    && (forall j, k :: 0 <= j < k < |at| ==> at[j] < at[k])
    && forall i: nat :: i in at <==> i in Hits(items, test)
  }

  ghost predicate Renders<T, U(!new)>(items: seq<T>, at: seq<nat>, render: T -> U, out: seq<U>) {
    |out| == |at| && forall j :: 0 <= j < |at| ==> at[j] < |items| && out[j] == render(items[at[j]])
  }

  /** All items that pass, rendered, in their order, and nothing else. */
  ghost predicate Lists<T(!new), U(!new)>(items: seq<T>, test: T -> bool, render: T -> U, out: seq<U>) {
    exists at: seq<nat> :: Positions(items, test, at) && Renders(items, at, render, out)
  }

  lemma NothingListed<T(!new), U(!new)>(test: T -> bool, render: T -> U)
    ensures Lists([], test, render, [])
  {
    var at: seq<nat> := [];
    assert Positions([], test, at) && Renders([], at, render, []);
  }

  lemma PositionsMore<T(!new)>(items: seq<T>, x: T, test: T -> bool, at: seq<nat>)
    requires Positions(items, test, at)
    ensures var n: nat := |items|; Positions(items + [x], test, if test(x) then at + [n] else at)
  {
    var all, n: nat := items + [x], |items|;
    assert forall i: nat :: i < n ==> all[i] == items[i];
    assert forall i: nat :: i in Hits(all, test) <==> i in Hits(items, test) || (i == n && test(x));
    assert forall i: nat :: i in at + [n] <==> i in at || i == n;
    forall j | 0 <= j < |at| ensures at[j] < n { assert at[j] in at; }
  }

  lemma ListsMore<T(!new), U(!new)>(items: seq<T>, x: T, test: T -> bool, render: T -> U, out: seq<U>)
    requires Lists(items, test, render, out)
    ensures Lists(items + [x], test, render, out + if test(x) then [render(x)] else [])
  {
    hide Positions;
    var at: seq<nat> :| Positions(items, test, at) && Renders(items, at, render, out);
    var n: nat := |items|;
    PositionsMore(items, x, test, at);
    if test(x) {
      assert Renders(items + [x], at + [n], render, out + [render(x)]);
    } else {
      assert out + [] == out;
      assert Renders(items + [x], at, render, out);
    }
  }

  function OfOrgan(key: string): Task -> bool {
    (t: Task) => t.organ == key
  }

  function PendingOf(key: string, lower: Lower): Task -> bool {
    (t: Task) => t.organ == key && lower(t.status) in {"pending", "todo", "open", "blocked"}
  }

  function CompletedOf(key: string, lower: Lower): Task -> bool {
    (t: Task) => t.organ == key && lower(t.status) in {"done", "complete", "completed"}
  }

  function WaitingFor(key: string, lower: Lower, repo: string): Task -> bool {
    (t: Task) =>
      && t.organ == key && lower(t.status) in {"pending", "todo", "open", "blocked"}
      && repo == if t.repo == "" then "_unattributed" else t.repo
  }

  function AsWaiting(): Task -> Waiting {
    (t: Task) => Waiting(t.id, t.title, t.status, t.tags)
  }

  function PrintedTask(key: string, mark: string): Task -> bool {
    (t: Task) => t.organ == key && t.fingerprint == mark
  }

  function AskedOf(key: string): Prompt -> bool {
    (p: Prompt) => OrganKeyFromSlug(p.slug) == Some(key)
  }

  function KindAsked(key: string, kind: string): Prompt -> bool {
    (p: Prompt) => OrganKeyFromSlug(p.slug) == Some(key) && p.kind == kind
  }

  /** What follows the first slash. */
  ghost predicate Behind(slug: string, rest: string) {
    exists dir :: '/' !in dir && slug == dir + "/" + rest
  }

  ghost function SessionAsked(key: string, session: string): Prompt -> bool {
    (p: Prompt) => OrganKeyFromSlug(p.slug) == Some(key) && Behind(p.slug, session)
  }

  lemma SessionIsBehind(slug: string, rest: string)
    requires OrganKeyFromSlug(slug).Some?
    ensures SessionOf(slug) == rest <==> Behind(slug, rest)
  {
    if Behind(slug, rest) {
      var dir :| '/' !in dir && slug == dir + "/" + rest;
      CutAtSlash(dir, rest);
    }
  }

  function PrintedPrompt(key: string, mark: string): Prompt -> bool {
    (p: Prompt) => OrganKeyFromSlug(p.slug) == Some(key) && p.fingerprint == mark
  }

  const KEYS := {"I", "II", "III", "IV", "V", "VI", "VII", "META", "SIGMA_E", "LIMINAL"}

  function Attributed(): Task -> bool {
    (t: Task) => t.organ in KEYS
  }

  function CrossFor(key: string, tasks: seq<Task>, prompts: seq<Prompt>): Link -> bool {
    (l: Link) =>
      var a, b := TaskOrgan(tasks, l.task), PromptOrgan(prompts, l.prompt);
      a.Some? && b.Some? && a != b && (a == Some(key) || b == Some(key))
  }

  function AsCross(tasks: seq<Task>, prompts: seq<Prompt>): Link -> CrossLink {
    (l: Link) =>
      var a, b := TaskOrgan(tasks, l.task), PromptOrgan(prompts, l.prompt);
      CrossLink(l.task, l.prompt, if a.Some? then a.value else "", if b.Some? then b.value else "", l.jaccard)
  }

  /** The map holds exactly the positive counts. */
  predicate Counts(m: map<string, nat>, x: string, n: nat) {
    if n == 0 then x !in m else x in m && m[x] == n
  }

  /** One rollup, by what it counts and lists. */
  ghost predicate Accounts(r: OrganRollup, key: string, tasks: seq<Task>, prompts: seq<Prompt>, links: seq<Link>,
                           lower: Lower)
  {
    && r.organ in ORGANS && r.organ.key == key
    && r.total == |Hits(tasks, OfOrgan(key))|
    && r.pending == |Hits(tasks, PendingOf(key, lower))|
    && r.completed == |Hits(tasks, CompletedOf(key, lower))|
    && (forall repo :: Lists(tasks, WaitingFor(key, lower, repo), AsWaiting(), Queued(r, repo)))
    && (forall repo :: repo in r.byRepo ==> r.byRepo[repo] != [])
    && Lists(links, CrossFor(key, tasks, prompts), AsCross(tasks, prompts), r.links)
    && (forall x :: Counts(r.kinds, x, |Hits(prompts, KindAsked(key, x))|))
    && (forall x :: Counts(r.sessions, x, |Hits(prompts, SessionAsked(key, x))|))
    && (forall x :: Counts(r.fingerprints, x, if Telling(x)
          then |Hits(tasks, PrintedTask(key, x))| + |Hits(prompts, PrintedPrompt(key, x))| else 0))
  }

  function Queued(r: OrganRollup, repo: string): seq<Waiting> {
    if repo in r.byRepo then r.byRepo[repo] else []
  }

  lemma {:induction false} TasksAreHits(tasks: seq<Task>, key: string, lower: Lower)
    ensures |MyTasks(tasks, key)| == |Hits(tasks, OfOrgan(key))|
    ensures |WithStatus(MyTasks(tasks, key), lower, IsPending)| == |Hits(tasks, PendingOf(key, lower))|
    ensures |WithStatus(MyTasks(tasks, key), lower, IsCompleted)| == |Hits(tasks, CompletedOf(key, lower))|
  {
    hide Hits;
    if tasks == [] {
      NoHits(OfOrgan(key));
      NoHits(PendingOf(key, lower));
      NoHits(CompletedOf(key, lower));
    } else {
      var front, t := tasks[..|tasks| - 1], tasks[|tasks| - 1];
      assert tasks == front + [t];
      TasksAreHits(front, key, lower);
      HitsMore(front, t, OfOrgan(key));
      HitsMore(front, t, PendingOf(key, lower));
      HitsMore(front, t, CompletedOf(key, lower));
      var mine := MyTasks(front, key);
      assert (mine + [t])[..|mine|] == mine;
    }
  }

  lemma NoHits<T(!new)>(test: T -> bool)
    ensures |Hits([], test)| == 0
  {
    assert Hits([], test) == {};
  }

  lemma {:induction false} QueueIsListed(tasks: seq<Task>, key: string, lower: Lower, repo: string)
    ensures Lists(tasks, WaitingFor(key, lower, repo), AsWaiting(),
                  EntriesOf(WithStatus(MyTasks(tasks, key), lower, IsPending), repo))
  {
    hide Lists;
    hide EntriesOf;
    if tasks == [] {
      NoEntries(WithStatus(MyTasks(tasks, key), lower, IsPending), repo);
      NothingListed(WaitingFor(key, lower, repo), AsWaiting());
    } else {
      var front, t := tasks[..|tasks| - 1], tasks[|tasks| - 1];
      assert tasks == front + [t];
      QueueIsListed(front, key, lower, repo);
      var mine := MyTasks(front, key);
      var pending := WithStatus(mine, lower, IsPending);
      ListsMore(front, t, WaitingFor(key, lower, repo), AsWaiting(), EntriesOf(pending, repo));
      assert (mine + [t])[..|mine|] == mine;
      EntriesMore(pending, t, repo);
      assert EntriesOf(pending, repo) + [] == EntriesOf(pending, repo);
    }
  }

  lemma {:induction false} LinksAreListed(links: seq<Link>, key: string, tasks: seq<Task>, prompts: seq<Prompt>)
    ensures Lists(links, CrossFor(key, tasks, prompts), AsCross(tasks, prompts),
                  Touching(CrossLinks(links, tasks, prompts), key))
  {
    hide Lists;
    hide TaskOrgan;
    hide PromptOrgan;
    var test, render := CrossFor(key, tasks, prompts), AsCross(tasks, prompts);
    if links == [] {
      NothingListed(test, render);
    } else {
      var front, l := links[..|links| - 1], links[|links| - 1];
      assert links == front + [l];
      LinksAreListed(front, key, tasks, prompts);
      var cross := CrossLinks(front, tasks, prompts);
      ListsMore(front, l, test, render, Touching(cross, key));
      assert forall c :: (cross + [c])[..|cross|] == cross;
      assert Touching(cross, key) + [] == Touching(cross, key);
    }
  }

  lemma {:induction false} KindsAreHits(prompts: seq<Prompt>, key: string, x: string)
    ensures CountOf(Kinds(MyPrompts(prompts, key)), x) == |Hits(prompts, KindAsked(key, x))|
    ensures CountOf(Sessions(MyPrompts(prompts, key)), x) == |Hits(prompts, SessionAsked(key, x))|
  {
    hide Hits;
    hide OrganKeyFromSlug;
    hide SessionOf;
    hide Behind;
    if prompts == [] {
      NoHits(KindAsked(key, x));
      NoHits(SessionAsked(key, x));
    } else {
      var front, p := prompts[..|prompts| - 1], prompts[|prompts| - 1];
      assert prompts == front + [p];
      KindsAreHits(front, key, x);
      HitsMore(front, p, KindAsked(key, x));
      HitsMore(front, p, SessionAsked(key, x));
      if OrganKeyFromSlug(p.slug).Some? { SessionIsBehind(p.slug, x); }
      var mine := MyPrompts(front, key);
      assert (mine + [p])[..|mine|] == mine;
      CountMore(Kinds(mine), p.kind, x);
      CountMore(Sessions(mine), SessionOf(p.slug), x);
    }
  }

  lemma CountMore(items: seq<string>, y: string, x: string)
    ensures CountOf(items + [y], x) == CountOf(items, x) + if y == x then 1 else 0
  {
    assert (items + [y])[..|items|] == items;
  }

  lemma {:induction false} TaskPrintsAreHits(tasks: seq<Task>, key: string, x: string)
    ensures CountOf(TaskPrints(MyTasks(tasks, key)), x) == if Telling(x) then |Hits(tasks, PrintedTask(key, x))| else 0
  {
    hide Hits;
    hide Telling;
    if tasks == [] {
      NoHits(PrintedTask(key, x));
    } else {
      var front, t := tasks[..|tasks| - 1], tasks[|tasks| - 1];
      assert tasks == front + [t];
      TaskPrintsAreHits(front, key, x);
      HitsMore(front, t, PrintedTask(key, x));
      var mine := MyTasks(front, key);
      assert (mine + [t])[..|mine|] == mine;
      CountMore(TaskPrints(mine), t.fingerprint, x);
    }
  }

  lemma {:induction false} PromptPrintsAreHits(prompts: seq<Prompt>, key: string, x: string)
    ensures CountOf(PromptPrints(MyPrompts(prompts, key)), x) ==
      if Telling(x) then |Hits(prompts, PrintedPrompt(key, x))| else 0
  {
    hide Hits;
    hide Telling;
    hide OrganKeyFromSlug;
    if prompts == [] {
      NoHits(PrintedPrompt(key, x));
    } else {
      var front, p := prompts[..|prompts| - 1], prompts[|prompts| - 1];
      assert prompts == front + [p];
      PromptPrintsAreHits(front, key, x);
      HitsMore(front, p, PrintedPrompt(key, x));
      var mine := MyPrompts(front, key);
      assert (mine + [p])[..|mine|] == mine;
      CountMore(PromptPrints(mine), p.fingerprint, x);
    }
  }

  lemma {:induction false} CountsAdd(a: seq<string>, b: seq<string>, x: string)
    ensures CountOf(a + b, x) == CountOf(a, x) + CountOf(b, x)
  {
    if b == [] {
      assert a + b == a;
    } else {
      var front, y := b[..|b| - 1], b[|b| - 1];
      CountsAdd(a, front, x);
      CountMore(a + front, y, x);
      assert a + b == (a + front) + [y];
    }
  }

  lemma {:induction false} Appears(items: seq<string>, x: string)
    ensures x in items <==> CountOf(items, x) > 0
  {
    if items != [] {
      Appears(items[..|items| - 1], x);
      assert items == items[..|items| - 1] + [items[|items| - 1]];
    }
  }

  lemma TallyCounts(items: seq<string>, x: string)
    ensures Counts(Tally(items), x, CountOf(items, x))
  {
    Appears(items, x);
  }

  /** Every rollup accounts for what it says. */
  lemma RollupAccounts(organ: Organ, tasks: seq<Task>, prompts: seq<Prompt>, links: seq<Link>, lower: Lower)
    requires organ in ORGANS
    ensures Accounts(RollupOf(organ, tasks, prompts, CrossLinks(links, tasks, prompts), lower),
                     organ.key, tasks, prompts, links, lower)
  {
    hide MyTasks;
    hide MyPrompts;
    hide WithStatus;
    hide CrossLinks;
    hide Touching;
    hide TaskPrints;
    hide PromptPrints;
    hide Kinds;
    hide Sessions;
    hide Hits;
    hide Lists;
    hide Tally;
    hide Counts;
    hide CountOf;
    hide Telling;
    hide OrganKeyFromSlug;
    hide SessionOf;
    var mine, asked := MyTasks(tasks, organ.key), MyPrompts(prompts, organ.key);
    var pending := WithStatus(mine, lower, IsPending);
    TasksAreHits(tasks, organ.key, lower);
    LinksAreListed(links, organ.key, tasks, prompts);
    forall repo
      ensures Lists(tasks, WaitingFor(organ.key, lower, repo), AsWaiting(),
                    if repo in Grouped(pending) then Grouped(pending)[repo] else [])
      ensures repo in Grouped(pending) ==> Grouped(pending)[repo] != []
    {
      QueueIsListed(tasks, organ.key, lower, repo);
      if repo in Repos(pending) { SomeEntry(pending, repo); }
      else { RepoMissing(pending, repo); NoEntries(pending, repo); }
    }
    forall x
      ensures Counts(Tally(Kinds(asked)), x, |Hits(prompts, KindAsked(organ.key, x))|)
      ensures Counts(Tally(Sessions(asked)), x, |Hits(prompts, SessionAsked(organ.key, x))|)
      ensures Counts(Tally(TaskPrints(mine) + PromptPrints(asked)), x, if Telling(x)
        then |Hits(tasks, PrintedTask(organ.key, x))| + |Hits(prompts, PrintedPrompt(organ.key, x))| else 0)
    {
      KindsAreHits(prompts, organ.key, x);
      TaskPrintsAreHits(tasks, organ.key, x);
      PromptPrintsAreHits(prompts, organ.key, x);
      CountsAdd(TaskPrints(mine), PromptPrints(asked), x);
      TallyCounts(Kinds(asked), x);
      TallyCounts(Sessions(asked), x);
      TallyCounts(TaskPrints(mine) + PromptPrints(asked), x);
    }
  }

  // ---- One more item ----

  lemma TallyMore(items: seq<string>, x: string)
    ensures Tally(items + [x]) == Bumped(Tally(items), x)
  {
    assert (items + [x])[..|items|] == items;
    forall y ensures CountOf(items + [x], y) == CountOf(items, y) + if x == y then 1 else 0 {}
    if x !in items { NoneCounted(items, x); }
  }

  lemma {:induction false} NoneCounted(items: seq<string>, x: string)
    requires x !in items
    ensures CountOf(items, x) == 0
  {
    if items != [] { NoneCounted(items[..|items| - 1], x); }
  }

  lemma {:induction false} NoEntries(tasks: seq<Task>, repo: string)
    requires forall k :: 0 <= k < |tasks| ==> RepoOf(tasks[k]) != repo
    ensures EntriesOf(tasks, repo) == []
  {
    if tasks != [] { NoEntries(tasks[..|tasks| - 1], repo); }
  }

  lemma ReposMore(tasks: seq<Task>, t: Task)
    ensures Repos(tasks + [t]) == Repos(tasks) + {RepoOf(t)}
  {
    var all := tasks + [t];
    assert t in all && forall u :: u in tasks ==> u in all;
    assert forall u :: u in all ==> u in tasks || u == t;
  }

  lemma EntriesMore(tasks: seq<Task>, t: Task, repo: string)
    ensures EntriesOf(tasks + [t], repo) ==
      if RepoOf(t) == repo then EntriesOf(tasks, repo) + [Waiting(t.id, t.title, t.status, t.tags)]
      else EntriesOf(tasks, repo)
  {
    assert (tasks + [t])[..|tasks|] == tasks;
  }

  lemma GroupedMore(tasks: seq<Task>, t: Task)
    ensures
      var g, r := Grouped(tasks), RepoOf(t);
      Grouped(tasks + [t]) == g[r := (if r in g then g[r] else []) + [Waiting(t.id, t.title, t.status, t.tags)]]
  {
    hide EntriesOf;
    hide Repos;
    var r := RepoOf(t);
    ReposMore(tasks, t);
    forall k
      ensures EntriesOf(tasks + [t], k) ==
        if r == k
        then EntriesOf(tasks, k) + [Waiting(t.id, t.title, t.status, t.tags)]
        else EntriesOf(tasks, k)
    {
      EntriesMore(tasks, t, k);
    }
    if r !in Repos(tasks) {
      RepoMissing(tasks, r);
      NoEntries(tasks, r);
    }
  }

  lemma RepoMissing(tasks: seq<Task>, repo: string)
    requires repo !in Repos(tasks)
    ensures forall k :: 0 <= k < |tasks| ==> RepoOf(tasks[k]) != repo
  {
    forall k | 0 <= k < |tasks| ensures RepoOf(tasks[k]) != repo { assert tasks[k] in tasks; }
  }

  function WithTask(r: OrganRollup, t: Task, lower: Lower): OrganRollup {
    var status, repo := lower(t.status), RepoOf(t);
    var a := r.(total := r.total + 1);
    var b :=
      if IsPending(status) then
        a.(pending := a.pending + 1,
           byRepo := a.byRepo[repo :=
             (if repo in a.byRepo then a.byRepo[repo] else []) + [Waiting(t.id, t.title, t.status, t.tags)]])
      else if IsCompleted(status) then a.(completed := a.completed + 1) else a;
    if Telling(t.fingerprint) then b.(fingerprints := Bumped(b.fingerprints, t.fingerprint)) else b
  }

  function Bumped(m: map<string, nat>, x: string): map<string, nat> {
    m[x := (if x in m then m[x] else 0) + 1]
  }

  lemma TaskStep(organ: Organ, tasks: seq<Task>, t: Task, lower: Lower)
    ensures RollupOf(organ, tasks + [t], [], [], lower) ==
      if t.organ == organ.key then WithTask(RollupOf(organ, tasks, [], [], lower), t, lower)
      else RollupOf(organ, tasks, [], [], lower)
  {
    hide Grouped;
    hide Tally;
    hide Bumped;
    var mine := MyTasks(tasks, organ.key);
    assert (tasks + [t])[..|tasks|] == tasks;
    if t.organ == organ.key {
      assert (mine + [t])[..|mine|] == mine;
      GroupedMore(WithStatus(mine, lower, IsPending), t);
      NotBoth(lower(t.status));
      assert PromptPrints(MyPrompts([], organ.key)) == [];
      assert TaskPrints(mine) + [] == TaskPrints(mine) && TaskPrints(mine + [t]) + [] == TaskPrints(mine + [t]);
      TallyMore(TaskPrints(mine), t.fingerprint);
    }
  }

  lemma NotBoth(status: string)
    ensures !(IsPending(status) && IsCompleted(status))
  {
  }

  function WithPrompt(r: OrganRollup, p: Prompt): OrganRollup {
    var a := r.(kinds := Bumped(r.kinds, p.kind), sessions := Bumped(r.sessions, SessionOf(p.slug)));
    if Telling(p.fingerprint) then a.(fingerprints := Bumped(a.fingerprints, p.fingerprint)) else a
  }

  lemma PromptStep(organ: Organ, tasks: seq<Task>, prompts: seq<Prompt>, p: Prompt, lower: Lower)
    ensures RollupOf(organ, tasks, prompts + [p], [], lower) ==
      if OrganKeyFromSlug(p.slug) == Some(organ.key) then WithPrompt(RollupOf(organ, tasks, prompts, [], lower), p)
      else RollupOf(organ, tasks, prompts, [], lower)
  {
    hide Grouped;
    hide Tally;
    hide Bumped;
    hide OrganKeyFromSlug;
    var mine := MyPrompts(prompts, organ.key);
    var prints := TaskPrints(MyTasks(tasks, organ.key));
    assert (prompts + [p])[..|prompts|] == prompts;
    if OrganKeyFromSlug(p.slug) == Some(organ.key) {
      assert (mine + [p])[..|mine|] == mine;
      TallyMore(Kinds(mine), p.kind);
      TallyMore(Sessions(mine), SessionOf(p.slug));
      TallyMore(prints + PromptPrints(mine), p.fingerprint);
      assert Kinds(mine + [p]) == Kinds(mine) + [p.kind];
      assert Sessions(mine + [p]) == Sessions(mine) + [SessionOf(p.slug)];
      assert prints + (PromptPrints(mine) + [p.fingerprint]) == prints + PromptPrints(mine) + [p.fingerprint];
    }
  }

  lemma CrossStep(organ: Organ, tasks: seq<Task>, prompts: seq<Prompt>, cross: seq<CrossLink>, l: CrossLink,
                  lower: Lower)
    ensures
      var r := RollupOf(organ, tasks, prompts, cross, lower);
      RollupOf(organ, tasks, prompts, cross + [l], lower) ==
        if l.taskOrgan == organ.key || l.promptOrgan == organ.key then r.(links := r.links + [l]) else r
  {
    assert (cross + [l])[..|cross|] == cross;
  }

  // ---- The pass ----

  function Blank(organ: Organ): OrganRollup {
    OrganRollup(organ, 0, 0, 0, map[], [], map[], map[], map[])
  }

  /** Without anything of its own an organ's rollup would be blank. */
  lemma BlankWhenAbsent(organ: Organ, tasks: seq<Task>, prompts: seq<Prompt>, lower: Lower)
    requires MyTasks(tasks, organ.key) == [] && MyPrompts(prompts, organ.key) == []
    ensures RollupOf(organ, tasks, prompts, [], lower) == Blank(organ)
  {
  }

  function Current(rollups: map<string, OrganRollup>, key: string): OrganRollup
    requires Known(key)
  {
    if key in rollups then rollups[key] else Blank(OrganOf(key))
  }

  lemma CurrentIs(rollups: map<string, OrganRollup>, key: string, tasks: seq<Task>, prompts: seq<Prompt>, lower: Lower)
    requires Known(key) && Complete(rollups, tasks, prompts, [], lower)
    ensures Current(rollups, key) == RollupOf(OrganOf(key), tasks, prompts, [], lower)
  {
    if key !in rollups { BlankWhenAbsent(OrganOf(key), tasks, prompts, lower); }
  }

  lemma TaskCounted(rollups: map<string, OrganRollup>, tasks: seq<Task>, t: Task, lower: Lower)
    requires Complete(rollups, tasks, [], [], lower)
    ensures Complete(
      if Known(t.organ) then rollups[t.organ := WithTask(Current(rollups, t.organ), t, lower)] else rollups,
      tasks + [t], [], [], lower)
  {
    hide RollupOf;
    hide Known;
    hide WithTask;
    var all := tasks + [t];
    assert all[..|tasks|] == tasks;
    forall k ensures Present(k, all, []) <==> Present(k, tasks, []) || (Known(k) && k == t.organ) {}
    forall k | Present(k, all, [])
      ensures RollupOf(OrganOf(k), all, [], [], lower) ==
        if k == t.organ then WithTask(Current(rollups, k), t, lower) else rollups[k]
    {
      TaskStep(OrganOf(k), tasks, t, lower);
      if k == t.organ { CurrentIs(rollups, k, tasks, [], lower); }
    }
  }

  lemma PromptCounted(rollups: map<string, OrganRollup>, tasks: seq<Task>, prompts: seq<Prompt>, p: Prompt,
                      lower: Lower)
    requires Complete(rollups, tasks, prompts, [], lower)
    requires OrganKeyFromSlug(p.slug).Some? ==> Known(OrganKeyFromSlug(p.slug).value)
    ensures Complete(
      match OrganKeyFromSlug(p.slug)
      case None => rollups
      case Some(key) => rollups[key := WithPrompt(Current(rollups, key), p)],
      tasks, prompts + [p], [], lower)
  {
    hide RollupOf;
    hide Known;
    hide WithPrompt;
    hide OrganKeyFromSlug;
    var all := prompts + [p];
    assert all[..|prompts|] == prompts;
    var mine := OrganKeyFromSlug(p.slug);
    forall k ensures Present(k, tasks, all) <==> Present(k, tasks, prompts) || (Known(k) && mine == Some(k)) {}
    forall k | Present(k, tasks, all)
      ensures RollupOf(OrganOf(k), tasks, all, [], lower) ==
        if mine == Some(k) then WithPrompt(Current(rollups, k), p) else rollups[k]
    {
      PromptStep(OrganOf(k), tasks, prompts, p, lower);
      if mine == Some(k) { CurrentIs(rollups, k, tasks, prompts, lower); }
    }
  }

  lemma {:induction false} SlugsAreKnown(organs: seq<Organ>, dir: string)
    ensures match KeyOfDir(organs, dir) case None => true case Some(key) =>
      exists k :: 0 <= k < |organs| && organs[k].key == key
  {
    if organs != [] {
      var n := |organs| - 1;
      if organs[n].dir != dir { SlugsAreKnown(organs[..n], dir); }
    }
  }

  lemma {:induction false} FindsListed(organs: seq<Organ>, k: nat)
    requires k < |organs|
    ensures Find(organs, organs[k].key).Some?
  {
    if organs[0].key != organs[k].key {
      FindsListed(organs[1..], k - 1);
    }
  }

  lemma SlugKnown(slug: string)
    ensures OrganKeyFromSlug(slug).Some? ==> Known(OrganKeyFromSlug(slug).value)
  {
    if OrganKeyFromSlug(slug).Some? {
      var dir := Cut(slug).value.0;
      SlugsAreKnown(ORGANS, dir);
      var k :| 0 <= k < |ORGANS| && ORGANS[k].key == KeyOfDir(ORGANS, dir).value;
      FindsListed(ORGANS, k);
    }
  }

  method CountTasks(tasks: seq<Task>, lower: Lower)
    returns (rollups: map<string, OrganRollup>, organs: map<string, string>)
    ensures Complete(rollups, tasks, [], [], lower)
    ensures forall id :: TaskOrgan(tasks, id) == if id in organs then Some(organs[id]) else None
  {
    hide Known;
    hide Complete;
    rollups, organs := map[], map[];
    NothingYet(lower);
    var i := 0;
    while i < |tasks|
      invariant 0 <= i <= |tasks| && Complete(rollups, tasks[..i], [], [], lower)
      invariant forall id :: TaskOrgan(tasks[..i], id) == if id in organs then Some(organs[id]) else None
    {
      var t := tasks[i];
      TaskCounted(rollups, tasks[..i], t, lower);
      assert tasks[..i + 1] == tasks[..i] + [t] && tasks[..i + 1][..i] == tasks[..i];
      i := i + 1;
      if !Known(t.organ) { continue; }
      var r := Current(rollups, t.organ);
      r := r.(total := r.total + 1);
      organs := organs[t.id := t.organ];
      var status := lower(t.status);
      if IsPending(status) {
        var repo := RepoOf(t);
        var queue := if repo in r.byRepo then r.byRepo[repo] else [];
        var waiting := Waiting(t.id, t.title, t.status, t.tags);
        r := r.(pending := r.pending + 1, byRepo := r.byRepo[repo := queue + [waiting]]);
      } else if IsCompleted(status) {
        r := r.(completed := r.completed + 1);
      }
      if Telling(t.fingerprint) { r := r.(fingerprints := Bumped(r.fingerprints, t.fingerprint)); }
      rollups := rollups[t.organ := r];
    }
    assert tasks[..i] == tasks;
  }

  lemma NothingYet(lower: Lower)
    ensures Complete(map[], [], [], [], lower)
  {
  }

  method CountPrompts(start: map<string, OrganRollup>, ghost tasks: seq<Task>, prompts: seq<Prompt>, ghost lower: Lower)
    returns (rollups: map<string, OrganRollup>, organs: map<string, string>)
    requires Complete(start, tasks, [], [], lower)
    ensures Complete(rollups, tasks, prompts, [], lower)
    ensures forall id :: PromptOrgan(prompts, id) == if id in organs then Some(organs[id]) else None
  {
    hide Complete;
    hide OrganKeyFromSlug;
    hide Known;
    rollups, organs := start, map[];
    var i := 0;
    while i < |prompts|
      invariant 0 <= i <= |prompts| && Complete(rollups, tasks, prompts[..i], [], lower)
      invariant forall id :: PromptOrgan(prompts[..i], id) == if id in organs then Some(organs[id]) else None
    {
      var p := prompts[i];
      SlugKnown(p.slug);
      PromptCounted(rollups, tasks, prompts[..i], p, lower);
      assert prompts[..i + 1] == prompts[..i] + [p] && prompts[..i + 1][..i] == prompts[..i];
      i := i + 1;
      var organ := OrganKeyFromSlug(p.slug);
      if organ.None? { continue; }
      var r := Current(rollups, organ.value);
      organs := organs[p.id := organ.value];
      r := r.(kinds := Bumped(r.kinds, p.kind));
      r := r.(sessions := Bumped(r.sessions, SessionOf(p.slug)));
      if Telling(p.fingerprint) { r := r.(fingerprints := Bumped(r.fingerprints, p.fingerprint)); }
      rollups := rollups[organ.value := r];
    }
    assert prompts[..i] == prompts;
  }

  lemma CrossCounted(rollups: map<string, OrganRollup>, tasks: seq<Task>, prompts: seq<Prompt>, cross: seq<CrossLink>,
                     l: CrossLink, lower: Lower)
    requires Complete(rollups, tasks, prompts, cross, lower)
    requires l.taskOrgan != l.promptOrgan && l.taskOrgan in rollups && l.promptOrgan in rollups
    ensures Complete(Linked(rollups, l), tasks, prompts, cross + [l], lower)
  {
    hide RollupOf;
    hide Known;
    forall k | k in rollups
      ensures RollupOf(OrganOf(k), tasks, prompts, cross + [l], lower) == Linked(rollups, l)[k]
    {
      CrossStep(OrganOf(k), tasks, prompts, cross, l, lower);
    }
  }

  function WithLink(r: OrganRollup, l: CrossLink): OrganRollup {
    r.(links := r.links + [l])
  }

  function Linked(rollups: map<string, OrganRollup>, l: CrossLink): map<string, OrganRollup>
    requires l.taskOrgan in rollups && l.promptOrgan in rollups
  {
    var a := rollups[l.taskOrgan := WithLink(rollups[l.taskOrgan], l)];
    a[l.promptOrgan := WithLink(a[l.promptOrgan], l)]
  }

  lemma {:induction false} TaskOrganPresent(tasks: seq<Task>, id: string)
    ensures match TaskOrgan(tasks, id) case None => true case Some(k) => Known(k) && MyTasks(tasks, k) != []
  {
    if tasks != [] { TaskOrganPresent(tasks[..|tasks| - 1], id); }
  }

  lemma {:induction false} PromptOrganPresent(prompts: seq<Prompt>, id: string)
    ensures match PromptOrgan(prompts, id) case None => true case Some(k) => Known(k) && MyPrompts(prompts, k) != []
  {
    hide Known;
    hide OrganKeyFromSlug;
    if prompts != [] {
      SlugKnown(prompts[|prompts| - 1].slug);
      PromptOrganPresent(prompts[..|prompts| - 1], id);
    }
  }

  lemma LinkCounted(rollups: map<string, OrganRollup>, tasks: seq<Task>, prompts: seq<Prompt>, links: seq<Link>,
                    l: Link, lower: Lower)
    requires Complete(rollups, tasks, prompts, CrossLinks(links, tasks, prompts), lower)
    ensures
      var a, b := TaskOrgan(tasks, l.task), PromptOrgan(prompts, l.prompt);
      var all := CrossLinks(links + [l], tasks, prompts);
      if a.Some? && b.Some? && a != b then
        && a.value in rollups && b.value in rollups
        && Complete(Linked(rollups, CrossLink(l.task, l.prompt, a.value, b.value, l.jaccard)), tasks, prompts, all,
          lower)
      else Complete(rollups, tasks, prompts, all, lower)
  {
    hide RollupOf;
    hide Known;
    hide TaskOrgan;
    hide PromptOrgan;
    assert (links + [l])[..|links|] == links;
    var cross := CrossLinks(links, tasks, prompts);
    var a, b := TaskOrgan(tasks, l.task), PromptOrgan(prompts, l.prompt);
    if a.Some? && b.Some? && a != b {
      TaskOrganPresent(tasks, l.task);
      PromptOrganPresent(prompts, l.prompt);
      assert Present(a.value, tasks, prompts) && Present(b.value, tasks, prompts);
      CrossCounted(rollups, tasks, prompts, cross, CrossLink(l.task, l.prompt, a.value, b.value, l.jaccard), lower);
    }
  }

  // ---- The whole result ----

  lemma KnownKeys(key: string)
    ensures Known(key) <==> key in KEYS
  {
    hide KEYS;
    hide ORGANS;
    if Known(key) {
      FindsMember(ORGANS, key);
      KeysOfOrgans();
    } else if key in KEYS {
      var k := OrganWithKey(key);
      FindsListed(ORGANS, k);
    }
  }

  lemma KeysOfOrgans()
    ensures forall k :: 0 <= k < |ORGANS| ==> ORGANS[k].key in KEYS
  {
    forall k | 0 <= k < |ORGANS| ensures ORGANS[k].key in KEYS {
      assert k == 0 || k == 1 || k == 2 || k == 3 || k == 4 || k == 5 || k == 6 || k == 7 || k == 8 || k == 9;
    }
  }

  lemma OrganWithKey(key: string) returns (k: nat)
    requires key in KEYS
    ensures k < |ORGANS| && ORGANS[k].key == key
  {
    k := if key == "I" then 0 else if key == "II" then 1 else if key == "III" then 2 else if key == "IV" then 3
         else if key == "V" then 4 else if key == "VI" then 5 else if key == "VII" then 6
         else if key == "META" then 7 else if key == "SIGMA_E" then 8 else 9;
  }

  lemma {:induction false} FindsMember(organs: seq<Organ>, key: string)
    requires Find(organs, key).Some?
    ensures exists k :: 0 <= k < |organs| && organs[k] == Find(organs, key).value && organs[k].key == key
  {
    if organs[0].key == key {
      assert organs[0] == Find(organs, key).value;
    } else {
      FindsMember(organs[1..], key);
      var k :| 0 <= k < |organs[1..]| && organs[1..][k] == Find(organs[1..], key).value && organs[1..][k].key == key;
      assert organs[k + 1] == Find(organs, key).value;
    }
  }

  lemma {:induction false} PromptsAreHits(prompts: seq<Prompt>, key: string)
    ensures |MyPrompts(prompts, key)| == |Hits(prompts, AskedOf(key))|
  {
    hide Hits;
    hide OrganKeyFromSlug;
    if prompts == [] {
      NoHits(AskedOf(key));
    } else {
      var front, p := prompts[..|prompts| - 1], prompts[|prompts| - 1];
      assert prompts == front + [p];
      PromptsAreHits(front, key);
      HitsMore(front, p, AskedOf(key));
    }
  }

  lemma {:induction false} KnownTasksAreHits(tasks: seq<Task>)
    ensures |KnownTasks(tasks)| == |Hits(tasks, Attributed())|
  {
    hide Hits;
    hide Known;
    if tasks == [] {
      NoHits(Attributed());
    } else {
      var front, t := tasks[..|tasks| - 1], tasks[|tasks| - 1];
      assert tasks == front + [t];
      KnownTasksAreHits(front);
      HitsMore(front, t, Attributed());
      KnownKeys(t.organ);
    }
  }

  function Totals(rollups: map<string, OrganRollup>): map<string, nat> {
    map k | k in rollups :: rollups[k].total
  }

  function SumOver(organs: seq<Organ>, m: map<string, nat>): nat {
    if organs == [] then 0
    else SumOver(organs[1..], m) + if organs[0].key in m then m[organs[0].key] else 0
  }

  lemma {:induction false} SumWithoutKey(organs: seq<Organ>, m: map<string, nat>, key: string)
    requires forall k :: 0 <= k < |organs| ==> organs[k].key != key
    ensures SumOver(organs, m - {key}) == SumOver(organs, m)
  {
    if organs != [] { SumWithoutKey(organs[1..], m, key); }
  }

  /** Adding up a map is adding up over the organs, when it has no other keys. */
  lemma {:induction false} SumByOrgan(organs: seq<Organ>, m: map<string, nat>)
    requires KeysDiffer(organs) && forall k :: k in m ==> Find(organs, k).Some?
    ensures Sum(m) == SumOver(organs, m)
  {
    hide Sum;
    if organs == [] {
      NoSum(m);
    } else {
      var key := organs[0].key;
      SumWithoutKey(organs[1..], m, key);
      if key in m {
        SumWithout(m, key);
        SumByOrgan(organs[1..], m - {key});
      } else {
        assert m - {key} == m;
        SumByOrgan(organs[1..], m);
      }
    }
  }

  lemma NoSum(m: map<string, nat>)
    requires forall k :: k !in m
    ensures Sum(m) == 0
  {
    assert m == map[];
  }

  lemma {:induction false} SumsAgree(organs: seq<Organ>, m: map<string, nat>, tasks: seq<Task>)
    requires forall k :: 0 <= k < |organs| ==>
      |MyTasks(tasks, organs[k].key)| == if organs[k].key in m then m[organs[k].key] else 0
    ensures SumOver(organs, m) == SumOfTasks(organs, tasks)
  {
    if organs != [] {
      assert organs[0].key in m || organs[0].key !in m;
      SumsAgree(organs[1..], m, tasks);
    }
  }

  /** The whole result, by what it counts and lists: an organ has a rollup exactly when it is one of the ten
      and has tasks or prompts; every rollup accounts for its fields; all totals add up. */
  ghost predicate AllAccount(rollups: map<string, OrganRollup>, tasks: seq<Task>, prompts: seq<Prompt>,
                             links: seq<Link>, lower: Lower)
  {
    && (forall k :: k in rollups <==>
          k in KEYS && |Hits(tasks, OfOrgan(k))| + |Hits(prompts, AskedOf(k))| > 0)
    && (forall k :: k in rollups ==> Accounts(rollups[k], k, tasks, prompts, links, lower))
    && Sum(Totals(rollups)) == |Hits(tasks, Attributed())|
  }

  lemma CompleteAccounts(rollups: map<string, OrganRollup>, tasks: seq<Task>, prompts: seq<Prompt>, links: seq<Link>,
                         lower: Lower)
    requires Complete(rollups, tasks, prompts, CrossLinks(links, tasks, prompts), lower)
    ensures AllAccount(rollups, tasks, prompts, links, lower)
  {
    hide Hits;
    hide Known;
    hide RollupOf;
    hide Accounts;
    hide Sum;
    hide MyTasks;
    hide MyPrompts;
    forall k ensures k in rollups <==> k in KEYS && |Hits(tasks, OfOrgan(k))| + |Hits(prompts, AskedOf(k))| > 0 {
      KnownKeys(k);
      TasksAreHits(tasks, k, lower);
      PromptsAreHits(prompts, k);
    }
    forall k | k in rollups ensures Accounts(rollups[k], k, tasks, prompts, links, lower) {
      OrganIsListed(k);
      RollupAccounts(OrganOf(k), tasks, prompts, links, lower);
    }
    TotalsOfAll(rollups, tasks, prompts, CrossLinks(links, tasks, prompts), lower);
  }

  lemma OrganIsListed(key: string)
    requires Known(key)
    ensures OrganOf(key) in ORGANS
  {
    FindsMember(ORGANS, key);
  }

  lemma TotalsOfAll(rollups: map<string, OrganRollup>, tasks: seq<Task>, prompts: seq<Prompt>, cross: seq<CrossLink>,
                    lower: Lower)
    requires Complete(rollups, tasks, prompts, cross, lower)
    ensures Sum(Totals(rollups)) == |Hits(tasks, Attributed())|
  {
    hide Hits;
    hide Sum;
    hide Find;
    hide SumOver;
    hide SumOfTasks;
    hide MyTasks;
    hide MyPrompts;
    var m := Totals(rollups);
    assert KeysDiffer(ORGANS);
    SumByOrgan(ORGANS, m);
    forall k | 0 <= k < |ORGANS|
      ensures |MyTasks(tasks, ORGANS[k].key)| == if ORGANS[k].key in m then m[ORGANS[k].key] else 0
    {
      FindsListed(ORGANS, k);
      assert ORGANS[k].key in rollups <==> Present(ORGANS[k].key, tasks, prompts);
    }
    SumsAgree(ORGANS, m, tasks);
    TotalsAddUp(tasks);
    KnownTasksAreHits(tasks);
  }

  /** The i-th task is the last with this id and a known organ, which is key. */
  predicate LastKnownTask(tasks: seq<Task>, id: string, key: string, i: nat) {
    && i < |tasks| && tasks[i].id == id && tasks[i].organ == key && key in KEYS
    && forall j :: i < j < |tasks| && tasks[j].id == id ==> tasks[j].organ !in KEYS
  }

  lemma {:induction false} TaskOrganIff(tasks: seq<Task>, id: string, key: string)
    ensures TaskOrgan(tasks, id) == Some(key) <==> exists i: nat :: LastKnownTask(tasks, id, key, i)
  {
    hide Known;
    if tasks != [] {
      var n := |tasks| - 1;
      var front, t := tasks[..n], tasks[n];
      KnownKeys(t.organ);
      TaskOrganIff(front, id, key);
      if t.id == id && t.organ in KEYS {
        if TaskOrgan(tasks, id) == Some(key) { assert LastKnownTask(tasks, id, key, n); }
      } else {
        if i: nat :| LastKnownTask(front, id, key, i) { assert LastKnownTask(tasks, id, key, i); }
        if i: nat :| LastKnownTask(tasks, id, key, i) { assert LastKnownTask(front, id, key, i); }
      }
    }
  }

  /** The i-th prompt is the last with this id whose slug leads to an organ, which is key. */
  predicate LastKnownPrompt(prompts: seq<Prompt>, id: string, key: string, i: nat) {
    && i < |prompts| && prompts[i].id == id && OrganKeyFromSlug(prompts[i].slug) == Some(key)
    && forall j :: i < j < |prompts| && prompts[j].id == id ==> OrganKeyFromSlug(prompts[j].slug) == None
  }

  lemma {:induction false} PromptOrganIff(prompts: seq<Prompt>, id: string, key: string)
    ensures PromptOrgan(prompts, id) == Some(key) <==> exists i: nat :: LastKnownPrompt(prompts, id, key, i)
  {
    hide OrganKeyFromSlug;
    if prompts != [] {
      var n := |prompts| - 1;
      var front, p := prompts[..n], prompts[n];
      PromptOrganIff(front, id, key);
      if p.id == id && OrganKeyFromSlug(p.slug).Some? {
        if PromptOrgan(prompts, id) == Some(key) { assert LastKnownPrompt(prompts, id, key, n); }
      } else {
        if i: nat :| LastKnownPrompt(front, id, key, i) { assert LastKnownPrompt(prompts, id, key, i); }
        if i: nat :| LastKnownPrompt(prompts, id, key, i) { assert LastKnownPrompt(front, id, key, i); }
      }
    }
  }

  /** build_rollups. Every field of every rollup is what it should be, and an organ has one exactly when
      something belongs to it. */
  method BuildRollups(tasks: seq<Task>, prompts: seq<Prompt>, links: seq<Link>, lower: Lower)
    returns (rollups: map<string, OrganRollup>)
    ensures Complete(rollups, tasks, prompts, CrossLinks(links, tasks, prompts), lower)
    ensures AllAccount(rollups, tasks, prompts, links, lower)
  {
    hide Complete;
    hide AllAccount;
    hide CrossLinks;
    var taskOrgans, promptOrgans;
    rollups, taskOrgans := CountTasks(tasks, lower);
    rollups, promptOrgans := CountPrompts(rollups, tasks, prompts, lower);
    NoCrossLinks(tasks, prompts);
    assert links[..0] == [];
    var i := 0;
    while i < |links|
      invariant 0 <= i <= |links| && Complete(rollups, tasks, prompts, CrossLinks(links[..i], tasks, prompts), lower)
    {
      var l := links[i];
      LinkCounted(rollups, tasks, prompts, links[..i], l, lower);
      assert links[..i + 1] == links[..i] + [l];
      i := i + 1;
      if l.task in taskOrgans && l.prompt in promptOrgans && taskOrgans[l.task] != promptOrgans[l.prompt] {
        var a, b := taskOrgans[l.task], promptOrgans[l.prompt];
        assert TaskOrgan(tasks, l.task) == Some(a) && PromptOrgan(prompts, l.prompt) == Some(b);
        var entry := CrossLink(l.task, l.prompt, a, b, l.jaccard);
        if a in rollups { rollups := rollups[a := WithLink(rollups[a], entry)]; }
        if b in rollups { rollups := rollups[b := WithLink(rollups[b], entry)]; }
      } else {
        assert TaskOrgan(tasks, l.task) == if l.task in taskOrgans then Some(taskOrgans[l.task]) else None;
        assert PromptOrgan(prompts, l.prompt) ==
          if l.prompt in promptOrgans then Some(promptOrgans[l.prompt]) else None;
      }
    }
    assert links[..i] == links;
    CompleteAccounts(rollups, tasks, prompts, links, lower);
  }

  lemma NoCrossLinks(tasks: seq<Task>, prompts: seq<Prompt>)
    ensures CrossLinks([], tasks, prompts) == []
  {
  }

  // ---- What adds up ----

  ghost function Pick(m: map<string, nat>): string
    requires m != map[]
    ensures Pick(m) in m
  {
    var k :| k in m; k
  }

  ghost function Sum(m: map<string, nat>): nat {
    if m == map[] then 0 else m[Pick(m)] + Sum(m - {Pick(m)})
  }

  lemma {:induction false} SumWithout(m: map<string, nat>, k: string)
    requires k in m
    ensures Sum(m) == m[k] + Sum(m - {k})
    decreases |m|
  {
    var c := Pick(m);
    if c != k {
      SumWithout(m - {c}, k);
      SumWithout(m - {k}, c);
      assert m - {c} - {k} == m - {k} - {c};
    }
  }

  lemma SumSet(m: map<string, nat>, k: string, v: nat)
    ensures Sum(m[k := v]) == Sum(m) - (if k in m then m[k] else 0) + v
  {
    SumWithout(m[k := v], k);
    assert m[k := v] - {k} == m - {k};
    if k in m { SumWithout(m, k); } else { assert m - {k} == m; }
  }

  /** A tally distributes the items it counts. */
  lemma {:induction false} TallySums(items: seq<string>)
    ensures Sum(Tally(items)) == |items|
  {
    if items != [] {
      var n := |items| - 1;
      TallySums(items[..n]);
      TallyMore(items[..n], items[n]);
      assert items[..n] + [items[n]] == items;
      var t := Tally(items[..n]);
      SumSet(t, items[n], (if items[n] in t then t[items[n]] else 0) + 1);
    } else {
      assert Tally(items) == map[];
    }
  }

  function Sizes(m: map<string, seq<Waiting>>): map<string, nat> {
    map k | k in m :: |m[k]|
  }

  lemma SumGrows(m: map<string, seq<Waiting>>, k: string, w: Waiting)
    ensures Sum(Sizes(m[k := (if k in m then m[k] else []) + [w]])) == Sum(Sizes(m)) + 1
  {
    var n := (if k in m then |m[k]| else 0) + 1;
    assert Sizes(m[k := (if k in m then m[k] else []) + [w]]) == Sizes(m)[k := n];
    SumSet(Sizes(m), k, n);
  }

  lemma {:induction false} GroupedSums(tasks: seq<Task>)
    ensures Sum(Sizes(Grouped(tasks))) == |tasks|
  {
    hide Grouped;
    hide Sum;
    hide Sizes;
    if tasks == [] {
      NothingGrouped();
    } else {
      var front, t := tasks[..|tasks| - 1], tasks[|tasks| - 1];
      GroupedSums(front);
      GroupedMore(front, t);
      assert front + [t] == tasks;
      SumGrows(Grouped(front), RepoOf(t), Waiting(t.id, t.title, t.status, t.tags));
    }
  }

  lemma NothingGrouped()
    ensures Sum(Sizes(Grouped([]))) == 0
  {
    assert Sizes(Grouped([])) == map[];
  }

  /** Within one organ: the pending lists of its repositories add up to its pending tasks, and every one
      of its prompts is counted once by kind and once by session. */
  lemma OrganAddsUp(organ: Organ, tasks: seq<Task>, prompts: seq<Prompt>, cross: seq<CrossLink>, lower: Lower)
    ensures var r := RollupOf(organ, tasks, prompts, cross, lower);
      && Sum(Sizes(r.byRepo)) == r.pending
      && Sum(r.kinds) == Sum(r.sessions) == |MyPrompts(prompts, organ.key)|
  {
    var mine := MyPrompts(prompts, organ.key);
    GroupedSums(WithStatus(MyTasks(tasks, organ.key), lower, IsPending));
    TallySums(Kinds(mine));
    TallySums(Sessions(mine));
  }

  /** The tasks of all organs together. */
  function SumOfTasks(organs: seq<Organ>, tasks: seq<Task>): nat {
    if organs == [] then 0 else SumOfTasks(organs[1..], tasks) + |MyTasks(tasks, organs[0].key)|
  }

  function KnownTasks(tasks: seq<Task>): seq<Task> {
    if tasks == [] then []
    else
      var t := tasks[|tasks| - 1];
      if Known(t.organ) then KnownTasks(tasks[..|tasks| - 1]) + [t] else KnownTasks(tasks[..|tasks| - 1])
  }

  predicate KeysDiffer(organs: seq<Organ>) {
    forall i, j :: 0 <= i < j < |organs| ==> organs[i].key != organs[j].key
  }

  lemma {:induction false} SumOfTasksMore(organs: seq<Organ>, tasks: seq<Task>, t: Task)
    requires KeysDiffer(organs)
    ensures SumOfTasks(organs, tasks + [t]) == SumOfTasks(organs, tasks) + if Find(organs, t.organ).Some? then 1 else 0
  {
    assert (tasks + [t])[..|tasks|] == tasks;
    if organs != [] {
      SumOfTasksMore(organs[1..], tasks, t);
      if organs[0].key == t.organ { NotFound(organs[1..], t.organ); }
    }
  }

  lemma {:induction false} NotFound(organs: seq<Organ>, key: string)
    requires forall k :: 0 <= k < |organs| ==> organs[k].key != key
    ensures Find(organs, key) == None
  {
    if organs != [] { NotFound(organs[1..], key); }
  }

  lemma {:induction false} NoTasksNoSum(organs: seq<Organ>)
    ensures SumOfTasks(organs, []) == 0
  {
    if organs != [] { NoTasksNoSum(organs[1..]); }
  }

  /** The organs' totals add up to the tasks with a known organ. */
  lemma {:induction false} TotalsAddUp(tasks: seq<Task>)
    ensures SumOfTasks(ORGANS, tasks) == |KnownTasks(tasks)|
  {
    hide Find;
    hide SumOfTasks;
    if tasks == [] {
      NoTasksNoSum(ORGANS);
    } else {
      var n := |tasks| - 1;
      TotalsAddUp(tasks[..n]);
      assert KeysDiffer(ORGANS);
      SumOfTasksMore(ORGANS, tasks[..n], tasks[n]);
      assert tasks[..n] + [tasks[n]] == tasks;
    }
  }

  /** Every cross-organ link is listed by its two organs, as often as it was found, and by no other. */
  lemma {:induction false} ListedByBoth(cross: seq<CrossLink>, key: string, l: CrossLink)
    ensures multiset(Touching(cross, key))[l] ==
      if l.taskOrgan == key || l.promptOrgan == key then multiset(cross)[l] else 0
  {
    if cross != [] {
      var n := |cross| - 1;
      ListedByBoth(cross[..n], key, l);
      assert cross == cross[..n] + [cross[n]];
    }
  }

  function SumOfLinks(organs: seq<Organ>, cross: seq<CrossLink>): nat {
    if organs == [] then 0 else SumOfLinks(organs[1..], cross) + |Touching(cross, organs[0].key)|
  }

  lemma {:induction false} SumOfLinksMore(organs: seq<Organ>, cross: seq<CrossLink>, l: CrossLink)
    requires KeysDiffer(organs) && l.taskOrgan != l.promptOrgan
    ensures SumOfLinks(organs, cross + [l]) == SumOfLinks(organs, cross)
      + (if Find(organs, l.taskOrgan).Some? then 1 else 0) + (if Find(organs, l.promptOrgan).Some? then 1 else 0)
  {
    assert (cross + [l])[..|cross|] == cross;
    if organs != [] {
      SumOfLinksMore(organs[1..], cross, l);
      if organs[0].key == l.taskOrgan { NotFound(organs[1..], l.taskOrgan); }
      if organs[0].key == l.promptOrgan { NotFound(organs[1..], l.promptOrgan); }
    }
  }

  lemma {:induction false} NoLinksNoSum(organs: seq<Organ>)
    ensures SumOfLinks(organs, []) == 0
  {
    if organs != [] { NoLinksNoSum(organs[1..]); }
  }

  predicate Crossing(cross: seq<CrossLink>) {
    forall k :: 0 <= k < |cross| ==>
      cross[k].taskOrgan != cross[k].promptOrgan && Known(cross[k].taskOrgan) && Known(cross[k].promptOrgan)
  }

  lemma {:induction false} LinksCross(links: seq<Link>, tasks: seq<Task>, prompts: seq<Prompt>)
    ensures Crossing(CrossLinks(links, tasks, prompts))
  {
    hide Known;
    if links != [] {
      LinksCross(links[..|links| - 1], tasks, prompts);
      TaskOrganPresent(tasks, links[|links| - 1].task);
      PromptOrganPresent(prompts, links[|links| - 1].prompt);
    }
  }

  /** So all lists together hold every cross-organ link exactly twice. */
  lemma {:induction false} LinksAddUp(cross: seq<CrossLink>)
    requires Crossing(cross)
    ensures SumOfLinks(ORGANS, cross) == 2 * |cross|
  {
    hide Find;
    hide SumOfLinks;
    if cross == [] {
      NoLinksNoSum(ORGANS);
    } else {
      var n := |cross| - 1;
      LinksAddUp(cross[..n]);
      assert KeysDiffer(ORGANS);
      assert Known(cross[n].taskOrgan) && Known(cross[n].promptOrgan) && cross[n].taskOrgan != cross[n].promptOrgan;
      SumOfLinksMore(ORGANS, cross[..n], cross[n]);
      assert cross[..n] + [cross[n]] == cross;
    }
  }

  // ---- Slugs and queues ----

  /** No later organ has the directory of the k-th. */
  predicate LastOfDir(organs: seq<Organ>, k: nat)
    requires k < |organs|
  {
    forall j :: k < j < |organs| ==> organs[j].dir != organs[k].dir
  }

  /** The k-th organ has the directory and the key, and no later one has the directory. */
  predicate Leads(organs: seq<Organ>, dir: string, key: string, k: nat) {
    k < |organs| && organs[k].dir == dir && organs[k].key == key && LastOfDir(organs, k)
  }

  lemma LeadsFurther(organs: seq<Organ>, dir: string, key: string, o: Organ, k: nat)
    requires o.dir != dir
    ensures Leads(organs + [o], dir, key, k) <==> Leads(organs, dir, key, k)
  {
    var all := organs + [o];
    if Leads(organs, dir, key, k) {
      assert all[k] == organs[k];
      forall j | k < j < |all| ensures all[j].dir != all[k].dir {
        if j < |organs| { assert all[j] == organs[j]; }
      }
    }
    if Leads(all, dir, key, k) {
      assert k < |organs| && all[k] == organs[k];
      forall j | k < j < |organs| ensures organs[j].dir != organs[k].dir { assert all[j] == organs[j]; }
    }
  }

  /** A directory leads to the last organ that has it. */
  lemma {:induction false} KeyOfDirIff(organs: seq<Organ>, dir: string, key: string)
    ensures KeyOfDir(organs, dir) == Some(key) <==> exists k: nat :: Leads(organs, dir, key, k)
  {
    hide Leads;
    if organs == [] {
      NoneLeads(dir, key);
    } else {
      var n := |organs| - 1;
      var front, o := organs[..n], organs[n];
      assert organs == front + [o];
      if o.dir == dir {
        LastLeads(organs, dir, key);
      } else {
        KeyOfDirIff(front, dir, key);
        forall k: nat ensures Leads(organs, dir, key, k) <==> Leads(front, dir, key, k) {
          LeadsFurther(front, dir, key, o, k);
        }
      }
    }
  }

  lemma NoneLeads(dir: string, key: string)
    ensures forall k: nat :: !Leads([], dir, key, k)
  {
  }

  lemma LastLeads(organs: seq<Organ>, dir: string, key: string)
    requires organs != [] && organs[|organs| - 1].dir == dir
    ensures forall k: nat :: Leads(organs, dir, key, k) <==> k == |organs| - 1 && organs[k].key == key
  {
    var n := |organs| - 1;
    forall k: nat ensures Leads(organs, dir, key, k) <==> k == n && organs[k].key == key {
      if k < n && organs[k].dir == dir { assert !LastOfDir(organs, k); }
    }
  }

  lemma {:induction false} CutAtSlash(dir: string, repo: string)
    requires '/' !in dir
    ensures Cut(dir + "/" + repo) == Some((dir, repo))
  {
    var slug := dir + "/" + repo;
    if dir == "" {
      CutNow(slug);
      assert slug[1..] == repo;
    } else {
      assert slug[1..] == dir[1..] + "/" + repo;
      CutAtSlash(dir[1..], repo);
      CutLater(slug);
      assert dir == [dir[0]] + dir[1..];
    }
  }

  lemma CutNow(slug: string)
    requires slug != "" && slug[0] == '/'
    ensures Cut(slug) == Some(("", slug[1..]))
  {
  }

  lemma CutLater(slug: string)
    requires slug != "" && slug[0] != '/' && Cut(slug[1..]).Some?
    ensures Cut(slug) == Some(([slug[0]] + Cut(slug[1..]).value.0, Cut(slug[1..]).value.1))
  {
  }

  /** The slug is the k-th organ's directory, a slash and anything. */
  ghost predicate Under(slug: string, k: nat) {
    k < |ORGANS| && exists repo :: slug == ORGANS[k].dir + "/" + repo
  }

  /** A slug leads to an organ exactly when it lies under the organ's directory and no later organ has that
      directory. */
  lemma SlugLeadsTo(slug: string, key: string)
    ensures OrganKeyFromSlug(slug) == Some(key) <==>
      exists k: nat :: k < |ORGANS| && Under(slug, k) && ORGANS[k].key == key && LastOfDir(ORGANS, k)
  {
    hide KeyOfDir;
    hide Cut;
    hide LastOfDir;
    if OrganKeyFromSlug(slug) == Some(key) {
      var dir := Cut(slug).value.0;
      CutMeans(slug);
      KeyOfDirIff(ORGANS, dir, key);
      var k: nat :| Leads(ORGANS, dir, key, k);
      assert Under(slug, k);
    }
    if k: nat :| k < |ORGANS| && Under(slug, k) && ORGANS[k].key == key && LastOfDir(ORGANS, k) {
      var repo :| slug == ORGANS[k].dir + "/" + repo;
      DirsArePlain(k);
      CutAtSlash(ORGANS[k].dir, repo);
      KeyOfDirIff(ORGANS, ORGANS[k].dir, key);
      assert Leads(ORGANS, ORGANS[k].dir, key, k);
    }
  }

  lemma CutMeans(slug: string)
    requires Cut(slug).Some?
    ensures slug == Cut(slug).value.0 + "/" + Cut(slug).value.1
  {
  }

  lemma DirsArePlain(k: nat)
    requires k < |ORGANS|
    ensures '/' !in ORGANS[k].dir
  {
    if k < 5 { FirstDirs(k); } else { LastDirs(k); }
  }

  lemma FirstDirs(k: nat)
    requires k < 5
    ensures '/' !in ORGANS[k].dir
  {
    assert k == 0 || k == 1 || k == 2 || k == 3 || k == 4;
  }

  lemma LastDirs(k: nat)
    requires 5 <= k < 10
    ensures '/' !in ORGANS[k].dir
  {
    assert k == 5 || k == 6 || k == 7 || k == 8 || k == 9;
  }

  /** Two organs share one directory and the later one wins: no slug leads to SIGMA_E. */
  lemma NoSlugLeadsToSigma(slug: string)
    ensures OrganKeyFromSlug(slug) != Some("SIGMA_E")
  {
    hide OrganKeyFromSlug;
    hide Under;
    hide LastOfDir;
    SlugLeadsTo(slug, "SIGMA_E");
    if k: nat :| k < |ORGANS| && Under(slug, k) && ORGANS[k].key == "SIGMA_E" && LastOfDir(ORGANS, k) {
      OnlySigma(k);
    }
  }

  lemma OnlySigma(k: nat)
    requires k < |ORGANS| && ORGANS[k].key == "SIGMA_E"
    ensures !LastOfDir(ORGANS, k)
  {
    assert k == 8 && ORGANS[9].dir == ORGANS[8].dir;
  }

  datatype Queue = Queue(pendingCount: nat, tasks: seq<Waiting>)

  function LoadRepoTaskQueue(r: OrganRollup, repo: string): Option<Queue> {
    if repo in r.byRepo then Some(Queue(|r.byRepo[repo]|, r.byRepo[repo])) else None
  }

  /** A queue is found exactly for the repositories with pending tasks, and it holds all of them. */
  lemma QueueIsPendingOfRepo(organ: Organ, tasks: seq<Task>, prompts: seq<Prompt>, cross: seq<CrossLink>,
                             lower: Lower, repo: string)
    ensures
      var pending := WithStatus(MyTasks(tasks, organ.key), lower, IsPending);
      var mine := EntriesOf(pending, repo);
      LoadRepoTaskQueue(RollupOf(organ, tasks, prompts, cross, lower), repo) ==
        if mine == [] then None else Some(Queue(|mine|, mine))
  {
    var pending := WithStatus(MyTasks(tasks, organ.key), lower, IsPending);
    if repo in Repos(pending) {
      SomeEntry(pending, repo);
    } else {
      RepoMissing(pending, repo);
      NoEntries(pending, repo);
    }
  }

  lemma {:induction false} SomeEntry(tasks: seq<Task>, repo: string)
    requires repo in Repos(tasks)
    ensures EntriesOf(tasks, repo) != []
  {
    var t :| t in tasks && RepoOf(t) == repo;
    var n := |tasks| - 1;
    if RepoOf(tasks[n]) != repo {
      assert t in tasks[..n];
      SomeEntry(tasks[..n], repo);
    }
  }
}

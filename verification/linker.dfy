/** Linking tasks to prompts, or to whole threads of prompts, by what they have in common. The similarity
    measure, the list of generic tags and lower-casing are parameters. */
module Linker {
  import opened Disks
  import opened Domains

  datatype Prompt = Prompt(id: string, thread: string, tags: seq<string>, refs: seq<string>)

  datatype Task = Task(id: string, items: set<string>, tags: seq<string>, refs: seq<string>)

  datatype Link = Link(task: string, prompt: string, jaccard: real, tags: seq<string>, refs: seq<string>)

  datatype Rules = Rules(
    lower: Lower, jaccard: (set<string>, set<string>) -> real, threshold: real, generic: set<string>)

  // ---- One comparison ----

  function Kept(xs: seq<string>, s: set<string>): seq<string> {
    if xs == [] then []
    else Kept(xs[..|xs| - 1], s) + if xs[|xs| - 1] in s then [xs[|xs| - 1]] else []
  }

  function SharedTags(tags: seq<string>, t: Task, lower: Lower): seq<string> {
    SortedSet(Kept(Lowered(t.tags, lower), Tags(tags, lower)))
  }

  function SharedRefs(refs: seq<string>, t: Task): seq<string> {
    SortedSet(Kept(t.refs, Elements(refs)))
  }

  predicate Specific(tags: seq<string>, generic: set<string>) {
    exists k :: 0 <= k < |tags| && tags[k] !in generic
  }

  function LinkOf(id: string, tags: seq<string>, refs: seq<string>, t: Task, rules: Rules): Option<Link> {
    var j := rules.jaccard(DomainSet(tags, refs, rules.lower), t.items);
    var sharedTags, sharedRefs := SharedTags(tags, t, rules.lower), SharedRefs(refs, t);
    if j >= rules.threshold && (Specific(sharedTags, rules.generic) || sharedRefs != [])
    then Some(Link(t.id, id, j, sharedTags, sharedRefs)) else None
  }

  function LinksTo(id: string, tags: seq<string>, refs: seq<string>, tasks: seq<Task>, rules: Rules): seq<Link> {
    if tasks == [] then []
    else
      LinksTo(id, tags, refs, tasks[..|tasks| - 1], rules)
      + match LinkOf(id, tags, refs, tasks[|tasks| - 1], rules) case None => [] case Some(l) => [l]
  }

  /** The loop over the tasks for one prompt or thread; one with an empty domain set is skipped. */
  method LinkUnit(id: string, tags: seq<string>, refs: seq<string>, tasks: seq<Task>, rules: Rules)
    returns (links: seq<Link>)
    ensures links == UnitLinks(id, tags, refs, tasks, rules)
  {
    links := [];
    var items := BuildDomainSet(tags, refs, rules.lower);
    if items == {} { return; }
    var k := 0;
    while k < |tasks|
      invariant 0 <= k <= |tasks| && links == LinksTo(id, tags, refs, tasks[..k], rules)
    {
      var t := tasks[k];
      assert tasks[..k + 1][..k] == tasks[..k] && tasks[..k + 1][k] == t;
      var j := rules.jaccard(items, t.items);
      if j >= rules.threshold {
        var sharedTags, sharedRefs := SharedTags(tags, t, rules.lower), SharedRefs(refs, t);
        if Specific(sharedTags, rules.generic) || sharedRefs != [] {
          links := links + [Link(t.id, id, j, sharedTags, sharedRefs)];
        }
      }
      k := k + 1;
    }
    assert tasks[..k] == tasks;
  }

  function UnitLinks(id: string, tags: seq<string>, refs: seq<string>, tasks: seq<Task>, rules: Rules): seq<Link> {
    if DomainSet(tags, refs, rules.lower) == {} then [] else LinksTo(id, tags, refs, tasks, rules)
  }

  // ---- Ranking ----

  function Place(links: seq<Link>, l: Link): seq<Link> {
    if links == [] then [l]
    else if links[0].jaccard < l.jaccard then [l] + links
    else [links[0]] + Place(links[1..], l)
  }

  /** A stable sort by falling similarity. */
  function Ranked(links: seq<Link>): seq<Link> {
    if links == [] then [] else Place(Ranked(links[..|links| - 1]), links[|links| - 1])
  }

  predicate Falling(links: seq<Link>) {
    forall i, j :: 0 <= i < j < |links| ==> links[i].jaccard >= links[j].jaccard
  }

  function If(l: Link, score: real): seq<Link> {
    if l.jaccard == score then [l] else []
  }

  function AtScore(links: seq<Link>, score: real): seq<Link> {
    if links == [] then [] else If(links[0], score) + AtScore(links[1..], score)
  }

  lemma AtScoreFirst(l: Link, rest: seq<Link>, score: real)
    ensures AtScore([l] + rest, score) == If(l, score) + AtScore(rest, score)
  {
    assert ([l] + rest)[1..] == rest;
  }

  lemma AtScoreOne(l: Link, score: real)
    ensures AtScore([], score) == [] && AtScore([l], score) == If(l, score)
  {
    assert [l][1..] == [];
  }

  lemma Regrouped(a: seq<Link>, b: seq<Link>, c: seq<Link>)
    ensures (a + b) + c == a + (b + c)
  {
  }

  lemma {:induction false} PlaceFalls(links: seq<Link>, l: Link)
    requires Falling(links)
    ensures Falling(Place(links, l)) && multiset(Place(links, l)) == multiset(links) + multiset{l}
  {
    if links != [] && links[0].jaccard >= l.jaccard {
      PlaceFalls(links[1..], l);
      assert links == [links[0]] + links[1..];
      FirstStays(links, l, Place(links[1..], l));
    }
  }

  lemma FirstStays(links: seq<Link>, l: Link, rest: seq<Link>)
    requires links != [] && links[0].jaccard >= l.jaccard && Falling(links) && Falling(rest)
    requires multiset(rest) == multiset(links[1..]) + multiset{l}
    ensures Falling([links[0]] + rest)
  {
    forall j | 0 <= j < |rest| ensures links[0].jaccard >= rest[j].jaccard {
      assert rest[j] in multiset(rest);
      assert rest[j] == l || rest[j] in links[1..];
    }
  }

  lemma {:induction false} PlaceAtScore(links: seq<Link>, l: Link, score: real)
    requires Falling(links)
    ensures AtScore(Place(links, l), score) == AtScore(links, score) + If(l, score)
  {
    hide AtScore;
    if links == [] {
      AtScoreOne(l, score);
    } else if links[0].jaccard < l.jaccard {
      AtScoreFirst(l, links, score);
      if l.jaccard == score { NoneAtScore(links, score); }
    } else {
      var first, rest := links[0], links[1..];
      assert links == [first] + rest;
      PlaceAtScore(rest, l, score);
      AtScoreFirst(first, rest, score);
      AtScoreFirst(first, Place(rest, l), score);
      Regrouped(If(first, score), AtScore(rest, score), If(l, score));
    }
  }

  lemma {:induction false} NoneAtScore(links: seq<Link>, score: real)
    requires forall k :: 0 <= k < |links| ==> links[k].jaccard != score
    ensures AtScore(links, score) == []
  {
    if links != [] { NoneAtScore(links[1..], score); }
  }

  lemma {:induction false} AtScoreOfSum(a: seq<Link>, l: Link, score: real)
    ensures AtScore(a + [l], score) == AtScore(a, score) + If(l, score)
  {
    hide AtScore;
    hide If;
    if a == [] {
      AtScoreOne(l, score);
      assert a + [l] == [l];
    } else {
      var first, rest := a[0], a[1..];
      assert a == [first] + rest;
      Regrouped([first], rest, [l]);
      AtScoreOfSum(rest, l, score);
      AtScoreFirst(first, rest, score);
      AtScoreFirst(first, rest + [l], score);
      Regrouped(If(first, score), AtScore(rest, score), If(l, score));
    }
  }

  lemma {:induction false} RankedFalls(links: seq<Link>)
    ensures Falling(Ranked(links)) && multiset(Ranked(links)) == multiset(links)
  {
    hide Place;
    hide Falling;
    if links == [] {
      NothingFalls();
    } else {
      var front, last := links[..|links| - 1], links[|links| - 1];
      RankedFalls(front);
      PlaceFalls(Ranked(front), last);
      assert links == front + [last];
    }
  }

  lemma NothingFalls()
    ensures Falling([])
  {
  }

  lemma {:induction false} RankedAtScore(links: seq<Link>, score: real)
    ensures AtScore(Ranked(links), score) == AtScore(links, score)
  {
    hide Place;
    hide AtScore;
    hide Falling;
    if links != [] {
      var front, last := links[..|links| - 1], links[|links| - 1];
      RankedAtScore(front, score);
      RankedFalls(front);
      PlaceAtScore(Ranked(front), last, score);
      AtScoreOfSum(front, last, score);
      assert links == front + [last];
    }
  }

  /** The most similar come first, nothing is added or lost, and equals keep their order. */
  lemma RankedSorts(links: seq<Link>, score: real)
    ensures Falling(Ranked(links)) && multiset(Ranked(links)) == multiset(links)
    ensures AtScore(Ranked(links), score) == AtScore(links, score)
  {
    RankedFalls(links);
    RankedAtScore(links, score);
  }

  // ---- By prompt ----

  function PromptLinks(prompts: seq<Prompt>, tasks: seq<Task>, rules: Rules): seq<Link> {
    if prompts == [] then []
    else
      var p := prompts[|prompts| - 1];
      PromptLinks(prompts[..|prompts| - 1], tasks, rules) + UnitLinks(p.id, p.tags, p.refs, tasks, rules)
  }

  lemma OneMorePrompt(front: seq<Prompt>, p: Prompt, tasks: seq<Task>, rules: Rules)
    ensures PromptLinks(front + [p], tasks, rules) ==
      PromptLinks(front, tasks, rules) + UnitLinks(p.id, p.tags, p.refs, tasks, rules)
  {
    assert (front + [p])[..|front|] == front;
  }

  lemma NoPrompts(tasks: seq<Task>, rules: Rules)
    ensures PromptLinks([], tasks, rules) == []
  {
  }

  method LinkByPrompt(prompts: seq<Prompt>, tasks: seq<Task>, rules: Rules) returns (links: seq<Link>)
    ensures links == Ranked(PromptLinks(prompts, tasks, rules))
  {
    hide PromptLinks;
    hide UnitLinks;
    hide Ranked;
    links := [];
    NoPrompts(tasks, rules);
    assert prompts[..0] == [];
    var k := 0;
    while k < |prompts|
      invariant 0 <= k <= |prompts| && links == PromptLinks(prompts[..k], tasks, rules)
    {
      OneMorePrompt(prompts[..k], prompts[k], tasks, rules);
      assert prompts[..k + 1] == prompts[..k] + [prompts[k]];
      var more := LinkUnit(prompts[k].id, prompts[k].tags, prompts[k].refs, tasks, rules);
      links := links + more;
      k := k + 1;
    }
    assert prompts[..k] == prompts;
    links := Ranked(links);
  }

  ghost predicate Links(id: string, tags: seq<string>, refs: seq<string>, t: Task, rules: Rules, l: Link) {
    DomainSet(tags, refs, rules.lower) != {} && LinkOf(id, tags, refs, t, rules) == Some(l)
  }

  lemma {:induction false} InUnitLinks(id: string, tags: seq<string>, refs: seq<string>, tasks: seq<Task>,
                                       rules: Rules, l: Link)
    ensures l in UnitLinks(id, tags, refs, tasks, rules) <==>
      exists t :: t in tasks && Links(id, tags, refs, t, rules, l)
  {
    hide DomainSet;
    hide LinkOf;
    if tasks != [] {
      var front, last := tasks[..|tasks| - 1], tasks[|tasks| - 1];
      InUnitLinks(id, tags, refs, front, rules, l);
      assert tasks == front + [last];
      assert l in UnitLinks(id, tags, refs, tasks, rules) <==>
        l in UnitLinks(id, tags, refs, front, rules) || Links(id, tags, refs, last, rules, l);
      assert forall t :: t in tasks <==> t in front || t == last;
    }
  }

  lemma {:induction false} InPromptLinks(prompts: seq<Prompt>, tasks: seq<Task>, rules: Rules, l: Link)
    ensures l in PromptLinks(prompts, tasks, rules) <==>
      exists p, t :: p in prompts && t in tasks && Links(p.id, p.tags, p.refs, t, rules, l)
  {
    hide Links;
    hide UnitLinks;
    hide PromptLinks;
    if prompts == [] {
      NoPrompts(tasks, rules);
    } else {
      var front, last := prompts[..|prompts| - 1], prompts[|prompts| - 1];
      InPromptLinks(front, tasks, rules, l);
      InUnitLinks(last.id, last.tags, last.refs, tasks, rules, l);
      OneMorePrompt(front, last, tasks, rules);
      assert prompts == front + [last];
      assert forall p :: p in prompts <==> p in front || p == last;
    }
  }

  /** The linker reports exactly the pairs that are to be linked. */
  lemma PromptLinkedIff(prompts: seq<Prompt>, tasks: seq<Task>, rules: Rules, l: Link)
    ensures l in Ranked(PromptLinks(prompts, tasks, rules)) <==>
      exists p, t :: p in prompts && t in tasks && Links(p.id, p.tags, p.refs, t, rules, l)
  {
    var links := PromptLinks(prompts, tasks, rules);
    InPromptLinks(prompts, tasks, rules, l);
    RankedSorts(links, 0.0);
    assert l in Ranked(links) <==> l in multiset(Ranked(links));
    assert l in links <==> l in multiset(links);
  }

  // ---- By thread ----

  function OfThread(prompts: seq<Prompt>, thread: string): seq<Prompt> {
    if prompts == [] then []
    else
      var p := prompts[|prompts| - 1];
      OfThread(prompts[..|prompts| - 1], thread) + if p.thread == thread then [p] else []
  }

  /** The threads in the order in which they first appear; prompts without one are left out. */
  function Threads(prompts: seq<Prompt>): seq<string> {
    if prompts == [] then []
    else
      var before, t := Threads(prompts[..|prompts| - 1]), prompts[|prompts| - 1].thread;
      if t == "" || t in before then before else before + [t]
  }

  method GroupByThread(prompts: seq<Prompt>) returns (order: seq<string>, groups: map<string, seq<Prompt>>)
    ensures order == Threads(prompts) && groups.Keys == Elements(order)
    ensures forall t :: t in groups ==> groups[t] == OfThread(prompts, t)
  {
    order, groups := [], map[];
    var k := 0;
    while k < |prompts|
      invariant 0 <= k <= |prompts| && order == Threads(prompts[..k]) && groups.Keys == Elements(order)
      invariant forall t :: t in groups ==> groups[t] == OfThread(prompts[..k], t)
      invariant "" !in groups && forall t :: t != "" && t !in groups ==> OfThread(prompts[..k], t) == []
    {
      var p := prompts[k];
      assert prompts[..k + 1][..k] == prompts[..k] && prompts[..k + 1][k] == p;
      if p.thread != "" {
        if p.thread !in groups {
          order, groups := order + [p.thread], groups[p.thread := []];
        }
        groups := groups[p.thread := groups[p.thread] + [p]];
      }
      k := k + 1;
    }
    assert prompts[..k] == prompts;
  }

  function AllTags(prompts: seq<Prompt>): seq<string> {
    if prompts == [] then [] else AllTags(prompts[..|prompts| - 1]) + prompts[|prompts| - 1].tags
  }

  function AllRefs(prompts: seq<Prompt>): seq<string> {
    if prompts == [] then [] else AllRefs(prompts[..|prompts| - 1]) + prompts[|prompts| - 1].refs
  }

  function LinksOfThreads(order: seq<string>, prompts: seq<Prompt>, tasks: seq<Task>, rules: Rules): seq<Link> {
    if order == [] then []
    else
      var t := order[|order| - 1];
      var mine := OfThread(prompts, t);
      LinksOfThreads(order[..|order| - 1], prompts, tasks, rules)
      + UnitLinks("thread:" + t, AllTags(mine), AllRefs(mine), tasks, rules)
  }

  lemma NoThreads(prompts: seq<Prompt>, tasks: seq<Task>, rules: Rules)
    ensures LinksOfThreads([], prompts, tasks, rules) == []
  {
  }

  lemma OneMoreThread(front: seq<string>, t: string, prompts: seq<Prompt>, tasks: seq<Task>, rules: Rules)
    ensures
      var mine := OfThread(prompts, t);
      LinksOfThreads(front + [t], prompts, tasks, rules) ==
        LinksOfThreads(front, prompts, tasks, rules)
        + UnitLinks("thread:" + t, AllTags(mine), AllRefs(mine), tasks, rules)
  {
    assert (front + [t])[..|front|] == front;
  }

  method Gather(prompts: seq<Prompt>) returns (tags: seq<string>, refs: seq<string>)
    ensures tags == AllTags(prompts) && refs == AllRefs(prompts)
  {
    tags, refs := [], [];
    var j := 0;
    while j < |prompts|
      invariant 0 <= j <= |prompts| && tags == AllTags(prompts[..j]) && refs == AllRefs(prompts[..j])
    {
      assert prompts[..j + 1][..j] == prompts[..j];
      tags, refs := tags + prompts[j].tags, refs + prompts[j].refs;
      j := j + 1;
    }
    assert prompts[..j] == prompts;
  }

  method LinkByThread(prompts: seq<Prompt>, tasks: seq<Task>, rules: Rules) returns (links: seq<Link>)
    ensures links == Ranked(LinksOfThreads(Threads(prompts), prompts, tasks, rules))
  {
    hide LinksOfThreads;
    hide UnitLinks;
    hide OfThread;
    hide Threads;
    hide AllTags;
    hide AllRefs;
    hide Ranked;
    var order, groups := GroupByThread(prompts);
    links := [];
    NoThreads(prompts, tasks, rules);
    assert order[..0] == [];
    var k := 0;
    while k < |order|
      invariant 0 <= k <= |order| && links == LinksOfThreads(order[..k], prompts, tasks, rules)
    {
      OneMoreThread(order[..k], order[k], prompts, tasks, rules);
      assert order[..k + 1] == order[..k] + [order[k]] && order[k] in Elements(order);
      var tags, refs := Gather(groups[order[k]]);
      var more := LinkUnit("thread:" + order[k], tags, refs, tasks, rules);
      links := links + more;
      k := k + 1;
    }
    assert order[..k] == order;
    links := Ranked(links);
  }

  /** Every thread that occurs is listed once, and nothing else. */
  lemma {:induction false} ThreadsListed(prompts: seq<Prompt>)
    ensures forall t :: t in Threads(prompts) <==> t != "" && exists p :: p in prompts && p.thread == t
    ensures forall i, j :: 0 <= i < j < |Threads(prompts)| ==> Threads(prompts)[i] != Threads(prompts)[j]
  {
    if prompts != [] {
      var front, last := prompts[..|prompts| - 1], prompts[|prompts| - 1];
      ThreadsListed(front);
      assert prompts == front + [last];
      forall t ensures t in Threads(prompts) <==> t != "" && exists p :: p in prompts && p.thread == t {
        Occurs(front, last, t);
      }
    }
  }

  lemma Occurs(front: seq<Prompt>, last: Prompt, t: string)
    ensures (exists p :: p in front + [last] && p.thread == t) <==>
      (last.thread == t || exists p :: p in front && p.thread == t)
  {
    var all := front + [last];
    assert last in all;
    if p :| p in front && p.thread == t { assert p in all; }
    if p :| p in all && p.thread == t { assert p in front || p == last; }
  }

  /** What the thread as a whole has in common with a task. */
  ghost predicate ThreadLinks(prompts: seq<Prompt>, thread: string, t: Task, rules: Rules, l: Link) {
    var mine := OfThread(prompts, thread);
    Links("thread:" + thread, AllTags(mine), AllRefs(mine), t, rules, l)
  }

  lemma {:induction false} InLinksOfThreads(order: seq<string>, prompts: seq<Prompt>, tasks: seq<Task>, rules: Rules,
                                            l: Link)
    ensures l in LinksOfThreads(order, prompts, tasks, rules) <==>
      exists thread, t :: thread in order && t in tasks && ThreadLinks(prompts, thread, t, rules, l)
  {
    hide ThreadLinks;
    hide LinksOfThreads;
    hide UnitLinks;
    if order == [] {
      NoThreads(prompts, tasks, rules);
    } else {
      var front, last := order[..|order| - 1], order[|order| - 1];
      InLinksOfThreads(front, prompts, tasks, rules, l);
      OneMoreThread(front, last, prompts, tasks, rules);
      InThread(last, prompts, tasks, rules, l);
      assert order == front + [last];
      assert forall thread :: thread in order <==> thread in front || thread == last;
    }
  }

  lemma InThread(thread: string, prompts: seq<Prompt>, tasks: seq<Task>, rules: Rules, l: Link)
    ensures
      var mine := OfThread(prompts, thread);
      l in UnitLinks("thread:" + thread, AllTags(mine), AllRefs(mine), tasks, rules) <==>
        exists t :: t in tasks && ThreadLinks(prompts, thread, t, rules, l)
  {
    hide Links;
    hide UnitLinks;
    var mine := OfThread(prompts, thread);
    InUnitLinks("thread:" + thread, AllTags(mine), AllRefs(mine), tasks, rules, l);
    assert forall t :: ThreadLinks(prompts, thread, t, rules, l) <==>
      Links("thread:" + thread, AllTags(mine), AllRefs(mine), t, rules, l);
  }

  /** By thread, too, exactly the pairs that are to be linked are reported. */
  lemma ThreadLinkedIff(prompts: seq<Prompt>, tasks: seq<Task>, rules: Rules, l: Link)
    ensures l in Ranked(LinksOfThreads(Threads(prompts), prompts, tasks, rules)) <==>
      exists p, t :: p in prompts && p.thread != "" && t in tasks && ThreadLinks(prompts, p.thread, t, rules, l)
  {
    hide ThreadLinks;
    var links := LinksOfThreads(Threads(prompts), prompts, tasks, rules);
    InLinksOfThreads(Threads(prompts), prompts, tasks, rules, l);
    ThreadsListed(prompts);
    RankedSorts(links, 0.0);
    assert l in Ranked(links) <==> l in multiset(Ranked(links));
    assert l in links <==> l in multiset(links);
  }

  ghost function Union(prompts: seq<Prompt>, lower: Lower): set<string> {
    set k, x | 0 <= k < |prompts| && x in DomainSet(prompts[k].tags, prompts[k].refs, lower) :: x
  }

  lemma InUnion(prompts: seq<Prompt>, lower: Lower, x: string)
    ensures x in Union(prompts, lower) <==>
      exists p :: p in prompts && x in DomainSet(p.tags, p.refs, lower)
  {
    if p :| p in prompts && x in DomainSet(p.tags, p.refs, lower) {
      var k :| 0 <= k < |prompts| && prompts[k] == p;
    }
  }

  /** The domain set of a thread is the union of those of its prompts. */
  lemma {:induction false} ThreadIsUnion(prompts: seq<Prompt>, lower: Lower)
    ensures DomainSet(AllTags(prompts), AllRefs(prompts), lower) == Union(prompts, lower)
  {
    if prompts != [] {
      var front, last := prompts[..|prompts| - 1], prompts[|prompts| - 1];
      ThreadIsUnion(front, lower);
      DomainOfSum(AllTags(front), last.tags, AllRefs(front), last.refs, lower);
      assert prompts == front + [last];
      UnionStep(front, last, lower);
    }
  }

  lemma UnionStep(front: seq<Prompt>, last: Prompt, lower: Lower)
    ensures Union(front + [last], lower) == Union(front, lower) + DomainSet(last.tags, last.refs, lower)
  {
    hide DomainSet;
    hide Union;
    forall x
      ensures x in Union(front + [last], lower) <==>
        x in Union(front, lower) || x in DomainSet(last.tags, last.refs, lower)
    {
      InUnion(front + [last], lower, x);
      InUnion(front, lower, x);
      assert forall p :: p in front + [last] <==> p in front || p == last;
    }
  }

  lemma DomainOfSum(a: seq<string>, b: seq<string>, c: seq<string>, d: seq<string>, lower: Lower)
    ensures DomainSet(a + b, c + d, lower) == DomainSet(a, c, lower) + DomainSet(b, d, lower)
  {
  }

  /** So neither the order nor the repetition of its prompts matters. */
  lemma ThreadOrderIrrelevant(ps: seq<Prompt>, qs: seq<Prompt>, lower: Lower)
    requires forall p :: p in ps <==> p in qs
    ensures DomainSet(AllTags(ps), AllRefs(ps), lower) == DomainSet(AllTags(qs), AllRefs(qs), lower)
  {
    hide Union;
    ThreadIsUnion(ps, lower);
    ThreadIsUnion(qs, lower);
    forall x ensures x in Union(ps, lower) <==> x in Union(qs, lower) {
      InUnion(ps, lower, x);
      InUnion(qs, lower, x);
    }
  }

  // ---- What a link reports ----

  lemma {:induction false} KeptElements(xs: seq<string>, s: set<string>)
    ensures Elements(Kept(xs, s)) == Elements(xs) * s
  {
    if xs != [] {
      var n := |xs| - 1;
      KeptElements(xs[..n], s);
      forall x ensures x in Elements(Kept(xs, s)) <==> x in Elements(xs) * s {
        assert xs == xs[..n] + [xs[n]];
        assert x in Kept(xs, s) <==> x in Kept(xs[..n], s) || (x == xs[n] && x in s);
        assert x in Kept(xs[..n], s) <==> x in Elements(Kept(xs[..n], s));
      }
    }
  }

  lemma {:induction false} TaggedSize(s: set<string>)
    ensures |set x | x in s :: Tag(x)| == |s| && |set x | x in s :: Ref(x)| == |s|
  {
    if s != {} {
      var y :| y in s;
      var rest := s - {y};
      TaggedSize(rest);
      forall x | x in rest ensures Tag(x) != Tag(y) && Ref(x) != Ref(y) { PrefixesApart(x, y); }
      assert (set x | x in s :: Tag(x)) == (set x | x in rest :: Tag(x)) + {Tag(y)};
      assert (set x | x in s :: Ref(x)) == (set x | x in rest :: Ref(x)) + {Ref(y)};
    }
  }

  lemma Shared(tags: seq<string>, refs: seq<string>, t: Task, lower: Lower)
    ensures Ascending(SharedTags(tags, t, lower)) && Ascending(SharedRefs(refs, t))
    ensures Elements(SharedTags(tags, t, lower)) == Tags(tags, lower) * Tags(t.tags, lower)
    ensures Elements(SharedRefs(refs, t)) == Elements(refs) * Elements(t.refs)
  {
    SortedSetSorts(Kept(Lowered(t.tags, lower), Tags(tags, lower)));
    SortedSetSorts(Kept(t.refs, Elements(refs)));
    KeptElements(Lowered(t.tags, lower), Tags(tags, lower));
    KeptElements(t.refs, Elements(refs));
    LoweredElements(t.tags, lower);
  }

  lemma Intersection(tags: seq<string>, refs: seq<string>, t: Task, lower: Lower)
    ensures DomainSet(tags, refs, lower) * DomainSet(t.tags, t.refs, lower) ==
      (set x | x in Tags(tags, lower) * Tags(t.tags, lower) :: Tag(x))
      + (set x | x in Elements(refs) * Elements(t.refs) :: Ref(x))
  {
    Members(tags, refs, lower);
    Members(t.tags, t.refs, lower);
    var both := DomainSet(tags, refs, lower) * DomainSet(t.tags, t.refs, lower);
    forall y | y in both
      ensures y in (set x | x in Tags(tags, lower) * Tags(t.tags, lower) :: Tag(x))
        || y in (set x | x in Elements(refs) * Elements(t.refs) :: Ref(x))
    {
      if z :| z in tags && y == Tag(lower(z)) {
        assert lower(z) in Tags(t.tags, lower);
      } else {
        var f :| f in refs && y == Ref(f);
        assert f in t.refs;
      }
    }
  }

  /** The numerator of the similarity is what a link reports: as many shared items as shared tags and
      shared references. */
  lemma NumeratorIsReported(tags: seq<string>, refs: seq<string>, t: Task, lower: Lower)
    ensures |DomainSet(tags, refs, lower) * DomainSet(t.tags, t.refs, lower)|
         == |SharedTags(tags, t, lower)| + |SharedRefs(refs, t)|
  {
    Shared(tags, refs, t, lower);
    AscendingSize(SharedTags(tags, t, lower));
    AscendingSize(SharedRefs(refs, t));
    Intersection(tags, refs, t, lower);
    var a, b := Tags(tags, lower) * Tags(t.tags, lower), Elements(refs) * Elements(t.refs);
    TaggedSize(a);
    TaggedSize(b);
    forall x, y | x in a && y in b ensures Tag(x) != Ref(y) { PrefixesApart(x, y); }
    assert (set x | x in a :: Tag(x)) !! (set x | x in b :: Ref(x));
  }

  /** A task is linked exactly when it is similar enough and has something in common that is not a
      generic tag; the link says to what, how similar, and lists in order just the shared tags and
      references. */
  lemma LinkedIff(id: string, tags: seq<string>, refs: seq<string>, t: Task, rules: Rules)
    requires t.items == DomainSet(t.tags, t.refs, rules.lower)
    ensures
      var items := DomainSet(tags, refs, rules.lower);
      LinkOf(id, tags, refs, t, rules).Some? <==>
        && rules.jaccard(items, t.items) >= rules.threshold
        && exists x :: x in items * t.items && x !in set g | g in rules.generic :: Tag(g)
    ensures LinkOf(id, tags, refs, t, rules).Some? ==>
      var l := LinkOf(id, tags, refs, t, rules).value;
      && l.task == t.id && l.prompt == id
      && l.jaccard == rules.jaccard(DomainSet(tags, refs, rules.lower), t.items)
      && Ascending(l.tags) && Elements(l.tags) == Tags(tags, rules.lower) * Tags(t.tags, rules.lower)
      && Ascending(l.refs) && Elements(l.refs) == Elements(refs) * Elements(t.refs)
  {
    Shared(tags, refs, t, rules.lower);
    Intersection(tags, refs, t, rules.lower);
    var items := DomainSet(tags, refs, rules.lower);
    var sharedTags, sharedRefs := SharedTags(tags, t, rules.lower), SharedRefs(refs, t);
    var generic := set g | g in rules.generic :: Tag(g);
    if Specific(sharedTags, rules.generic) {
      var k :| 0 <= k < |sharedTags| && sharedTags[k] !in rules.generic;
      assert sharedTags[k] in Elements(sharedTags);
      forall g ensures g in rules.generic ==> Tag(g) != Tag(sharedTags[k]) { PrefixesApart(g, sharedTags[k]); }
      assert Tag(sharedTags[k]) in items * t.items && Tag(sharedTags[k]) !in generic;
    }
    if sharedRefs != [] {
      assert sharedRefs[0] in Elements(sharedRefs);
      forall g ensures Tag(g) != Ref(sharedRefs[0]) { PrefixesApart(g, sharedRefs[0]); }
      assert Ref(sharedRefs[0]) in items * t.items && Ref(sharedRefs[0]) !in generic;
    }
    if x :| x in items * t.items && x !in generic {
      if y :| y in Tags(tags, rules.lower) * Tags(t.tags, rules.lower) && x == Tag(y) {
        assert y in Elements(sharedTags) && y !in rules.generic;
      } else {
        var y :| y in Elements(refs) * Elements(t.refs) && x == Ref(y);
        assert y in Elements(sharedRefs);
      }
    }
  }
}

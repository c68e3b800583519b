/** Whole histories: any number of processes one after the other, each of which may die at any step, with
    power losses and user edits in between. */
module History {
  import opened Disks
  import opened Custody
  import opened Restart
  import opened Names
  import opened Directories
  import opened Recovery
  import opened Staging
  import opened Publication

  datatype Job = Recovering | Publishing(cands: seq<Candidate>) | Editing(name: Name, file: Option<File>)

  /** Candidates come from a dictionary; users edit public files. */
  predicate Proper(job: Job) {
    match job
    case Recovering => true
    case Publishing(cands) => forall i, j :: 0 <= i < j < |cands| ==> cands[i].target != cands[j].target
    case Editing(name, file) => !Private(name)
  }

  /** The updates a job asks for: at most one. */
  function UpdatesOf(job: Job): seq<Update> {
    match job
    case Recovering => []
    case Publishing(cands) => [UpdateOfCandidates(cands)]
    case Editing(name, file) => [map[name := if file.None? then None else Some(ContentOf(file.value))]]
  }

  /** The updates that the jobs ask for, in order. */
  function Asked(jobs: seq<Job>): seq<Update> {
    if jobs == [] then [] else Asked(jobs[..|jobs| - 1]) + UpdatesOf(jobs[|jobs| - 1])
  }

  predicate Subsequence<T(==)>(a: seq<T>, b: seq<T>) {
    if a == [] then true
    else if b == [] then false
    else
      || (a[|a| - 1] == b[|b| - 1] && Subsequence(a[..|a| - 1], b[..|b| - 1]))
      || Subsequence(a, b[..|b| - 1])
  }

  lemma SubsequenceGrows<T>(a: seq<T>, b: seq<T>, x: T)
    requires Subsequence(a, b)
    ensures Subsequence(a, b + [x]) && Subsequence(a + [x], b + [x])
  {
    assert (b + [x])[..|b|] == b && (a + [x])[..|a|] == a;
  }

  /** Every disk that a power loss may fall back to has P in its past: P can no longer be undone. */
  ghost predicate Durable(recent: seq<Disk>, P: seq<Update>) {
    forall s :: s in recent ==> P <= s.ledger
  }

  /** What one job does to the disks that may survive: each was there before, or has the ledger of the
      moment, with the update of the job or without. */
  ghost predicate Worked(before: seq<Disk>, after: seq<Disk>, L: seq<Update>, job: Job) {
    forall s :: s in after ==> s in before || s.ledger == L || s.ledger == L + UpdatesOf(job)
  }

  lemma NothingUndone(before: seq<Disk>, after: seq<Disk>, d: Disk, job: Job)
    requires d in before && Worked(before, after, d.ledger, job)
    ensures forall P :: Durable(before, P) ==> Durable(after, P)
  {
  }

  predicate EditAmong(jobs: seq<Job>, u: Update) {
    exists j :: 0 <= j < |jobs| && jobs[j].Editing? && UpdatesOf(jobs[j]) == [u]
  }

  ghost predicate DurableUpTo(recent: seq<Disk>, F: seq<Update>, jobs: seq<Job>, n: nat) {
    n <= |F| && Durable(recent, F[..n]) && forall k :: n <= k < |F| ==> EditAmong(jobs, F[k])
  }

  /** What may still be undone of F are edits, which nobody syncs. */
  ghost predicate OnlyEditsOpen(recent: seq<Disk>, F: seq<Update>, jobs: seq<Job>) {
    exists n: nat :: DurableUpTo(recent, F, jobs, n)
  }

  /** Unless a committed record stands, which a recovery will sync before it retires it. */
  ghost predicate Accounted(d: Disk, recent: seq<Disk>, jobs: seq<Job>) {
    CommittedStands(d) || OnlyEditsOpen(recent, d.ledger, jobs)
  }

  predicate CommittedStands(d: Disk) {
    d.journal.Some? && d.journal.value.phase.Committed?
  }

  lemma EditStays(jobs: seq<Job>, job: Job, u: Update)
    requires EditAmong(jobs, u)
    ensures EditAmong(jobs + [job], u)
  {
    var j :| 0 <= j < |jobs| && jobs[j].Editing? && UpdatesOf(jobs[j]) == [u];
    assert (jobs + [job])[j] == jobs[j];
  }

  lemma AllHaveIsDurable(recent: seq<Disk>, F: seq<Update>, jobs: seq<Job>)
    requires AllHave(recent, F)
    ensures OnlyEditsOpen(recent, F, jobs)
  {
    assert F[..|F|] == F;
    assert DurableUpTo(recent, F, jobs, |F|);
  }

  /** The ledger and a committed record are what they were, and nothing was undone. */
  lemma AccountedStill(d: Disk, before: seq<Disk>, e: Disk, after: seq<Disk>, jobs: seq<Job>, job: Job)
    requires Accounted(d, before, jobs) && e.ledger == d.ledger && (CommittedStands(d) ==> CommittedStands(e))
    requires forall P :: Durable(before, P) ==> Durable(after, P)
    ensures Accounted(e, after, jobs + [job])
  {
    hide EditAmong;
    if !CommittedStands(d) {
      var n: nat :| DurableUpTo(before, d.ledger, jobs, n);
      forall k | n <= k < |e.ledger| ensures EditAmong(jobs + [job], e.ledger[k]) { EditStays(jobs, job, e.ledger[k]); }
      assert DurableUpTo(after, e.ledger, jobs + [job], n);
    }
  }

  lemma EditAccounted(d: Disk, before: seq<Disk>, e: Disk, after: seq<Disk>, jobs: seq<Job>, job: Job)
    requires Accounted(d, before, jobs) && job.Editing? && e.ledger == d.ledger + UpdatesOf(job) &&
      e.journal == d.journal
    requires forall P :: Durable(before, P) ==> Durable(after, P)
    ensures Accounted(e, after, jobs + [job])
  {
    if !CommittedStands(d) {
      var n: nat :| DurableUpTo(before, d.ledger, jobs, n);
      assert (jobs + [job])[|jobs|] == job;
      forall k | n <= k < |e.ledger| ensures EditAmong(jobs + [job], e.ledger[k]) {
        if k < |d.ledger| { EditStays(jobs, job, d.ledger[k]); }
      }
      assert e.ledger[..n] == d.ledger[..n];
      assert DurableUpTo(after, e.ledger, jobs + [job], n);
    }
  }

  /** One process, or one edit. A dead process leaves the disk of the moment, or after a power loss any
      disk since the last fsync. No durable update is ever undone; `told` is the update of a publication
      that has become durable, which every publication reported as done has. */
  method RunJob(dir: Directory, job: Job, ghost before: seq<Job>, ghost kept: seq<Update>)
    returns (done: bool, ghost told: seq<Update>)
    requires dir.Valid() && !dir.noisy && Proper(job)
    requires forall s :: s in dir.recent ==> Subsequence(s.ledger, Asked(before)) && Subsequence(kept, s.ledger)
    requires Accounted(dir.disk, dir.recent, before)
    modifies dir`disk, dir`recent, dir`seen, dir`next, dir`log, dir`ops, dir`issued, dir`lost
    modifies dir`created, dir`recorded, dir`returned
    ensures dir.Valid()
    ensures Worked(old(dir.recent), dir.recent, old(dir.disk).ledger, job)
    ensures forall P :: Durable(old(dir.recent), P) ==> Durable(dir.recent, P)
    ensures told == if job.Publishing? && Became(dir.recent, old(dir.disk).ledger, job) then UpdatesOf(job) else []
    ensures done ==> Became(dir.recent, old(dir.disk).ledger, job)
    ensures forall s :: s in dir.recent ==>
      Subsequence(s.ledger, Asked(before + [job])) && Subsequence(kept + told, s.ledger)
    ensures Accounted(dir.disk, dir.recent, before + [job])
  {
    hide Subsequence;
    hide Asked;
    hide Accounted;
    ghost var L, recent0 := dir.disk.ledger, dir.recent;
    forall s | s in dir.recent
      ensures Subsequence(s.ledger, Asked(before + [job]))
      ensures Subsequence(s.ledger + UpdatesOf(job), Asked(before + [job]))
      ensures Subsequence(kept, s.ledger + UpdatesOf(job)) &&
        Subsequence(kept + UpdatesOf(job), s.ledger + UpdatesOf(job))
    {
      AskedMore(s.ledger, before, job);
      KeptMore(kept, s.ledger, job);
    }
    assert dir.disk in dir.recent && kept + [] == kept;
    ghost var d0 := dir.disk;
    done := Perform(dir, job, before);
    var powerLost := *;
    if powerLost {
      dir.PowerLoss();
      Survived(dir.disk, before + [job]);
    }
    NothingUndone(recent0, dir.recent, d0, job);
    told := if job.Publishing? && Became(dir.recent, L, job) then UpdatesOf(job) else [];
  }

  /** Whatever survives, the update of the job has taken effect. */
  ghost predicate Became(recent: seq<Disk>, L: seq<Update>, job: Job) {
    forall s :: s in recent ==> s.ledger == L + UpdatesOf(job)
  }

  lemma Survived(d: Disk, jobs: seq<Job>)
    ensures Accounted(d, [d], jobs)
  {
    AllHaveIsDurable([d], d.ledger, jobs);
  }

  /** The work of a job, up to its end or its death. */
  method Perform(dir: Directory, job: Job, ghost before: seq<Job>) returns (done: bool)
    requires dir.Valid() && !dir.noisy && Proper(job)
    requires Accounted(dir.disk, dir.recent, before)
    modifies dir`disk, dir`recent, dir`seen, dir`next, dir`log, dir`ops, dir`issued, dir`lost
    modifies dir`created, dir`recorded, dir`returned
    ensures dir.Valid() && Worked(old(dir.recent), dir.recent, old(dir.disk).ledger, job)
    ensures done ==> Became(dir.recent, old(dir.disk).ledger, job)
    ensures Accounted(dir.disk, dir.recent, before + [job])
  {
    hide dir.Valid;
    hide Accounted;
    hide Durable;
    dir.Now();
    ghost var a := dir.Here();
    done := false;
    match job {
      case Recovering =>
        var r := Recover(dir);
        NothingUndone(a.recent, dir.recent, a.disk, job);
        RecoveryAccounted(a, dir.Here(), before, job);
      case Publishing(cands) =>
        ghost var start;
        var r, committing, incomplete;
        r, committing, incomplete, start := PublishExact(dir, cands);
        NothingUndone(a.recent, dir.recent, a.disk, job);
        PublicationAccounted(a, dir.Here(), start, before, job);
        done := r.Done? && cands != [];
      case Editing(name, file) =>
        var pending := dir.disk.journal.Some? && dir.disk.journal.value.phase.Pending?;
        var free := !pending || !IsTarget(dir.disk.journal.value.entries, name);
        if free { dir.Edit(name, file); }
        NothingUndone(a.recent, dir.recent, a.disk, job);
        if free { EditAccounted(a.disk, a.recent, dir.disk, dir.recent, before, job); }
        else { AccountedStill(a.disk, a.recent, dir.disk, dir.recent, before, job); }
    }
  }

  lemma RecoveryAccounted(a: Moment, b: Moment, jobs: seq<Job>, job: Job)
    requires Accounted(a.disk, a.recent, jobs) && b.disk.ledger == a.disk.ledger
    requires b.disk.journal == None || b.disk.journal == a.disk.journal
    requires a.disk.journal.Some? && b.disk.journal == None ==> AllHave(b.recent, b.disk.ledger)
    requires forall P :: Durable(a.recent, P) ==> Durable(b.recent, P)
    ensures Accounted(b.disk, b.recent, jobs + [job])
  {
    hide OnlyEditsOpen;
    if a.disk.journal.Some? && b.disk.journal == None {
      AllHaveIsDurable(b.recent, b.disk.ledger, jobs + [job]);
    } else {
      AccountedStill(a.disk, a.recent, b.disk, b.recent, jobs, job);
    }
  }

  lemma PublicationAccounted(a: Moment, b: Moment, start: Disk, jobs: seq<Job>, job: Job)
    requires Accounted(a.disk, a.recent, jobs) && job.Publishing?
    requires Carries(start, a.disk) && (a.disk.journal == None ==> start == a.disk)
    requires start.journal.Some? ==> b.disk == start
    requires Carries(b.disk, a.disk) || OnTheWay(b.disk, a.disk.ledger, UpdateOfCandidates(job.cands))
    requires b.disk.journal == None && b.disk.ledger != a.disk.ledger ==> AllHave(b.recent, b.disk.ledger)
    requires a.disk.journal.Some? && start.journal == None ==>
      forall s :: s in b.recent ==>
        s.ledger == start.ledger ||
        s.ledger == start.ledger + [UpdateOfCandidates(job.cands)]
    requires forall P :: Durable(a.recent, P) ==> Durable(b.recent, P)
    ensures Accounted(b.disk, b.recent, jobs + [job])
  {
    hide OnlyEditsOpen;
    var L := a.disk.ledger;
    if CommittedStands(b.disk) {
    } else if b.disk.ledger != L {
      AllHaveIsDurable(b.recent, b.disk.ledger, jobs + [job]);
    } else if a.disk.journal.Some? && start.journal == None {
      WholeLedger(b.recent, L, UpdateOfCandidates(job.cands), jobs + [job]);
    } else {
      AccountedStill(a.disk, a.recent, b.disk, b.recent, jobs, job);
    }
  }

  lemma WholeLedger(recent: seq<Disk>, L: seq<Update>, u: Update, jobs: seq<Job>)
    requires forall s :: s in recent ==> s.ledger == L || s.ledger == L + [u]
    ensures OnlyEditsOpen(recent, L, jobs)
  {
    assert L[..|L|] == L;
    assert DurableUpTo(recent, L, jobs, |L|);
  }

  lemma KeptMore(kept: seq<Update>, L: seq<Update>, job: Job)
    requires Subsequence(kept, L)
    ensures Subsequence(kept, L + UpdatesOf(job)) && Subsequence(kept + UpdatesOf(job), L + UpdatesOf(job))
  {
    if UpdatesOf(job) == [] {
      assert L + UpdatesOf(job) == L && kept + UpdatesOf(job) == kept;
    } else {
      SubsequenceGrows(kept, L, UpdatesOf(job)[0]);
    }
  }

  /** What a history may have done, it may still have done when one more job is asked for; and it may
      have done that job as well. */
  lemma AskedMore(L: seq<Update>, before: seq<Job>, job: Job)
    requires Subsequence(L, Asked(before))
    ensures Subsequence(L, Asked(before + [job])) && Subsequence(L + UpdatesOf(job), Asked(before + [job]))
  {
    assert (before + [job])[..|before|] == before;
    if UpdatesOf(job) == [] {
      assert Asked(before + [job]) == Asked(before) && L + UpdatesOf(job) == L;
    } else {
      SubsequenceGrows(L, Asked(before), UpdatesOf(job)[0]);
    }
  }

  /** Whole-history atomicity. After any history and a completed recovery, the public set is exactly what
      the updates that took effect make of the initial set, applied whole and in order. They are among
      those asked for; everything that was durable after any of the jobs (`moments`) is their beginning;
      and every publication whose committed record became durable in its own run (`told`), which those
      reported as done have, is among them, whatever crashes and power losses came after it. Conversely
      all of it is durable but for an end that edits asked for: a publication that shows can no longer be
      undone, and without edits the public set is exactly what the durable publications make of it. */
  method RunHistory(dir: Directory, jobs: seq<Job>)
    returns (r: Outcome, ghost told: seq<Update>, ghost moments: seq<seq<Disk>>)
    requires dir.Valid() && !dir.noisy && dir.recent == [dir.disk] && dir.disk.ledger == []
    requires forall k :: 0 <= k < |jobs| ==> Proper(jobs[k])
    modifies dir`disk, dir`recent, dir`seen, dir`next, dir`log, dir`ops, dir`issued, dir`lost
    modifies dir`created, dir`recorded, dir`returned
    ensures dir.Valid() && Subsequence(dir.disk.ledger, Asked(jobs)) && Subsequence(told, dir.disk.ledger)
    ensures |moments| == |jobs| + 1 && moments[0] == [old(dir.disk)]
    ensures forall k, P :: 0 <= k <= |jobs| && Durable(moments[k], P) ==> P <= dir.disk.ledger
    ensures r.Done? ==>
      && dir.disk.journal == None
      && OnlyEditsOpen(dir.recent, dir.disk.ledger, jobs)
      && forall n :: !Private(n) ==> Shown(dir.disk, n) == Replay(dir.base, dir.disk.ledger, n)
  {
    hide Subsequence;
    hide Asked;
    hide OnlyEditsOpen;
    Survived(dir.disk, []);
    var k := 0;
    told, moments := [], [dir.recent];
    Nothing();
    assert jobs[..0] == [];
    while k < |jobs|
      invariant 0 <= k <= |jobs| && dir.Valid() && |moments| == k + 1 && moments[0] == [old(dir.disk)]
      invariant forall s :: s in dir.recent ==>
        Subsequence(s.ledger, Asked(jobs[..k])) && Subsequence(told, s.ledger)
      invariant forall j, P :: 0 <= j <= k && Durable(moments[j], P) ==> Durable(dir.recent, P)
      invariant Accounted(dir.disk, dir.recent, jobs[..k])
    {
      assert jobs[..k + 1] == jobs[..k] + [jobs[k]];
      ghost var more;
      var done;
      done, more := RunJob(dir, jobs[k], jobs[..k], told);
      told, moments := told + more, moments + [dir.recent];
      k := k + 1;
    }
    assert jobs[..k] == jobs && dir.disk in dir.recent;
    forall j, P | 0 <= j <= |jobs| && Durable(moments[j], P) ensures P <= dir.disk.ledger {
      assert Durable(dir.recent, P);
    }
    r := Recover(dir);
    if r.Done? && AllHave(dir.recent, dir.disk.ledger) { AllHaveIsDurable(dir.recent, dir.disk.ledger, jobs); }
  }

  /** Without edits everything that shows is durable. */
  lemma NoEditsAllDurable(recent: seq<Disk>, F: seq<Update>, jobs: seq<Job>)
    requires OnlyEditsOpen(recent, F, jobs) && forall j :: 0 <= j < |jobs| ==> !jobs[j].Editing?
    ensures Durable(recent, F)
  {
    var n: nat :| DurableUpTo(recent, F, jobs, n);
    forall u ensures !EditAmong(jobs, u) { NotEdited(jobs, u); }
    hide EditAmong;
    assert n < |F| ==> EditAmong(jobs, F[n]);
    assert n == |F| && F[..|F|] == F;
  }

  lemma NotEdited(jobs: seq<Job>, u: Update)
    requires forall j :: 0 <= j < |jobs| ==> !jobs[j].Editing?
    ensures !EditAmong(jobs, u)
  {
  }

  lemma Nothing()
    ensures Subsequence<Update>([], Asked([])) && Subsequence<Update>([], [])
  {
  }

  /** Every target shows its candidate, and every other public name what it showed. */
  ghost predicate AsPublished(a: Disk, b: Disk, cands: seq<Candidate>) {
    && ShowsCandidates(b, cands)
    && forall n :: !Private(n) && (forall k :: 0 <= k < |cands| ==> cands[k].target != n) ==> Shown(b, n) == Shown(a, n)
  }

  lemma ShowsOneOrTheOther(base: map<Name, Content>, a: Disk, b: Disk, cands: seq<Candidate>)
    requires Good(base, a) && a.journal == None
    requires forall i, j :: 0 <= i < j < |cands| ==> cands[i].target != cands[j].target
    requires forall n :: !Private(n) ==> Shown(b, n) == Replay(base, b.ledger, n)
    ensures b.ledger == a.ledger ==> AsBefore(a, b)
    ensures PublicTargets(cands) && b.ledger == a.ledger + [UpdateOfCandidates(cands)] ==> AsPublished(a, b, cands)
  {
    LastPublicationShows(base, a.ledger, cands);
  }

  /** Crash safety of one publication. Wherever it stops, by failure, death or power loss, what survives
      decides: under a pending record one undisturbed recovery gives back what every public name showed
      before, under a committed one it leaves every target its candidate and every other name alone, and
      without a record it is one or the other. It goes through unless a record survives that a restart
      refuses, which needs other than 1 to 64 targets, a backslash, or a file dated before the epoch. */
  method PublishThenRecover(dir: Directory, cands: seq<Candidate>)
    returns (r: Outcome, v: Outcome, ghost survivor: Disk)
    requires dir.Valid() && !dir.noisy && dir.disk.journal == None && dir.recent == [dir.disk]
    requires forall i, j :: 0 <= i < j < |cands| ==> cands[i].target != cands[j].target
    modifies dir
    ensures dir.Valid()
    ensures v.Done? ==>
      && dir.disk.journal == None
      && match survivor.journal
         case Some(record) =>
           if record.phase.Pending? then AsBefore(old(dir.disk), dir.disk)
           else AsPublished(old(dir.disk), dir.disk, cands)
         case None => AsBefore(old(dir.disk), dir.disk) || AsPublished(old(dir.disk), dir.disk, cands)
    ensures v.Done? && r.Done? && cands != [] ==> AsPublished(old(dir.disk), dir.disk, cands)
    ensures v.Raised? <==> survivor.journal.Some? && !Restartable(old(dir.disk), cands)
  {
    hide Good;
    hide Restartable;
    hide Readable;
    hide AsBefore;
    hide AsPublished;
    dir.Now();
    ghost var d0 := dir.disk;
    var committing, incomplete;
    ghost var start;
    r, committing, incomplete, start := PublishExact(dir, cands);
    assert dir.disk in dir.recent;
    var powerLost := *;
    if powerLost { dir.PowerLoss(); }
    survivor := dir.disk;
    dir.faults := false;
    assert survivor == d0 || Foreseen(false, survivor, d0, cands);
    v := Recover(dir);
    if v.Done? { ShowsOneOrTheOther(dir.base, d0, dir.disk, cands); }
  }

  lemma RecoveringTrans(a: Disk, b: Disk, c: Disk, m: int, n: int)
    requires Recovery.Recovering(a, b, m) && Recovery.Recovering(b, c, n)
    ensures Recovery.Recovering(a, c, m + n)
    ensures IsRecovered(b, c) && (a.journal.Some? ==> c.journal == None) ==> IsRecovered(a, c)
  {
    if SameFate(a, b) {
      if SameFate(b, c) {
        AdvancesTrans(a, b, c, m, n);
      } else {
        RestartIsConfluent(a, b, c);
      }
    } else {
      assert b.journal == None || a.journal == None;
    }
  }

  /** Everything a power loss may leave behind is a stage of one recovery of `start`. */
  ghost predicate AllStages(start: Disk, recent: seq<Disk>) {
    forall s :: s in recent ==> Recovery.Recovering(start, s, 0)
  }

  lemma StagesGoOn(start: Disk, a: Moment, b: Moment)
    requires AllStages(start, a.recent) && Recovery.Recovering(start, a.disk, 0) && Comeback(b.recent, a.recent, a.disk)
    ensures AllStages(start, b.recent)
  {
    forall s | s in b.recent ensures Recovery.Recovering(start, s, 0) {
      if s !in a.recent { RecoveringTrans(start, a.disk, s, 0, 0); }
    }
  }

  /** The steps taken so far, the way still to go, and one whole way more for each power loss. */
  predicate Paid(steps: int, rank: nat, whole: nat, losses: nat) {
    0 <= steps && steps + rank <= whole * (losses + 1)
  }

  lemma PaidAfterLoss(steps: int, rank: nat, next: nat, whole: nat, losses: nat)
    requires Paid(steps, rank, whole, losses) && next <= whole
    ensures Paid(steps, next, whole, losses + 1)
  {
    assert whole * (losses + 2) == whole * (losses + 1) + whole;
  }

  lemma PaidOn(steps: int, more: int, start: Disk, a: Disk, b: Disk, losses: nat)
    requires Paid(steps, Rank(a), Rank(start), losses) && steps <= more && Recovery.Recovering(a, b, more - steps)
    requires Recovery.Recovering(start, a, 0)
    ensures Paid(more, Rank(b), Rank(start), losses) && Recovery.Recovering(start, b, 0)
    ensures IsRecovered(a, b) && (start.journal.Some? ==> b.journal == None) ==> IsRecovered(start, b)
  {
    RecoveringTrans(start, a, b, 0, more - steps);
  }

  lemma PaidMeans(steps: int, rank: nat, whole: nat, losses: nat)
    requires Paid(steps, rank, whole, losses)
    ensures steps <= whole * (losses + 1)
  {
  }

  lemma StageMeans(start: Disk, s: Disk)
    requires Recovery.Recovering(start, s, 0)
    ensures Rank(s) <= Rank(start) && (s.journal == None || s.journal == start.journal)
  {
  }

  lemma StagesOfOne(start: Disk, s: Disk)
    requires Recovery.Recovering(start, s, 0)
    ensures AllStages(start, [s])
  {
  }

  lemma StageOf(start: Disk, recent: seq<Disk>, s: Disk)
    requires AllStages(start, recent) && s in recent
    ensures Recovery.Recovering(start, s, 0) && Rank(s) <= Rank(start)
  {
    StageMeans(start, s);
  }

  lemma Begun(dir: Directory)
    requires dir.Valid() && dir.recent == [dir.disk]
    ensures Recovery.Recovering(dir.disk, dir.disk, 0) && AllStages(dir.disk, dir.recent)
    ensures Paid(0, Rank(dir.disk), Rank(dir.disk), 0)
  {
    AlreadyRecovered(dir.disk);
  }

  /** Recovery is restartable and terminates. However often it dies and is started again, and whatever of
      its unsynced steps a power loss takes back after a death, the way to go never gets longer than it was
      at first, neither in all nor for any one entry; when an attempt goes through, the disk is the one that a
      single uninterrupted recovery would have made; and all effective steps together are at most the first
      rank, once more for each power loss. The start must be durable: a committed record that was not synced
      may fall back to the pending one, which leads elsewhere. */
  method RecoverRepeatedly(dir: Directory, attempts: nat) returns (r: Outcome, losses: nat)
    requires dir.Valid() && !dir.noisy && !dir.faults && dir.recent == [dir.disk]
    requires dir.disk.journal.Some? ==> Readable(dir.disk.journal.value)
    modifies dir`disk, dir`recent, dir`seen, dir`next, dir`log, dir`ops, dir`lost, dir`returned
    ensures dir.Valid() && (r == Done || r == Died)
    ensures Recovery.Recovering(old(dir.disk), dir.disk, 0) && Rank(dir.disk) <= Rank(old(dir.disk))
    ensures dir.ops - old(dir.ops) <= Rank(old(dir.disk)) * (losses + 1)
    ensures r.Done? ==> IsRecovered(old(dir.disk), dir.disk) && dir.disk.journal == None
  {
    hide dir.Valid;
    hide Readable;
    hide AllStages;
    hide Comeback;
    hide IsRecovered;
    hide Paid;
    hide Good;
    hide WellFormed;
    hide Rank;
    hide Recovery.Recovering;
    ghost var d0, o0 := dir.disk, dir.ops;
    var k := 0;
    r, losses := Died, 0;
    Begun(dir);
    while k < attempts && r.Died?
      invariant dir.Valid() && (r == Done || r == Died) && dir.disk in dir.recent
      invariant AllStages(d0, dir.recent) && Recovery.Recovering(d0, dir.disk, 0)
      invariant Paid(dir.ops - o0, Rank(dir.disk), Rank(d0), losses)
      invariant r.Done? ==> IsRecovered(d0, dir.disk) && dir.disk.journal == None
      decreases attempts - k
    {
      ghost var a := dir.Here();
      StageMeans(d0, a.disk);
      r := Recover(dir);
      ghost var b := dir.Here();
      StagesGoOn(d0, a, b);
      PaidOn(a.ops - o0, b.ops - o0, d0, a.disk, b.disk, losses);
      var powerLost := *;
      if r.Died? && powerLost {
        dir.PowerLoss();
        StageOf(d0, b.recent, dir.disk);
        StagesOfOne(d0, dir.disk);
        PaidAfterLoss(b.ops - o0, Rank(b.disk), Rank(dir.disk), Rank(d0), losses);
        losses := losses + 1;
      }
      dir.Now();
      k := k + 1;
    }
    StageMeans(d0, dir.disk);
    PaidMeans(dir.ops - o0, Rank(dir.disk), Rank(d0), losses);
  }
}

# Verification of the artifact publication protocol and its neighbours

This project models, in Dafny, the parts of the repository whose correctness is not visible from reading one
function, and proves what they promise.

**The publication protocol** (`docs/audits/build_reader_mode_estate_audit.py`). A set of files is published all
or nothing over a directory that only has single-name operations. `disk.dfy` is the directory as a value: names
bound to inodes, inode contents, the recovery record, and a history variable, the *ledger*, of the updates that
took effect. `custody.dfy` says which directories are *good*: a restart can finish from them, and they stand for
the initial public set with the ledger replayed over it, where a pending record stands for the original contents
of its targets. `directory.dfy` is the directory as an object with one method per system call. Every call may be
the one the process dies at; it may raise when `faults` is set; and it may be preceded by any changes of public
names by others when `noisy` is set. Each mutating call *requires* that the directory it leaves is good and that
it drops no stranger's last name, so every line of the protocol carries its own crash-safety and custody proof.
`recovery.dfy`, `installation.dfy`, `staging.dfy` and `publication.dfy` follow the source function by function on
that object. Their contracts speak of three kinds of run at once: any run (custody, frames), quiet runs without
interference (calls may raise, the process may die), and calm runs in which nothing raised either (the process may
have died). A log of the calls that raised says what a failure may cost: in a quiet run it is always such a call, or
a stated refusal, that a failure is due to. `restart.dfy` defines what
an undisturbed recovery makes of a directory and how far it still has to go. `history.dfy` puts processes one
after the other. `names.dfy` and `records.dfy` are the naming rules and the record's encoding, `refusals.dfy`
publications whose records cannot be read back. `escape.dfy` says what the one assumption about a call that does not
raise is worth.

**The stable read** (`src/organvm_engine/_stable_io.py`) in `stable_io.dfy`: a lock-free read against writers that
act between any two system calls.

**Smaller parts**: rollups (`rollup.dfy`), directive extraction (`research.dfy`), domain sets and fingerprints
(`domain.dfy`), the linker (`linker.dfy`), span blanking (`spans.dfy`).

What turned out false of the code, with the exact condition:

- The publisher accepts sets the reader refuses. A record is readable exactly for 1 to 64 targets without
  backslashes whose replaced files are not dated before the epoch (`Publication.RestartableIsReadable`,
  `Records.RoundTrip`); `Refusals` has two publications that are staged and recorded and cannot be read back. When a
  process dies while such a record is in force, every later recovery and publication is refused
  (`Recovery.Recover`, `History.PublishThenRecover`).
- Equal fingerprints do not mean equal domains. For all inputs domains are equal exactly when the joined lists and the
  numbers of different tags are (`Domains.SameItemsIff`); for items that are neither empty nor contain a bar the texts
  decide that (`Domains.FingerprintDecides`). Counterexamples: a tag and a reference of one name, a bar in a tag, an
  empty reference.
- No slug leads to the organ SIGMA_E (`Rollups.NoSlugLeadsToSigma`): an organ is reached exactly when no later one has
  its directory (`Rollups.SlugLeadsTo`).
- One call that raises does not always leave the publication rolled back: when it is the rename that displaces an
  original, nothing has moved, and yet giving back is tried, fails, and the record is kept. For one call that raises
  before the commit the rollback is reported incomplete exactly when that call is a rename
  (`Publication.InstallAndCommit`).
- An unlink that raised at the end of a rollback could mix generations: `Escape.EscapeIsUniformIff` says for every state
  exactly when it would not, `Escape.OneChangeIsUniform` which publications are safe beforehand, `Escape.TwoChangesMix`
  which states are not.

## Model

| member | source | states |
|---|---|---|
| Disks.UpdateOfTargets | docs/audits/build_reader_mode_estate_audit.py:1755-1778 | a record's update names exactly its targets, each with its candidate's bytes and mode |
| Custody.EntryStep | docs/audits/build_reader_mode_estate_audit.py:1624-1676 | moving names of one entry only, and leaving that entry safe, keeps the whole directory recoverable and standing for the same public set |
| Custody.PendingStep | docs/audits/build_reader_mode_estate_audit.py:1774-1779 | putting a pending record over untouched targets does not change what the directory stands for |
| Custody.CommitStep | docs/audits/build_reader_mode_estate_audit.py:1832-1834 | replacing the record by a committed one changes the public set by all candidates at once |
| Custody.RetireStep | docs/audits/build_reader_mode_estate_audit.py:1610-1613 | the record may be unlinked once every target of a pending one is restored |
| Custody.PreimageHeld | docs/audits/build_reader_mode_estate_audit.py:1659-1669 | under a pending record an originally present target's bytes are under target, displaced or rollback, and target, displaced and failed are never all gone |
| Restart.RecoveredIsUnique | docs/audits/build_reader_mode_estate_audit.py:1624-1676 | a finished recovery is a function of the directory it starts from |
| Restart.RestartIsConfluent | docs/audits/build_reader_mode_estate_audit.py:1633-1676 | a recovery cut short anywhere and started again ends where an uninterrupted one would |
| Restart.RecoveredShows | docs/audits/build_reader_mode_estate_audit.py:1628-1669 | recovered targets show their original contents under a pending record and what they showed before under a committed one |
| Restart.RankStep | docs/audits/build_reader_mode_estate_audit.py:1633-1669 | an effective step on one entry moves the distance to the end by exactly what it moves that entry's distance |
| Restart.FateStep | docs/audits/build_reader_mode_estate_audit.py:1633-1669 | a step that keeps one entry's fate keeps every entry's fate |
| Restart.NoEntryRisesStep | docs/audits/build_reader_mode_estate_audit.py:1633-1669 | a step that does not lengthen the way of its own entry lengthens that of none |
| Names.SuffixesApart | docs/audits/build_reader_mode_estate_audit.py:1551-1554 | no name can serve two of the four roles |
| Names.ShapeIsReadable | docs/audits/build_reader_mode_estate_audit.py:1556-1561 | a mkstemp name for a target passes the reader's alias test except for a backslash in the target |
| Names.FreshNameExists | docs/audits/build_reader_mode_estate_audit.py:1885-1894 | whatever names are taken, mkstemp has one left |
| Directories.Directory.constructor | docs/audits/build_reader_mode_estate_audit.py:1685-1689 | a directory showing the given files, without record or history |
| Directories.Directory.Matches | docs/audits/build_reader_mode_estate_audit.py:1462-1468 | true only when name, inode, mode, times and bytes are as bound; false without a fault only when they are not |
| Directories.Directory.Bind | docs/audits/build_reader_mode_estate_audit.py:1448-1459 | the binding of what the name shows, or the reason why there is none |
| Directories.Directory.ReadRecord | docs/audits/build_reader_mode_estate_audit.py:1511-1589 | the record in force when a restart accepts it |
| Directories.Directory.Unlink | docs/audits/build_reader_mode_estate_audit.py:1609-1609 | removes one alias; demands that the disk it leaves is recoverable and that nobody else's last name goes |
| Directories.Directory.UnlinkSurely | docs/audits/build_reader_mode_estate_audit.py:1955-1957 | the unlink that ends a rollback, taken not to raise |
| Directories.Directory.Rename | docs/audits/build_reader_mode_estate_audit.py:1652-1652 | POSIX rename, which does nothing between two names of one inode, under the same demands |
| Directories.Directory.Link | docs/audits/build_reader_mode_estate_audit.py:1669-1669 | hard link that never replaces |
| Directories.Directory.Sync | docs/audits/build_reader_mode_estate_audit.py:1471-1476 | makes everything so far durable |
| Directories.Directory.Create | docs/audits/build_reader_mode_estate_audit.py:1706-1718 | a new alias on a new inode with the given bytes and mode, the half-written file included when it stops early |
| Directories.Directory.InstallRecord | docs/audits/build_reader_mode_estate_audit.py:1504-1504 | one rename puts the complete record in force |
| Directories.Directory.RetireRecord | docs/audits/build_reader_mode_estate_audit.py:1612-1612 | unlinks the record |
| Directories.Directory.Interfere | docs/audits/build_reader_mode_estate_audit.py:1928-1951 | others create, replace and remove public names between two calls |
| Directories.Directory.Edit | docs/audits/build_reader_mode_estate_audit.py:1628-1629 | a user edits a public file that no pending publication is about |
| Directories.Directory.PowerLoss | docs/audits/build_reader_mode_estate_audit.py:1504-1505 | falls back to some disk since the last fsync |
| Recovery.Restore | docs/audits/build_reader_mode_estate_audit.py:1901-1910 | the alias goes only after the public name is back; nothing is replaced |
| Recovery.Confirm | docs/audits/build_reader_mode_estate_audit.py:1604-1607 | an alias is gone, is exactly what the record binds, or is refused |
| Recovery.RetireAlias | docs/audits/build_reader_mode_estate_audit.py:1596-1609 | one alias: gone or refused, the rank falls by each step |
| Recovery.RetireAliases | docs/audits/build_reader_mode_estate_audit.py:1596-1609 | all aliases of an entry gone, public names untouched, every step safe and paid for |
| Recovery.RetireAllAliases | docs/audits/build_reader_mode_estate_audit.py:1595-1609 | the same for all entries |
| Recovery.RetireDurably | docs/audits/build_reader_mode_estate_audit.py:1610-1613 | fsync, unlink of the record, fsync; when the record is gone every disk that may survive has the same ledger, and its absence is durable when it returns |
| Recovery.Cleanup | docs/audits/build_reader_mode_estate_audit.py:1592-1613 | demands that under a pending record the restored targets are durable; no recorded alias and no record is left, no public name moves, and a run in which nothing raised makes the finished recovery |
| Recovery.AlreadyRestored | docs/audits/build_reader_mode_estate_audit.py:1640-1643 | whether the target is the original or its copy, or absent when it was absent |
| Recovery.PuttingAside | docs/audits/build_reader_mode_estate_audit.py:1652-1652 | taking the candidate aside is safe and brings recovery one step nearer its end |
| Recovery.PuttingBack | docs/audits/build_reader_mode_estate_audit.py:1659-1669 | linking the displaced original or the copy restores the entry, safely and one step nearer the end |
| Recovery.GivingBack | docs/audits/build_reader_mode_estate_audit.py:1653-1655 | a candidate set aside can be given back safely |
| Recovery.ClearFailed | docs/audits/build_reader_mode_estate_audit.py:1645-1650 | a failed alias of an earlier attempt is removed first, so that the rename takes effect |
| Recovery.SetAside | docs/audits/build_reader_mode_estate_audit.py:1651-1656 | the candidate is moved to the failed alias, durably when it succeeds; anything else that was caught is given back |
| Recovery.PutBackCaught | docs/audits/build_reader_mode_estate_audit.py:1653-1655 | what was caught instead of the candidate is given back, which is not needed when nobody interferes and nothing raises |
| Recovery.MakeRoom | docs/audits/build_reader_mode_estate_audit.py:1644-1658 | the public name is freed of the candidate only; anything else found there stays |
| Recovery.ChooseSource | docs/audits/build_reader_mode_estate_audit.py:1660-1667 | the displaced original, else the copy while the candidate is known to be set aside; without interference it never finds neither |
| Recovery.Reinstate | docs/audits/build_reader_mode_estate_audit.py:1659-1670 | the free public name gets the original or its copy back, durably when it succeeds |
| Recovery.RecoverEntry | docs/audits/build_reader_mode_estate_audit.py:1633-1670 | one target: restored without interference, never destroying what is not the protocol's, with its fate kept at every step |
| Recovery.RecoverEntries | docs/audits/build_reader_mode_estate_audit.py:1632-1674 | all targets, last first; one failure does not stop the others: without interference at most as many targets are left unrestored as calls raised |
| Recovery.UnrestoredStep | docs/audits/build_reader_mode_estate_audit.py:1632-1672 | handling one entry adds at most that entry to the targets not restored |
| Recovery.FinishesRecovery | docs/audits/build_reader_mode_estate_audit.py:1592-1613 | a cleanup that got through is the finished recovery of where the run began |
| Recovery.RecoverPending | docs/audits/build_reader_mode_estate_audit.py:1631-1676 | the targets are put back and that is made durable before any recorded alias is retired; a stop anywhere leaves a stage of the same recovery; at most as many targets are left unrestored as calls raised |
| Recovery.Recover | docs/audits/build_reader_mode_estate_audit.py:1624-1676 | the public set is the replayed history, no alias or record is left, all durable; a committed record's public names are untouched; without interference it fails only if a call raised or the record is unreadable, and once the record could be read at most as many targets are left unrestored as calls raised; calm runs fail only on an unreadable record; wherever it stops, and whatever of it a power loss takes back, the outcome stays the same and the way to go gets no longer, neither in all nor for any one entry; once it has retired a record every disk that may survive has the same ledger |
| Installation.Displace | docs/audits/build_reader_mode_estate_audit.py:1786-1801 | the original is moved aside and is the staged one, or it is given back; when just one call raised the target is restored and nothing stays displaced, and giving back is reported as failed exactly when that call was the rename |
| Installation.Prepare | docs/audits/build_reader_mode_estate_audit.py:1786-1801 | an original is displaced or restored, an absent one needs nothing |
| Installation.MovedIsStaged | docs/audits/build_reader_mode_estate_audit.py:1789-1795 | the moved file has the staged identity |
| Installation.PlaceCandidate | docs/audits/build_reader_mode_estate_audit.py:1802-1816 | the candidate is linked to the free name, or the displaced original is given back |
| Installation.DropTemporary | docs/audits/build_reader_mode_estate_audit.py:1807-1812 | the public file is checked and the temporary goes |
| Installation.DropDisplaced | docs/audits/build_reader_mode_estate_audit.py:1818-1820 | the displaced name goes, missing or not |
| Installation.FinishInstall | docs/audits/build_reader_mode_estate_audit.py:1803-1820 | temporary and displaced name are gone when it succeeds; no other alias moves |
| Installation.InstallEntry | docs/audits/build_reader_mode_estate_audit.py:1781-1820 | published means the candidate is public; failed, unpublished and unbroken means restored; done means no temporary and no displaced name; when just one call raised, a target that is not published is restored, and it is reported broken exactly when that call was the rename |
| Installation.InstallAll | docs/audits/build_reader_mode_estate_audit.py:1781-1820 | a prefix of the targets is published, all of them when it succeeds, and no failed alias is used; after a failure fewer of the others are left unrestored than calls raised |
| Installation.MovedIsCandidate | docs/audits/build_reader_mode_estate_audit.py:1934-1938 | what a rollback moved is the candidate that was published |
| Installation.ReturnOriginal | docs/audits/build_reader_mode_estate_audit.py:1932-1946 | the original is linked back over nothing, or the caller is told to give the candidate back |
| Installation.LinkCopy | docs/audits/build_reader_mode_estate_audit.py:1943-1949 | the copy is linked back, or the caller is told to give the candidate back |
| Installation.GiveBack | docs/audits/build_reader_mode_estate_audit.py:1947-1954 | the moved file is given back under its public name if that is free |
| Installation.DropFailed | docs/audits/build_reader_mode_estate_audit.py:1955-1957 | the candidate set aside goes once the original is back |
| Installation.RollbackEntry | docs/audits/build_reader_mode_estate_audit.py:1920-1957 | without errors the entry is restored and no failed alias is left; without interference errors mean that a call raised; only the target and the failed alias move |
| Installation.Rollback | docs/audits/build_reader_mode_estate_audit.py:1913-1958 | without errors every entry is restored and no failed alias is left; without interference errors mean that a call raised, and at most one more target is left unrestored for each call that raised; staged aliases stay where they are |
| Staging.Make | docs/audits/build_reader_mode_estate_audit.py:1706-1722 | a fresh alias with exactly the wanted bytes and mode |
| Staging.Reserve | docs/audits/build_reader_mode_estate_audit.py:1885-1894 | a name that was never handed out and is free again |
| Staging.StageTemporaries | docs/audits/build_reader_mode_estate_audit.py:1703-1722 | one temporary per candidate, each on an inode of its own |
| Staging.StageCopy | docs/audits/build_reader_mode_estate_audit.py:1723-1753 | the identity of the target and a copy with its bytes and mode, or its absence |
| Staging.StageCopies | docs/audits/build_reader_mode_estate_audit.py:1723-1753 | the same for all targets |
| Staging.StageFiles | docs/audits/build_reader_mode_estate_audit.py:1703-1753 | all temporaries and all copies, each on an inode of its own and still in place |
| Staging.BindAll | docs/audits/build_reader_mode_estate_audit.py:1757-1773 | three true bindings, or a refusal when the target changed since it was copied |
| Staging.BuildEntry | docs/audits/build_reader_mode_estate_audit.py:1755-1773 | a well-formed entry, true of the disk, whose copy shows what the original showed |
| Staging.BuildEntries | docs/audits/build_reader_mode_estate_audit.py:1754-1773 | the entries of all targets, with all names apart |
| Staging.Stage | docs/audits/build_reader_mode_estate_audit.py:1703-1773 | everything the pending record may be written over; without interference it stops only if a call raised or for a target or a size it refuses |
| Staging.ShapedIsWellFormed | docs/audits/build_reader_mode_estate_audit.py:1758-1761 | the four aliases of an entry differ and are private |
| Staging.ShapedApart | docs/audits/build_reader_mode_estate_audit.py:1706-1742 | entries over different targets with different handed-out names share no name at all |
| Publication.UpdatesAgree | docs/audits/build_reader_mode_estate_audit.py:1774-1778 | the record's update is exactly what the candidates ask for |
| Publication.LastPublicationShows | docs/audits/build_reader_mode_estate_audit.py:1832-1834 | after the last committed publication exactly its candidates show under its targets, and every other name shows what it showed |
| Publication.WriteRecord | docs/audits/build_reader_mode_estate_audit.py:1493-1508 | the record is in force whole or not at all, and durable when it returns; one over the size limit is always refused, with nothing changed |
| Publication.Revalidate | docs/audits/build_reader_mode_estate_audit.py:1827-1831 | succeeds only if every target was its candidate on some disk since the last fsync |
| Publication.LookAround | docs/audits/build_reader_mode_estate_audit.py:1822-1831 | fsync, and every target seen as its candidate on some disk since; without interference that is the only disk that may survive |
| Publication.InstallChecked | docs/audits/build_reader_mode_estate_audit.py:1781-1831 | success means all published, all aliases but the copies gone, all looked at once more; a failure means that a call raised, and fewer unpublished targets are left unrestored than calls raised |
| Publication.Commit | docs/audits/build_reader_mode_estate_audit.py:1832-1834 | demands that the installed targets are durable; the committed record replaces the pending one whole or not at all; no name moves; it fails only if a call raised or that record is over the size limit |
| Publication.InstallAndCommit | docs/audits/build_reader_mode_estate_audit.py:1780-1855 | committed only after all targets are public; a failure before is rolled back: fewer targets are left unrestored than calls raised, so one call that raised leaves all of them restored, and the rollback is then reported incomplete exactly when that call was a rename; a failure after the commit began retains everything; without interference it fails only if a call raised or the committed record is over the size limit |
| Publication.Discard | docs/audits/build_reader_mode_estate_audit.py:1860-1864 | the listed aliases are gone, nothing else moved, and every disk on the way shows the same public names |
| Publication.Finish | docs/audits/build_reader_mode_estate_audit.py:1856-1868 | temporaries go, copies and record only when not retained; nothing is removed under a record that is given up before the public names are durable; once the record is gone every disk that may survive has the same ledger |
| Publication.Enact | docs/audits/build_reader_mode_estate_audit.py:1779-1855 | the update takes effect wholly or not at all; a failure before the commit leaves fewer targets unrestored than calls raised; without interference it fails only if a call raised or one of its two records is over the size limit |
| Publication.PublishStaged | docs/audits/build_reader_mode_estate_audit.py:1774-1868 | every disk that may survive has a pending record over the old ledger, a committed one over the new, or none; once the committed record is gone all of them have the update; when it succeeds no recorded alias is left; a failure before the commit for which just one call raised, and no rename, leaves no record, and no alias either unless that call was an unlink; an incomplete rollback leaves the pending record and every copy; it fails only if a call raised or one of its two records is over the size limit |
| Publication.ReadyIsReadable | docs/audits/build_reader_mode_estate_audit.py:1523-1588 | the publisher's record is accepted exactly for 1 to 64 targets without backslashes and non-negative times |
| Publication.RestartableIsReadable | docs/audits/build_reader_mode_estate_audit.py:1562-1573 | the same as a condition on the directory before the call: no file to be replaced is dated before the epoch |
| Publication.AllNamesGone | docs/audits/build_reader_mode_estate_audit.py:1856-1868 | every private name handed out for a publication is an alias of its record |
| Publication.PublishLocked | docs/audits/build_reader_mode_estate_audit.py:1692-1868 | all or nothing in every run without interference; on every disk that may survive a pending record means the old ledger and a committed one the new, and once the committed record is gone all of them have the update; once the commit has begun every target stays its candidate; a failure before it for which just one call raised, and no rename, leaves every public name showing what it showed and no record, and each further one leaves at most one more target unrestored; success is durable and leaves no private name; failed rollbacks keep record and copies; without interference it fails only if a call raised, for candidates it refuses, or for one of its own two records being over the size limit; in any run nobody else's file is lost |
| Publication.PublishExact | docs/audits/build_reader_mode_estate_audit.py:1685-1689 | the same after a recovery, relative to the disk that the recovery left, and nothing but the recovery for an empty set; without interference it fails only if a call raised, for an unreadable old record, for candidates it refuses or for one of its own two records being over the size limit |
| History.Perform | docs/audits/build_reader_mode_estate_audit.py:1679-1689 | one process or edit, dying anywhere, adds at most its own update to any disk that may survive; when it reports success all of them have it; and afterwards a committed record stands or only edits may still be undone |
| History.RunJob | docs/audits/build_reader_mode_estate_audit.py:1679-1689 | the same with power loss afterwards; nothing that was durable is undone, and the publication is kept exactly when its update has become durable |
| History.RunHistory | docs/audits/build_reader_mode_estate_audit.py:1479-1490 | after any number of processes, crashes, power losses and edits a completed recovery shows the initial set with some of the asked updates applied whole and in order; whatever was durable after any of the jobs is their beginning, every publication whose committed record became durable is among them, and what shows is on every disk that may survive but for a tail of updates that edits asked for |
| History.NoEditsAllDurable | docs/audits/build_reader_mode_estate_audit.py:1479-1490 | without edits all of what a completed recovery shows is on every disk that may survive |
| History.PublishThenRecover | docs/audits/build_reader_mode_estate_audit.py:1774-1868 | for every stop, death and power loss, after one undisturbed recovery a surviving pending record means that every public name shows what it showed, a surviving committed one that every target shows its candidate; it is refused exactly when the surviving record cannot be read back |
| History.RecoverRepeatedly | docs/audits/build_reader_mode_estate_audit.py:1633-1676 | recoveries that die any number of times, with power losses in between, never get further from the end than at first, neither in all nor for any one entry, end as one uninterrupted run would, and take at most the first rank of effective steps for each power loss and one more |
| Records.BindingRoundTrip | docs/audits/build_reader_mode_estate_audit.py:1573-1586 | a binding is read back exactly when its time is not negative |
| Records.EntryRoundTrip | docs/audits/build_reader_mode_estate_audit.py:1534-1588 | an entry is read back exactly when its names and times obey the rules and its target is new |
| Records.RoundTrip | docs/audits/build_reader_mode_estate_audit.py:1493-1589 | a written record is read back unchanged exactly when it has 1 to 64 entries that obey the rules, else refused |
| Records.ReadableMeansRead | docs/audits/build_reader_mode_estate_audit.py:1511-1589 | the protocol's readable records are those whose encoding the reader accepts |
| Records.ReadEntryIff | docs/audits/build_reader_mode_estate_audit.py:1534-1588 | an entry is accepted exactly when it is the encoding of one that obeys the rules |
| Records.ReadIff | docs/audits/build_reader_mode_estate_audit.py:1523-1589 | a document is read as a record exactly when it spells that record, of this very directory, with 1 to 64 entries that obey the rules |
| Records.OneDirectory | docs/audits/build_reader_mode_estate_audit.py:1534-1538 | no document is accepted in two directories |
| Records.ForeignRecordIsRefused | docs/audits/build_reader_mode_estate_audit.py:1534-1538 | a written record is refused in any directory but its own |
| Records.AcceptedRecord | docs/audits/build_reader_mode_estate_audit.py:1523-1588 | whatever document is accepted has version 1, one of the two states, this directory, 48 hexadecimal digits, eight keys an entry and six a binding, non-negative integers and digests of 64 digits, and obeys the naming rules |
| Records.AliasesMeet | docs/audits/build_reader_mode_estate_audit.py:1556-1561 | aliases of two targets agree only if one target followed by a dot starts the other |
| Records.NamespacesApart | docs/audits/build_reader_mode_estate_audit.py:1545-1572 | in an accepted record no alias is a target or the record, roles differ, and entries meet only by dotted prefixes |
| Records.PublishedAliasesDistinct | docs/audits/build_reader_mode_estate_audit.py:38-45 | over the four published names all aliases are distinct |
| Refusals.BackslashIsRefused | docs/audits/build_reader_mode_estate_audit.py:1552-1560 | a publication of a file with a backslash in its name puts a record in force that the reader rejects |
| Refusals.EarlyDateIsRefused | docs/audits/build_reader_mode_estate_audit.py:1573-1583 | so does one that replaces a file dated before the epoch |
| Escape.EscapeIsUniformIff | docs/audits/build_reader_mode_estate_audit.py:1955-1957 | if that unlink raised in any state, the retired directory would show the old set exactly when every target is restored or published unchanged, the new one exactly when every target is published or restored to what its candidate shows |
| Escape.OneChangeIsUniform | docs/audits/build_reader_mode_estate_audit.py:1955-1957 | so a publication that changes at most one target is uniform even then |
| Escape.TwoChangesMix | docs/audits/build_reader_mode_estate_audit.py:1955-1957 | in every state with one changed target published and another one restored it would be neither set |
| Escape.EscapeMixesGenerations | docs/audits/build_reader_mode_estate_audit.py:1955-1957 | and such a state exists, with the alias that a raising unlink leaves |
| StableReads.SameCtimeSameNode | src/organvm_engine/_stable_io.py:88-107 | an inode that ends with its first ctime has not changed in between |
| StableReads.Kernel.OpenAt | src/organvm_engine/_stable_io.py:51-51 | opens what the directory names, no link followed |
| StableReads.Kernel.Read | src/organvm_engine/_stable_io.py:61-61 | delivers any part of what is there, nothing only at the end |
| StableReads.Kernel.CloseIf | src/organvm_engine/_stable_io.py:80-86 | a clause of the finally block closes its descriptor once |
| StableReads.OpenParent | src/organvm_engine/_stable_io.py:112-129 | one descriptor on success and none otherwise; the names are what the path stands for at some moment of the call, and real directories led there |
| StableReads.Descend | src/organvm_engine/_stable_io.py:119-129 | the walk itself, equal to the declarative walk when nobody interferes |
| StableReads.Enter | src/organvm_engine/_stable_io.py:123-125 | the child is opened, then the directory it was found in is closed |
| StableReads.OpenFile | src/organvm_engine/_stable_io.py:38-57 | a regular file within the limit, opened under a directory to which real directories led along what the path stands for; too large only if the inode so found was over the limit |
| StableReads.OpenNamed | src/organvm_engine/_stable_io.py:39-57 | the name is looked at, opened and looked at again; a regular file within the limit, or what is wrong with it; too large only if an inode that had the name was over the limit |
| StableReads.ReadAll | src/organvm_engine/_stable_io.py:59-65 | at most maximum + 1 delivering reads; a prefix of an unchanging file, whatever the short reads; too large only if the inode being read was over the limit |
| StableReads.LookHere | src/organvm_engine/_stable_io.py:66-67 | the opened file and its name once more |
| StableReads.LookThere | src/organvm_engine/_stable_io.py:69-75 | both directories, and the name in the live one |
| StableReads.LookAgain | src/organvm_engine/_stable_io.py:66-75 | the last look names the inode under a directory freshly walked to along what the path then stands for |
| StableReads.ReadAndLook | src/organvm_engine/_stable_io.py:59-75 | agreement of the looks makes what was read a snapshot of what the path stands for, both before and again at the end |
| StableReads.Attempt | src/organvm_engine/_stable_io.py:37-75 | the whole try body with its descriptors: a snapshot if the looks agree, too large only of an inode that the path led to |
| StableReads.ReadStable | src/organvm_engine/_stable_io.py:20-109 | under any interference and any failing calls a snapshot, within the limit, of an inode that the path led to in both walks, or an error; too large only if an inode that the path led to was over the limit; every descriptor closed exactly once; alone, just the file |
| Domains.BuildDomainSet | src/organvm_engine/domain.py:23-34 | the loops build the set of prefixed tags and references |
| Domains.PrefixesApart | src/organvm_engine/domain.py:26-33 | tags and references never collide and can be told apart again |
| Domains.SameDomainIff | src/organvm_engine/domain.py:23-34 | domain sets agree exactly when lowered tags and references do |
| Domains.SortedSetSorts | src/organvm_engine/domain.py:18-18 | sorted(set(xs)) is ascending and has the elements of xs |
| Domains.AscendingIsUnique | src/organvm_engine/domain.py:18-18 | there is only one such list |
| Domains.SameDomainSameFingerprint | src/organvm_engine/domain.py:12-34 | equal domain sets give equal texts to hash, whatever order, repetition and case |
| Domains.TagsComeFirst | src/organvm_engine/domain.py:18-19 | the text is the lowered tags in ascending order, then the references in ascending order |
| Domains.SameItemsIff | src/organvm_engine/domain.py:18-34 | for all inputs, domain sets agree exactly when the joined lists and the numbers of tags do |
| Domains.JoinedIsInjective | src/organvm_engine/domain.py:19-19 | joining can be undone for items that are neither empty nor contain a bar |
| Domains.FingerprintDecides | src/organvm_engine/domain.py:12-34 | for such items, domain sets agree exactly when the hashed texts and the numbers of different tags do |
| Domains.FingerprintsCollide | src/organvm_engine/domain.py:18-20 | a tag and a reference of one name give one text |
| Domains.SeparatorsCollide | src/organvm_engine/domain.py:19-19 | a bar in a tag looks like the separator |
| Domains.EmptiesCollide | src/organvm_engine/domain.py:19-19 | an empty reference leaves no trace |
| Linker.LinkUnit | src/organvm_engine/atoms/linker.py:117-141 | the loop over tasks for one prompt or thread |
| Linker.LinkByPrompt | src/organvm_engine/atoms/linker.py:109-144 | all prompts, ranked |
| Linker.PromptLinkedIff | src/organvm_engine/atoms/linker.py:115-144 | exactly the pairs that are to be linked are reported |
| Linker.GroupByThread | src/organvm_engine/atoms/linker.py:153-158 | threads in order of first appearance, each with its prompts in order |
| Linker.ThreadsListed | src/organvm_engine/atoms/linker.py:153-158 | every occurring thread id that is not empty is listed exactly once |
| Linker.LinkByThread | src/organvm_engine/atoms/linker.py:147-195 | all threads, ranked |
| Linker.ThreadLinkedIff | src/organvm_engine/atoms/linker.py:160-192 | by thread, exactly the pairs of an occurring thread and a task that are to be linked are reported |
| Linker.RankedSorts | src/organvm_engine/atoms/linker.py:143-143 | a stable sort by falling similarity that loses and adds nothing |
| Linker.ThreadIsUnion | src/organvm_engine/atoms/linker.py:162-171 | a thread's domain set is the union of its prompts' sets |
| Linker.ThreadOrderIrrelevant | src/organvm_engine/atoms/linker.py:162-171 | so order and repetition of prompts do not matter |
| Linker.NumeratorIsReported | src/organvm_engine/atoms/linker.py:125-130 | the number of shared items is the number of shared tags plus shared references |
| Linker.LinkedIff | src/organvm_engine/atoms/linker.py:124-141 | linked exactly when similar enough and sharing something besides generic tags; the link names both, gives the similarity and lists just the shared tags and references in order |
| Rollups.CountTasks | src/organvm_engine/atoms/rollup.py:103-138 | after the tasks every rollup is what the definition says, and ids lead to their last known organ |
| Rollups.CountPrompts | src/organvm_engine/atoms/rollup.py:140-167 | the same for the prompts |
| Rollups.BuildRollups | src/organvm_engine/atoms/rollup.py:93-188 | an organ has a rollup exactly when it is one of the ten and has tasks or prompts; its numbers are the numbers of its tasks, of those pending and of those completed, its lists are exactly the pending tasks of each repository and the links to other organs in input order, its tallies count kinds, sessions and fingerprints; all totals add up to the tasks with a known organ |
| Rollups.TallySums | src/organvm_engine/atoms/rollup.py:158-162 | a tally adds up to the items it counts |
| Rollups.OrganAddsUp | src/organvm_engine/atoms/rollup.py:122-162 | pending lists add up to the pending tasks; kinds and sessions add up to the same prompts |
| Rollups.RollupAccounts | src/organvm_engine/atoms/rollup.py:109-186 | every field of a rollup is what its own items count or list, told by their positions in the input |
| Rollups.TotalsOfAll | src/organvm_engine/atoms/rollup.py:109-118 | the total fields of all rollups add up to the tasks with a known organ |
| Rollups.TaskOrganIff | src/organvm_engine/atoms/rollup.py:107-120 | a task id stands for the organ of the last task that has it and a known organ |
| Rollups.PromptOrganIff | src/organvm_engine/atoms/rollup.py:142-153 | a prompt id stands for the organ of the last prompt that has it and a slug of a known directory |
| Rollups.ListedByBoth | src/organvm_engine/atoms/rollup.py:171-186 | a cross-organ link is listed by its two organs as often as it was found and by no other |
| Rollups.LinksAddUp | src/organvm_engine/atoms/rollup.py:171-186 | all lists together hold every cross-organ link exactly twice |
| Rollups.LinksCross | src/organvm_engine/atoms/rollup.py:172-175 | the links counted join two different known organs |
| Rollups.KeyOfDirIff | src/organvm_engine/atoms/rollup.py:19-21 | a directory leads to the last organ that has it |
| Rollups.SlugLeadsTo | src/organvm_engine/atoms/rollup.py:24-34 | for all slugs: it leads to an organ exactly when it lies under the organ's directory and no later organ has that directory |
| Rollups.NoSlugLeadsToSigma | src/organvm_engine/atoms/rollup.py:19-34 | no slug leads to SIGMA_E |
| Rollups.QueueIsPendingOfRepo | src/organvm_engine/atoms/rollup.py:230-238 | a queue is found exactly for repositories with pending tasks and holds all of them in order |
| Research.ExtractDirectives | src/organvm_engine/atoms/research.py:262-368 | the one-pass scan computes what looking back from each line defines |
| Research.Emit | src/organvm_engine/atoms/research.py:307-366 | what one line appends is the definition for that line |
| Research.ScannedIsInForce | src/organvm_engine/atoms/research.py:289-305 | the forward variables are the section found by looking back |
| Research.InForceIsUnique | src/organvm_engine/atoms/research.py:289-305 | looking back has one answer |
| Research.ActiveIff | src/organvm_engine/atoms/research.py:295-304 | active exactly when no heading since the last actionable one is as shallow |
| Research.DirectivesByLine | src/organvm_engine/atoms/research.py:282-368 | line by line nothing is missing or added, nothing comes from a fenced line, and lines come in order |
| Research.LineYields | src/organvm_engine/atoms/research.py:307-366 | for every line: a checkbox yields one directive anywhere, a numbered item one in an actionable section, each only above 15 characters; otherwise one for every bold phrase and one for the arrow, all fields as given; fenced lines and headings yield nothing |
| Research.NumberedAloneIff | src/organvm_engine/atoms/research.py:325-342 | a numbered item alone yields something exactly in an actionable section and above 15 characters |
| Research.FencesAreCounted | src/organvm_engine/atoms/research.py:282-287 | whether a line is fenced is the parity of the fences before it |
| Research.HeadingsAreFound | src/organvm_engine/atoms/research.py:289-293 | just the headings with an even number of fences before them count, in order |
| Spans.Blank | docs/audits/build_reader_mode_estate_audit.py:1302-1304 | the length stays; a position is a space exactly when some span covers it |
| Spans.JoinedLines | docs/audits/build_reader_mode_estate_audit.py:1212-1217 | splitting into lines loses nothing |
| Spans.LineOffsets | docs/audits/build_reader_mode_estate_audit.py:1212-1216 | where the lines begin |
| Spans.OffsetFor | docs/audits/build_reader_mode_estate_audit.py:1212-1217 | the offset of a row and column; cutting there leaves exactly the lines before and that much of the row |
| Spans.PrefixLines | docs/audits/build_reader_mode_estate_audit.py:1212-1217 | the conversion inverts line splitting |

## Left out

- Real system-call details: flags, uid and mode checks of the record file, `O_NOFOLLOW`, non-regular files and
  symbolic links under public names, the identity of the root directory, and the two-step reading of a file. One
  call binds a name to its inode and contents.
- `Records` starts from a parsed JSON document; turning it into text and back (lines 1495 and 1531) is not modelled.
- The sha256 digest is equality of bytes in the protocol, and any function to 64 hexadecimal digits in `Records`.
- Durability is ordered: a power loss falls back to a prefix of the operations since the last fsync. File contents
  are durable when the name that shows them is.
- A raised error is never FileNotFoundError or FileExistsError unless the directory causes it; asynchronous
  exceptions that are not `Exception` are not raised. Deaths fall on calls that change or sync the directory, which
  covers deaths at calls that only look.
- Directories.Directory.UnlinkSurely: does not model the raise of the unlink at line 1957, because the exception leaves
  the rollback before anything is retained; module Escape says what would follow from it.
- The record's own temporary file (line 1497) is not modelled: it is never read and its name is apart from all
  others. The size limit of the record is an arbitrary predicate.
- Temporaries of a process that died before its record was written stay, as they do in the source.
- Third parties act on public names only, may link any existing inode there, and never write into an inode. Under
  interference only safety is stated; that recovery refuses to go on is intended.
- The lock is taken as given: processes of one history follow one another.
- `expanduser`, reading the current directory as a call that can fail, and the kernel's reuse of descriptor numbers
  are not part of the stable read; every change of an inode is taken to advance its ctime.
- StableReads.ReadStable: does not say that a read goes through when others only change unrelated files, or that a
  file that outgrows the limit while it is read is called too large rather than unstable.
- StableReads.Kernel.CloseIf: `close` is taken not to fail.
- Regular expressions of the research scanner: a line comes taken apart by its pattern matches.
- `jaccard_similarity`, the generic tags and lower-casing are parameters; loading JSONL files and dropping items
  with an empty fingerprint happen before the linker starts.
- `OrganRollup` objects are values in a map that the pass reassigns; nothing else refers to them. Writing and loading
  rollup files is left out.
- Spans.Blank: takes the spans in any order, of which the source's reversed sorting is one, and takes columns as
  character counts, which holds for ASCII payloads. Finding the spans is left out.
- Notebook content, privacy expressions, the command line, audits and continuous-integration checks: library calls,
  finite tables or single branches.

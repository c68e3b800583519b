/** The recovery record on disk: what the publisher writes and what a restart accepts. */
module Records {
  import opened Disks
  import opened Names

  /** The keys the reader knows by name, and any other. */
  datatype Key =
    | Version | Transaction | State | Directory | Artifacts
    | Device | Inode | Size | Mtime | Mode | Sha256
    | Target | Temporary | Rollback | Displaced | Failed
    | OriginalBinding | CandidateBinding | RollbackBinding
    | Other(text: string)

  /** A parsed JSON document. */
  datatype Json =
    | JNull
    | JBool(b: bool)
    | JInt(n: int)
    | JFloat(x: real)
    | JStr(s: string)
    | JList(items: seq<Json>)
    | JObject(fields: map<Key, Json>)

  datatype WireBinding = WireBinding(device: nat, inode: nat, bytes: nat, mtime: int, mode: nat, sha256: string)

  datatype WireEntry = WireEntry(
    target: string, temporary: string, rollback: Option<string>, displaced: string, failed: string,
    original: Option<WireBinding>, candidate: WireBinding, copy: Option<WireBinding>)

  datatype Root = Root(device: nat, inode: nat)

  datatype WireRecord = WireRecord(committed: bool, root: Root, transaction: string, artifacts: seq<WireEntry>)

  // ---- Writing ----

  function Optional(s: Option<string>): Json {
    match s case None => JNull case Some(v) => JStr(v)
  }

  function WriteBinding(b: WireBinding): Json {
    JObject(map[Device := JInt(b.device), Inode := JInt(b.inode), Size := JInt(b.bytes),
                Mtime := JInt(b.mtime), Mode := JInt(b.mode), Sha256 := JStr(b.sha256)])
  }

  function WriteOptional(b: Option<WireBinding>): Json {
    match b case None => JNull case Some(v) => WriteBinding(v)
  }

  function WriteEntry(e: WireEntry): Json {
    JObject(map[Target := JStr(e.target), Temporary := JStr(e.temporary), Rollback := Optional(e.rollback),
                Displaced := JStr(e.displaced), Failed := JStr(e.failed),
                OriginalBinding := WriteOptional(e.original), CandidateBinding := WriteBinding(e.candidate),
                RollbackBinding := WriteOptional(e.copy)])
  }

  function Write(r: WireRecord): Json {
    JObject(map[Version := JInt(1), Transaction := JStr(r.transaction),
                State := JStr(if r.committed then "committed" else "pending"),
                Directory := JObject(map[Device := JInt(r.root.device), Inode := JInt(r.root.inode)]),
                Artifacts := JList(seq(
                  |r.artifacts|, i requires 0 <= i < |r.artifacts| => WriteEntry(r.artifacts[i])))])
  }

  // ---- Reading ----

  /** Equality with a number as the source language has it: true is 1, and 1.0 is 1. */
  predicate Equals(v: Json, n: int) {
    v == JInt(n) || v == JFloat(n as real) || (v == JBool(true) && n == 1) || (v == JBool(false) && n == 0)
  }

  function Get(m: map<Key, Json>, k: Key): Json {
    if k in m then m[k] else JNull
  }

  predicate LowerHex(s: string, n: nat) {
    |s| == n && forall c :: c in s ==> '0' <= c <= '9' || 'a' <= c <= 'f'
  }

  const BINDING_KEYS: set<Key> := {Device, Inode, Size, Mtime, Mode, Sha256}
  const ENTRY_KEYS: set<Key> := {
    Target, Temporary, Rollback, Displaced, Failed, OriginalBinding, CandidateBinding, RollbackBinding}

  predicate Count(v: Json) {
    v.JInt? && v.n >= 0
  }

  function ReadBinding(v: Json): Option<WireBinding> {
    if !v.JObject? || v.fields.Keys != BINDING_KEYS then None else
    var f := v.fields;
    if !Count(f[Device]) || !Count(f[Inode]) || !Count(f[Size]) || !Count(f[Mtime]) || !Count(f[Mode]) then None
    else if !f[Sha256].JStr? || !LowerHex(f[Sha256].s, 64) then None
    else Some(WireBinding(f[Device].n, f[Inode].n, f[Size].n, f[Mtime].n, f[Mode].n, f[Sha256].s))
  }

  predicate AcceptsAlias(v: Json, target: string, suffix: string) {
    v.JStr? && ReadableAlias(v.s, target, suffix)
  }

  predicate AcceptsOptional(v: Json) {
    v == JNull || ReadBinding(v).Some?
  }

  function OptionalBinding(v: Json): Option<WireBinding> {
    if v == JNull then None else ReadBinding(v)
  }

  /** The target and the aliases of an entry, given the targets seen before it. */
  predicate AcceptsNames(f: map<Key, Json>, targets: set<string>)
    requires f.Keys == ENTRY_KEYS
  {
    && f[Target].JStr? && ReadableTarget(f[Target].s) && f[Target].s !in targets
    && AcceptsAlias(f[Temporary], f[Target].s, ".tmp")
    && ((f[Rollback] == JNull && f[OriginalBinding] == JNull) || AcceptsAlias(f[Rollback], f[Target].s, ".rollback"))
    && AcceptsAlias(f[Displaced], f[Target].s, ".displaced")
    && AcceptsAlias(f[Failed], f[Target].s, ".failed")
  }

  predicate AcceptsBindings(f: map<Key, Json>)
    requires f.Keys == ENTRY_KEYS
  {
    && AcceptsOptional(f[OriginalBinding]) && ReadBinding(f[CandidateBinding]).Some?
    && AcceptsOptional(f[RollbackBinding])
    && (f[OriginalBinding] == JNull) == (f[RollbackBinding] == JNull)
  }

  function ReadEntry(v: Json, targets: set<string>): Option<WireEntry> {
    if !v.JObject? || v.fields.Keys != ENTRY_KEYS then None else
    var f := v.fields;
    if !AcceptsNames(f, targets) || !AcceptsBindings(f) then None
    else Some(WireEntry(
      f[Target].s, f[Temporary].s, if f[Rollback].JStr? then Some(f[Rollback].s) else None, f[Displaced].s, f[Failed].s,
      OptionalBinding(f[OriginalBinding]), ReadBinding(f[CandidateBinding]).value, OptionalBinding(f[RollbackBinding])))
  }

  function ReadEntries(items: seq<Json>): (es: Option<seq<WireEntry>>)
    ensures es.Some? ==> |es.value| == |items|
  {
    if items == [] then Some([]) else
    match ReadEntries(items[..|items| - 1])
    case None => None
    case Some(before) =>
      match ReadEntry(items[|items| - 1], set e | e in before :: e.target)
      case None => None
      case Some(e) => Some(before + [e])
  }

  /** The whole record for a directory of the given identity. */
  function Read(v: Json, root: Root): Option<WireRecord> {
    if !v.JObject? then None else
    var f := v.fields;
    if !Equals(Get(f, Version), 1) then None
    else if Get(f, State) != JStr("pending") && Get(f, State) != JStr("committed") then None
    else if !AcceptsRoot(Get(f, Directory), root) then None
    else if !Get(f, Transaction).JStr? || !LowerHex(Get(f, Transaction).s, 48) then None
    else if !Get(f, Artifacts).JList? || !(1 <= |Get(f, Artifacts).items| <= MAX_ENTRIES) then None
    else match ReadEntries(Get(f, Artifacts).items)
      case None => None
      case Some(es) => Some(WireRecord(Get(f, State) == JStr("committed"), root, Get(f, Transaction).s, es))
  }

  predicate AcceptsRoot(v: Json, root: Root) {
    && v.JObject? && v.fields.Keys == {Device, Inode}
    && Equals(v.fields[Device], root.device) && Equals(v.fields[Inode], root.inode)
  }

  // ---- Round trip ----

  predicate DatedBinding(b: Option<WireBinding>) {
    b.Some? ==> b.value.mtime >= 0
  }

  /** The naming and dating rules of the reader for one entry. */
  predicate AcceptedEntry(e: WireEntry) {
    && ReadableTarget(e.target)
    && ReadableAlias(e.temporary, e.target, ".tmp") && ReadableAlias(e.displaced, e.target, ".displaced")
    && ReadableAlias(e.failed, e.target, ".failed")
    && (e.rollback.Some? ==> ReadableAlias(e.rollback.value, e.target, ".rollback"))
    && (e.original.None? <==> e.copy.None?)
    && (e.rollback.None? ==> e.original.None?)
    && DatedBinding(e.original) && e.candidate.mtime >= 0 && DatedBinding(e.copy)
  }

  predicate AllAccepted(es: seq<WireEntry>) {
    && (forall i :: 0 <= i < |es| ==> AcceptedEntry(es[i]))
    && forall i, j :: 0 <= i < j < |es| ==> es[i].target != es[j].target
  }

  predicate HexDigest(b: Option<WireBinding>) {
    b.Some? ==> LowerHex(b.value.sha256, 64)
  }

  /** Digests as hashlib renders them. */
  predicate Digested(e: WireEntry) {
    HexDigest(e.original) && HexDigest(Some(e.candidate)) && HexDigest(e.copy)
  }

  lemma BindingRoundTrip(b: WireBinding)
    requires LowerHex(b.sha256, 64)
    ensures ReadBinding(WriteBinding(b)) == if b.mtime >= 0 then Some(b) else None
  {
    assert WriteBinding(b).fields.Keys == BINDING_KEYS;
  }

  lemma OptionalRoundTrip(b: Option<WireBinding>)
    requires HexDigest(b)
    ensures AcceptsOptional(WriteOptional(b)) <==> DatedBinding(b)
    ensures DatedBinding(b) ==> OptionalBinding(WriteOptional(b)) == b
    ensures WriteOptional(b) == JNull <==> b.None?
  {
    if b.Some? { BindingRoundTrip(b.value); }
  }

  lemma NamesRoundTrip(e: WireEntry, targets: set<string>)
    ensures WriteEntry(e).fields.Keys == ENTRY_KEYS
    ensures AcceptsNames(WriteEntry(e).fields, targets) <==>
      && e.target !in targets && ReadableTarget(e.target)
      && ReadableAlias(e.temporary, e.target, ".tmp") && ReadableAlias(e.displaced, e.target, ".displaced")
      && ReadableAlias(e.failed, e.target, ".failed")
      && (if e.rollback.Some? then ReadableAlias(e.rollback.value, e.target, ".rollback") else e.original.None?)
  {
    hide ReadableAlias;
    hide ReadableTarget;
    assert WriteEntry(e).fields.Keys == ENTRY_KEYS;
  }

  lemma EntryRoundTrip(e: WireEntry, targets: set<string>)
    requires Digested(e)
    ensures ReadEntry(WriteEntry(e), targets) ==
      if AcceptedEntry(e) && e.target !in targets then Some(e) else None
  {
    hide AcceptsNames;
    hide AcceptsOptional;
    hide ReadBinding;
    hide WriteBinding;
    hide OptionalBinding;
    hide WriteOptional;
    hide ReadableAlias;
    hide ReadableTarget;
    NamesRoundTrip(e, targets);
    BindingRoundTrip(e.candidate);
    OptionalRoundTrip(e.original);
    OptionalRoundTrip(e.copy);
  }

  function TargetsOf(es: seq<WireEntry>): set<string> {
    set e | e in es :: e.target
  }

  lemma AcceptedMore(es: seq<WireEntry>, e: WireEntry)
    ensures AllAccepted(es + [e]) <==> AllAccepted(es) && AcceptedEntry(e) && e.target !in TargetsOf(es)
  {
    hide AcceptedEntry;
    var all := es + [e];
    assert forall i :: 0 <= i < |es| ==> all[i] == es[i];
    if AllAccepted(all) {
      assert AcceptedEntry(all[|es|]);
      forall i | 0 <= i < |es| ensures AcceptedEntry(es[i]) && es[i].target != e.target {
        assert all[i].target != all[|es|].target;
      }
    }
    if AllAccepted(es) && AcceptedEntry(e) && e.target !in TargetsOf(es) {
      forall i | 0 <= i < |es| ensures all[i].target != all[|es|].target { assert es[i] in es; }
    }
  }

  lemma ReadMore(items: seq<Json>, v: Json)
    ensures ReadEntries(items + [v]) ==
      match ReadEntries(items)
      case None => None
      case Some(before) =>
        match ReadEntry(v, TargetsOf(before)) case None => None case Some(e) => Some(before + [e])
  {
    hide ReadEntry;
    assert (items + [v])[..|items|] == items;
  }

  lemma {:induction false} EntriesRoundTrip(es: seq<WireEntry>, items: seq<Json>)
    requires |items| == |es| && forall i :: 0 <= i < |es| ==> items[i] == WriteEntry(es[i]) && Digested(es[i])
    ensures ReadEntries(items) == if AllAccepted(es) then Some(es) else None
  {
    hide ReadEntry;
    hide WriteEntry;
    hide AcceptedEntry;
    hide Digested;
    if es != [] {
      hide ReadEntries;
      hide AllAccepted;
      var front, last := es[..|es| - 1], es[|es| - 1];
      var before, v := items[..|es| - 1], items[|es| - 1];
      EntriesRoundTrip(front, before);
      EntryRoundTrip(last, TargetsOf(front));
      AcceptedMore(front, last);
      ReadMore(before, v);
      assert es == front + [last] && items == before + [v];
    }
  }

  /** Reading back: a record is read unchanged exactly when it has 1 to 64 entries that obey the naming and
      dating rules, with distinct targets; any other one is refused. */
  lemma RoundTrip(r: WireRecord)
    requires LowerHex(r.transaction, 48) && forall i :: 0 <= i < |r.artifacts| ==> Digested(r.artifacts[i])
    ensures Read(Write(r), r.root) ==
      if 1 <= |r.artifacts| <= MAX_ENTRIES && AllAccepted(r.artifacts) then Some(r) else None
  {
    hide ReadEntries;
    hide WriteEntry;
    hide AllAccepted;
    hide Digested;
    var f := Write(r).fields;
    assert f[Directory].fields.Keys == {Device, Inode};
    EntriesRoundTrip(r.artifacts, f[Artifacts].items);
  }

  /** What the publisher writes for one binding. */
  function WireOf(b: Binding, device: nat, digest: Bytes -> string): WireBinding {
    WireBinding(device, b.ino, |b.file.data|, b.file.mtime, b.file.mode, digest(b.file.data))
  }

  function WireEntryOf(e: Entry, device: nat, digest: Bytes -> string): WireEntry {
    WireEntry(e.target, e.temporary, if e.preimage.Some? then Some(e.preimage.value.rollback) else None,
              e.displaced, e.failed,
              if e.preimage.Some? then Some(WireOf(e.preimage.value.original, device, digest)) else None,
              WireOf(e.candidate, device, digest),
              if e.preimage.Some? then Some(WireOf(e.preimage.value.copy, device, digest)) else None)
  }

  function WireRecordOf(r: Record, root: Root, transaction: string, digest: Bytes -> string): WireRecord {
    WireRecord(r.phase.Committed?, root, transaction,
               seq(|r.entries|, i requires 0 <= i < |r.entries| => WireEntryOf(r.entries[i], root.device, digest)))
  }

  /** The protocol's readable records are the ones whose encoding the reader accepts, and it reads back
      what was written. */
  lemma ReadableMeansRead(r: Record, root: Root, transaction: string, digest: Bytes -> string)
    requires LowerHex(transaction, 48) && forall b: Bytes :: LowerHex(digest(b), 64)
    ensures
      var w := WireRecordOf(r, root, transaction, digest);
      Read(Write(w), root) == if Readable(r) then Some(w) else None
  {
    hide Read;
    hide Write;
    hide ReadableAlias;
    hide ReadableTarget;
    var w := WireRecordOf(r, root, transaction, digest);
    forall i | 0 <= i < |r.entries|
      ensures Digested(w.artifacts[i]) && w.artifacts[i].target == r.entries[i].target
      ensures AcceptedEntry(w.artifacts[i]) <==> ReadableEntry(r.entries[i])
    {
      assert w.artifacts[i] == WireEntryOf(r.entries[i], root.device, digest);
    }
    RoundTrip(w);
    AcceptedTargets(w.artifacts, r.entries);
  }

  lemma AcceptedTargets(es: seq<WireEntry>, entries: seq<Entry>)
    requires |es| == |entries|
    requires forall i :: 0 <= i < |es| ==>
      es[i].target == entries[i].target && (AcceptedEntry(es[i]) <==> ReadableEntry(entries[i]))
    ensures AllAccepted(es) <==> TargetsDiffer(entries) && forall i :: 0 <= i < |entries| ==> ReadableEntry(entries[i])
  {
    hide AcceptedEntry;
    hide ReadableEntry;
    if TargetsDiffer(entries) {
      forall i, j | 0 <= i < j < |es| ensures es[i].target != es[j].target {
        assert entries[i].target != entries[j].target;
      }
    }
    if AllAccepted(es) {
      forall i, j | 0 <= i < j < |es| ensures entries[i].target != entries[j].target {
        assert es[i].target != es[j].target;
      }
      forall i | 0 <= i < |es| ensures ReadableEntry(entries[i]) {
        assert AcceptedEntry(es[i]);
      }
    }
  }

  // ---- Alias namespaces ----

  function AliasNames(e: WireEntry): set<string> {
    {e.temporary, e.displaced, e.failed} + match e.rollback case None => {} case Some(n) => {n}
  }

  // ---- What is accepted ----

  lemma BindingIsWritten(v: Json)
    requires ReadBinding(v).Some?
    ensures var b := ReadBinding(v).value; v == WriteBinding(b) && LowerHex(b.sha256, 64) && b.mtime >= 0
  {
    var b := ReadBinding(v).value;
    assert v.fields == WriteBinding(b).fields;
  }

  lemma OptionalIsWritten(v: Json)
    requires AcceptsOptional(v)
    ensures var b := OptionalBinding(v); v == WriteOptional(b) && HexDigest(b) && DatedBinding(b)
  {
    if v != JNull { BindingIsWritten(v); }
  }

  /** The reader of an entry accepts encodings and nothing else. */
  lemma ReadEntryIff(v: Json, targets: set<string>, e: WireEntry)
    ensures ReadEntry(v, targets) == Some(e) <==>
      v == WriteEntry(e) && Digested(e) && AcceptedEntry(e) && e.target !in targets
  {
    hide ReadBinding;
    hide WriteBinding;
    hide ReadableAlias;
    hide ReadableTarget;
    hide LowerHex;
    if ReadEntry(v, targets) == Some(e) {
      var f := v.fields;
      BindingIsWritten(f[CandidateBinding]);
      OptionalIsWritten(f[OriginalBinding]);
      OptionalIsWritten(f[RollbackBinding]);
      assert v.fields == WriteEntry(e).fields;
    }
    if Digested(e) { EntryRoundTrip(e, targets); }
  }

  predicate AllDigested(es: seq<WireEntry>) {
    forall i :: 0 <= i < |es| ==> Digested(es[i])
  }

  predicate AllWritten(items: seq<Json>, es: seq<WireEntry>) {
    |items| == |es| && forall i :: 0 <= i < |es| ==> items[i] == WriteEntry(es[i])
  }

  lemma {:induction false} ReadEntriesIff(items: seq<Json>, es: seq<WireEntry>)
    ensures ReadEntries(items) == Some(es) <==> AllWritten(items, es) && AllDigested(es) && AllAccepted(es)
  {
    hide ReadEntry;
    hide WriteEntry;
    hide AcceptedEntry;
    hide Digested;
    if ReadEntries(items) == Some(es) && items != [] {
      var front, last := items[..|items| - 1], items[|items| - 1];
      var before, e := es[..|es| - 1], es[|es| - 1];
      assert items == front + [last];
      ReadMore(front, last);
      assert ReadEntries(front) == Some(before) && ReadEntry(last, TargetsOf(before)) == Some(e);
      ReadEntriesIff(front, before);
      ReadEntryIff(last, TargetsOf(before), e);
      AcceptedMore(before, e);
      assert es == before + [e];
    }
    if AllWritten(items, es) && AllDigested(es) { EntriesRoundTrip(es, items); }
  }

  /** The document gives the version, the state, the directory, the transaction and the entries of the
      record as the publisher would; numbers may be spelt otherwise, and keys the reader does not know are
      let pass. */
  predicate Spells(f: map<Key, Json>, r: WireRecord) {
    && Equals(Get(f, Version), 1)
    && Get(f, State) == JStr(if r.committed then "committed" else "pending")
    && Get(f, Transaction) == JStr(r.transaction)
    && AcceptsRoot(Get(f, Directory), r.root)
    && Get(f, Artifacts).JList? && AllWritten(Get(f, Artifacts).items, r.artifacts)
  }

  /** Reading is sound and complete: a document is read as r exactly when it spells r, r is of this very
      directory, and r obeys the rules. */
  lemma ReadIff(v: Json, root: Root, r: WireRecord)
    ensures Read(v, root) == Some(r) <==>
      && v.JObject? && Spells(v.fields, r) && r.root == root && LowerHex(r.transaction, 48)
      && 1 <= |r.artifacts| <= MAX_ENTRIES && AllDigested(r.artifacts) && AllAccepted(r.artifacts)
  {
    hide ReadEntries;
    hide AllWritten;
    hide AllDigested;
    hide AllAccepted;
    hide AcceptsRoot;
    hide LowerHex;
    if v.JObject? && Get(v.fields, Artifacts).JList? {
      ReadEntriesIff(Get(v.fields, Artifacts).items, r.artifacts);
    }
  }

  /** No document is accepted in two directories; so a record is refused in any directory but its own. */
  lemma OneDirectory(v: Json, root: Root, other: Root)
    requires Read(v, root).Some? && root != other
    ensures Read(v, other) == None
  {
    hide ReadEntries;
    hide LowerHex;
    var here := v.fields[Directory].fields;
    assert Equals(here[Device], root.device) && Equals(here[Inode], root.inode);
  }

  lemma ForeignRecordIsRefused(w: WireRecord, other: Root)
    requires other != w.root
    ensures Read(Write(w), other) == None
  {
    hide ReadEntries;
    hide WriteEntry;
    hide LowerHex;
    var here := Write(w).fields[Directory].fields;
    assert here[Device] == JInt(w.root.device) && here[Inode] == JInt(w.root.inode);
  }

  predicate HexDigit(c: char) {
    '0' <= c <= '9' || 'a' <= c <= 'f'
  }

  /** A binding in an accepted document: six keys, five non-negative integers and a digest. */
  predicate BindingDocument(v: Json) {
    && v.JObject? && v.fields.Keys == {Device, Inode, Size, Mtime, Mode, Sha256}
    && (forall k :: k in {Device, Inode, Size, Mtime, Mode} ==> v.fields[k].JInt? && v.fields[k].n >= 0)
    && v.fields[Sha256].JStr? && |v.fields[Sha256].s| == 64
    && forall c :: c in v.fields[Sha256].s ==> HexDigit(c)
  }

  /** An entry in an accepted document: eight keys, a candidate, and an original just when there is a copy
      and a name for it. */
  predicate EntryDocument(v: Json) {
    && v.JObject?
    && v.fields.Keys == {
         Target, Temporary, Rollback, Displaced, Failed, OriginalBinding, CandidateBinding, RollbackBinding}
    && (forall k :: k in {Target, Temporary, Displaced, Failed} ==> v.fields[k].JStr?)
    && BindingDocument(v.fields[CandidateBinding])
    && (forall k :: k in {OriginalBinding, RollbackBinding} ==> v.fields[k] == JNull || BindingDocument(v.fields[k]))
    && (v.fields[OriginalBinding] == JNull <==> v.fields[RollbackBinding] == JNull)
    && (v.fields[Rollback].JStr? || (v.fields[Rollback] == JNull && v.fields[OriginalBinding] == JNull))
  }

  lemma EntryIsDocument(e: WireEntry)
    requires Digested(e) && AcceptedEntry(e)
    ensures EntryDocument(WriteEntry(e))
  {
    hide WriteBinding;
    hide BindingDocument;
    hide ReadableAlias;
    hide ReadableTarget;
    BindingIsDocument(Some(e.candidate));
    BindingIsDocument(e.original);
    BindingIsDocument(e.copy);
  }

  lemma BindingIsDocument(b: Option<WireBinding>)
    requires HexDigest(b) && DatedBinding(b)
    ensures WriteOptional(b) == JNull <==> b.None?
    ensures b.Some? ==> WriteOptional(b) == WriteBinding(b.value) && BindingDocument(WriteBinding(b.value))
  {
  }

  /** Whatever document is accepted has this shape, and what it is read as obeys the naming rules. */
  lemma AcceptedRecord(v: Json, root: Root)
    requires Read(v, root).Some?
    ensures var r := Read(v, root).value;
      && 1 <= |r.artifacts| <= MAX_ENTRIES
      && (forall i :: 0 <= i < |r.artifacts| ==> AcceptedEntry(r.artifacts[i]))
      && (forall i, j :: 0 <= i < j < |r.artifacts| ==> r.artifacts[i].target != r.artifacts[j].target)
      && r.root == root
    ensures v.JObject? && Get(v.fields, Version) in {JInt(1), JFloat(1.0), JBool(true)}
    ensures Get(v.fields, State) == JStr("pending") || Get(v.fields, State) == JStr("committed")
    ensures var t := Get(v.fields, Transaction); t.JStr? && |t.s| == 48 && forall c :: c in t.s ==> HexDigit(c)
    ensures Get(v.fields, Directory).JObject? && Get(v.fields, Directory).fields.Keys == {Device, Inode}
    ensures var items := Get(v.fields, Artifacts);
      && items.JList? && |items.items| == |Read(v, root).value.artifacts|
      && forall i :: 0 <= i < |items.items| ==> EntryDocument(items.items[i])
  {
    hide ReadEntries;
    hide Read;
    hide AcceptedEntry;
    hide Digested;
    hide EntryDocument;
    hide WriteEntry;
    var r := Read(v, root).value;
    ReadIff(v, root, r);
    forall i | 0 <= i < |r.artifacts| ensures EntryDocument(Get(v.fields, Artifacts).items[i]) {
      EntryIsDocument(r.artifacts[i]);
    }
  }

  const RECORD_NAME := ".reader-mode-publication.recovery"

  /** An alias carries its target between dots, so aliases of two entries agree only when one target
      followed by a dot starts the other. */
  lemma AliasesMeet(n: string, t: string, u: string)
    requires StartsWith(n, "." + t + ".") && StartsWith(n, "." + u + ".") && t != u
    ensures StartsWith(t, u + ".") || StartsWith(u, t + ".")
  {
    if |t| <= |u| { SameStart(n, t, u); } else { SameStart(n, u, t); }
  }

  lemma SameStart(n: string, t: string, u: string)
    requires StartsWith(n, "." + t + ".") && StartsWith(n, "." + u + ".") && |t| <= |u|
    ensures |t| < |u| ==> StartsWith(u, t + ".")
    ensures |t| == |u| ==> t == u
  {
    forall k | 0 <= k < |t| ensures u[k] == t[k] {
      assert ("." + u + ".")[k + 1] == n[k + 1] == ("." + t + ".")[k + 1];
    }
    if |t| < |u| {
      assert ("." + u + ".")[|t| + 1] == n[|t| + 1] == ("." + t + ".")[|t| + 1];
      assert u[..|t| + 1] == t + ".";
    }
  }

  lemma EntryAliases(e: WireEntry)
    requires AcceptedEntry(e)
    ensures forall n :: n in AliasNames(e) ==>
      n != RECORD_NAME && n != "" && n[0] == '.' && StartsWith(n, "." + e.target + ".")
    ensures e.temporary != e.displaced && e.temporary != e.failed && e.displaced != e.failed
    ensures e.rollback.Some? ==>
      e.rollback.value != e.temporary && e.rollback.value != e.displaced && e.rollback.value != e.failed
    ensures e.target != "" && e.target[0] != '.'
  {
    hide EndsWith;
    SuffixesApart(e.temporary);
    SuffixesApart(e.displaced);
    if e.rollback.Some? { SuffixesApart(e.rollback.value); }
    assert StartsWith(e.target, ".") <==> e.target[0] == '.';
    forall n | n in AliasNames(e) ensures n != RECORD_NAME && n != "" && n[0] == '.' {
      NotTheRecord(n);
      assert n[..|"." + e.target + "."|][0] == '.';
    }
  }

  /** Aliases never meet targets, the record's own name, or each other within an entry. */
  lemma NamespacesApart(v: Json, root: Root, i: nat, j: nat)
    requires Read(v, root).Some?
    requires i < |Read(v, root).value.artifacts| && j < |Read(v, root).value.artifacts|
    ensures
      var e := Read(v, root).value.artifacts[i];
      var f := Read(v, root).value.artifacts[j];
      && f.target !in AliasNames(e) && RECORD_NAME !in AliasNames(e) && f.target != RECORD_NAME
      && e.temporary != e.displaced && e.temporary != e.failed && e.displaced != e.failed
      && (e.rollback.Some? ==>
            e.rollback.value != e.temporary && e.rollback.value != e.displaced && e.rollback.value != e.failed)
      && (i != j && AliasNames(e) * AliasNames(f) != {} ==>
            StartsWith(e.target, f.target + ".") || StartsWith(f.target, e.target + "."))
  {
    hide Read;
    hide AcceptedEntry;
    hide AliasNames;
    hide StartsWith;
    AcceptedRecord(v, root);
    var artifacts := Read(v, root).value.artifacts;
    var e, f := artifacts[i], artifacts[j];
    EntryAliases(e);
    EntryAliases(f);
    if i != j && AliasNames(e) * AliasNames(f) != {} {
      var n :| n in AliasNames(e) && n in AliasNames(f);
      if i < j { assert artifacts[i].target != artifacts[j].target; }
      AliasesMeet(n, e.target, f.target);
    }
  }

  lemma NotTheRecord(n: string)
    requires EndsWith(n, ".tmp") || EndsWith(n, ".displaced") || EndsWith(n, ".failed") || EndsWith(n, ".rollback")
    ensures n != RECORD_NAME
  {
    if EndsWith(n, ".tmp") { LastOf(n, ".tmp"); }
    if EndsWith(n, ".displaced") { LastOf(n, ".displaced"); }
    if EndsWith(n, ".failed") { LastOf(n, ".failed"); }
    if EndsWith(n, ".rollback") { LastOf(n, ".rollback"); }
    assert RECORD_NAME[|RECORD_NAME| - 1] == 'y';
  }

  lemma LastOf(n: string, suffix: string)
    requires EndsWith(n, suffix) && suffix != ""
    ensures n != "" && n[|n| - 1] == suffix[|suffix| - 1]
  {
    assert n[|n| - |suffix|..][|suffix| - 1] == suffix[|suffix| - 1];
  }

  const PUBLISHED := [
    "2026-08-31-reader-mode-estate-audit.ipynb",
    "reader-mode-estate-summary.json",
    "reader-mode-public-rollout.json",
    "reader-mode-estate-audit.md"]

  /** Among the four published artifacts no name followed by a dot starts another one, so any record over
      them has all its aliases distinct. */
  lemma PublishedAliasesDistinct(v: Json, root: Root, i: nat, j: nat)
    requires Read(v, root).Some?
    requires i < |Read(v, root).value.artifacts| && j < |Read(v, root).value.artifacts| && i != j
    requires forall k :: 0 <= k < |Read(v, root).value.artifacts| ==>
      Read(v, root).value.artifacts[k].target in PUBLISHED
    ensures AliasNames(Read(v, root).value.artifacts[i]) !! AliasNames(Read(v, root).value.artifacts[j])
  {
    var t, u := Read(v, root).value.artifacts[i].target, Read(v, root).value.artifacts[j].target;
    NamespacesApart(v, root, i, j);
    PublishedPrefixFree(t, u);
  }

  lemma PublishedPrefixFree(t: string, u: string)
    requires t in PUBLISHED && u in PUBLISHED
    ensures !StartsWith(t, u + ".") && !StartsWith(u, t + ".")
  {
    NotDotted(t, u);
    NotDotted(u, t);
  }

  lemma NotDotted(a: string, b: string)
    requires a in PUBLISHED && b in PUBLISHED
    ensures !StartsWith(a, b + ".")
  {
    if |a| <= |b| { return; }
    if a == PUBLISHED[0] {
      assert a[0] == '2';
      Differ(a, b, 0);
    } else {
      assert b == PUBLISHED[3] && |b| == 27 && b[12] == 'e' && |b + "."| == 28;
      assert a == PUBLISHED[1] || a == PUBLISHED[2];
      assert a[27] != '.';
      Differ(a, b, 27);
    }
  }

  lemma Differ(a: string, b: string, k: nat)
    requires k <= |b| && |b| < |a| && a[k] != (b + ".")[k]
    ensures !StartsWith(a, b + ".")
  {
    var p := b + ".";
    assert a[..|p|] != p by { assert a[..|p|][k] != p[k]; }
  }
}

// The two stores together: service calls of internal/blob/upload.go and
// internal/manifest/service.go as sequences of store calls, any number of them
// interleaved between every two store calls.  Module Linearization licenses the map of
// committed files here: a commit takes effect, and learns what it reports, at its
// link(2), a removal at its unlink(2), and nothing else changes the map.
module JointStores {
  import opened Basics
  import opened Digests
  import opened FileSystem
  import opened Metastore
  import opened Manifests

  // How an upload reacts to ErrBlobCommitted.
  datatype Kind = Monolithic | Mounted | Chunked

  // What happens to a transaction besides running: the caller's context is cancelled, or
  // the database itself fails.
  datatype Outcome = Runs | ContextCancelled | DatabaseFails

  datatype Pc =
    | BlobPut(k: Key, data: Bytes, kind: Kind)
    | BlobStat(k: Key, compensate: bool)
    | BlobTx(k: Key, size: int, compensate: bool)
    | BlobDelete(k: Key)
    | ManifestPut(k: Key, m: Manifest, body: Bytes, now: int)
    | ManifestTx(k: Key, m: Manifest, size: int, now: int)
    | RemoveTx(k: Key)
    | ManifestDelete(k: Key)
    | NamespaceTx(create: bool, ns: string)
    | Done

  datatype State = State(files: map<Key, Bytes>, db: Db, calls: map<nat, Pc>)

  const INIT: State := State(map[], EMPTY_DB, map[])

  datatype Step =
    | Start(c: nat, pc: Pc)
    | PutFails(c: nat)
    | PutStores(c: nat)
    | PutExists(c: nat)
    | Stats(c: nat, ok: bool)
    | RunBlobTx(c: nat, out: Outcome)
    | RunManifestTx(c: nat, out: Outcome)
    | RunRemoveTx(c: nat, out: Outcome)
    | RunNamespaceTx(c: nat, out: Outcome)
    | Deletes(c: nat, ok: bool)

  // A call starts when its arguments and its namespace have been validated.
  predicate Validated(H: Hashes, s: State, pc: Pc)
  {
    match pc
    case BlobPut(k, _, _) => ValidDigest(k.digest) && k.ns in s.db.namespaces
    case ManifestPut(k, _, body, _) => ManifestDigest(H, body) == k.digest && ValidDigest(k.digest) && k.ns in s.db.namespaces
    case RemoveTx(k) => ValidDigest(k.digest) && k.ns in s.db.namespaces
    case NamespaceTx(_, _) => true
    case _ => false
  }

  function NamespaceStmt(pc: Pc): Stmt
    requires pc.NamespaceTx?
  {
    if pc.create then CreateNamespace(pc.ns) else DeleteNamespace(pc.ns)
  }

  predicate Putting(pc: Pc) { pc.BlobPut? || pc.ManifestPut? }

  function PutData(pc: Pc): Bytes
    requires Putting(pc)
  {
    if pc.BlobPut? then pc.data else pc.body
  }

  predicate Enabled(H: Hashes, s: State, t: Step)
  {
    match t
    case Start(c, pc) => c !in s.calls && Validated(H, s, pc)
    case PutFails(c) => c in s.calls && Putting(s.calls[c])
    case PutStores(c) =>
      && c in s.calls && Putting(s.calls[c]) && s.calls[c].k !in s.files
      && Matches(H, s.calls[c].k.digest, PutData(s.calls[c]))
    case PutExists(c) =>
      && c in s.calls && Putting(s.calls[c]) && s.calls[c].k in s.files
      && Matches(H, s.calls[c].k.digest, PutData(s.calls[c]))
    case Stats(c, _) => c in s.calls && s.calls[c].BlobStat?
    case RunBlobTx(c, _) => c in s.calls && s.calls[c].BlobTx?
    case RunManifestTx(c, _) => c in s.calls && s.calls[c].ManifestTx?
    case RunRemoveTx(c, _) => c in s.calls && s.calls[c].RemoveTx?
    case RunNamespaceTx(c, _) => c in s.calls && s.calls[c].NamespaceTx?
    case Deletes(c, _) => c in s.calls && (s.calls[c].BlobDelete? || s.calls[c].ManifestDelete?)
  }

  function Goto(s: State, c: nat, pc: Pc): State { s.(calls := s.calls[c := pc]) }

  function AfterPut(pc: Pc): Pc
    requires Putting(pc)
  {
    match pc
    case BlobPut(k, data, _) => BlobTx(k, |data|, true)
    case ManifestPut(k, m, body, now) => ManifestTx(k, m, |body|, now)
  }

  function AfterExists(pc: Pc): Pc
    requires Putting(pc)
  {
    match pc
    case BlobPut(k, _, kind) =>
      (match kind case Monolithic => BlobStat(k, true) case Mounted => BlobStat(k, false) case Chunked => Done)
    case ManifestPut(k, m, body, now) => ManifestTx(k, m, |body|, now)
  }

  function Apply(H: Hashes, s: State, t: Step): State
    requires Enabled(H, s, t)
  {
    match t
    case Start(c, pc) => Goto(s, c, pc)
    case PutFails(c) => Goto(s, c, Done)
    case PutStores(c) => Goto(s.(files := s.files[s.calls[c].k := PutData(s.calls[c])]), c, AfterPut(s.calls[c]))
    case PutExists(c) => Goto(s, c, AfterExists(s.calls[c]))
    case Stats(c, ok) =>
      var pc := s.calls[c];
      Goto(s, c, if ok && pc.k in s.files then BlobTx(pc.k, |s.files[pc.k]|, pc.compensate) else Done)
    case RunBlobTx(c, out) =>
      var pc := s.calls[c];
      var r := Exec(s.db, InsertNamespaceBlob(pc.k, pc.size));
      if out.Runs? && r.Ok? then Goto(s.(db := r.value), c, Done)
      // A cancelled context also stops the compensating DeleteBlob.
      else Goto(s, c, if pc.compensate && !out.ContextCancelled? then BlobDelete(pc.k) else Done)
    case RunManifestTx(c, out) =>
      var pc := s.calls[c];
      var r := ExecAll(s.db, StoreManifest(pc.k, pc.m, pc.size, pc.now));
      if out.Runs? && r.Ok? then Goto(s.(db := r.value), c, Done) else Goto(s, c, Done)
    case RunRemoveTx(c, out) =>
      var pc := s.calls[c];
      var r := ExecAll(s.db, RemoveManifest(pc.k));
      if out.Runs? && r.Ok? then Goto(s.(db := r.value), c, ManifestDelete(pc.k)) else Goto(s, c, Done)
    case RunNamespaceTx(c, out) =>
      var r := Exec(s.db, NamespaceStmt(s.calls[c]));
      if out.Runs? && r.Ok? then Goto(s.(db := r.value), c, Done) else Goto(s, c, Done)
    case Deletes(c, ok) => Goto(if ok then s.(files := s.files - {s.calls[c].k}) else s, c, Done)
  }

  // ---- What must hold between the stores ----

  // Each committed file hashes to its digest.
  ghost predicate FilesMatch(H: Hashes, files: map<Key, Bytes>)
  {
    forall k :: k in files ==> Matches(H, k.digest, files[k])
  }

  // Each active blob row outside `D` has a committed file of the row's size.
  ghost predicate BlobsAgree(D: iset<Key>, files: map<Key, Bytes>, db: Db)
  {
    forall k :: k in db.blobs && k !in D && db.blobs[k].lifecycle.Active? ==> k in files && |files[k]| == db.blobs[k].size
  }

  ghost predicate ManifestsAgree(files: map<Key, Bytes>, db: Db)
  {
    forall k :: k in db.manifests && db.manifests[k].lifecycle.Active? ==> k in files && |files[k]| == db.manifests[k].size
  }

  // Each active row has a committed file of the row's size that hashes to its digest.
  ghost predicate Agree(H: Hashes, files: map<Key, Bytes>, db: Db)
  {
    FilesMatch(H, files) && BlobsAgree(iset{}, files, db) && ManifestsAgree(files, db)
  }

  predicate ActiveRow(db: Db, k: Key)
  {
    || (k in db.blobs && db.blobs[k].lifecycle.Active?)
    || (k in db.manifests && db.manifests[k].lifecycle.Active?)
  }

  // ---- Runs ----

  ghost predicate Possible(H: Hashes, s: State, run: seq<Step>)
    decreases |run|
  {
    run == [] || (Enabled(H, s, run[0]) && Possible(H, Apply(H, s, run[0]), run[1..]))
  }

  function After(H: Hashes, s: State, run: seq<Step>): State
    requires Possible(H, s, run)
    decreases |run|
  {
    if run == [] then s else After(H, Apply(H, s, run[0]), run[1..])
  }

  // ---- The boundary is exact ----

  // What a step must not do: record an active row whose file is missing or has another
  // size, or remove the file of an active row.
  predicate Sound(H: Hashes, s: State, t: Step)
    requires Enabled(H, s, t)
  {
    match t
    case RunBlobTx(c, Runs) =>
      var pc := s.calls[c];
      var r := Exec(s.db, InsertNamespaceBlob(pc.k, pc.size));
      r.Ok? ==> pc.k in s.files && |s.files[pc.k]| == if pc.k in s.db.blobs then s.db.blobs[pc.k].size else pc.size
    case RunManifestTx(c, Runs) =>
      var pc := s.calls[c];
      var r := ExecAll(s.db, StoreManifest(pc.k, pc.m, pc.size, pc.now));
      r.Ok? && pc.k !in s.db.manifests ==> pc.k in s.files && |s.files[pc.k]| == pc.size
    case Deletes(c, true) => s.calls[c].k in s.files ==> !ActiveRow(s.db, s.calls[c].k)
    case _ => true
  }

  ghost predicate AgreesThroughout(H: Hashes, s: State, run: seq<Step>)
    requires Possible(H, s, run)
    decreases |run|
  {
    Agree(H, s.files, s.db) && (run == [] || AgreesThroughout(H, Apply(H, s, run[0]), run[1..]))
  }

  ghost predicate SoundThroughout(H: Hashes, s: State, run: seq<Step>)
    requires Possible(H, s, run)
    decreases |run|
  {
    run == [] || (Sound(H, s, run[0]) && SoundThroughout(H, Apply(H, s, run[0]), run[1..]))
  }

  // The compensating delete and the manifest's file removal, in any state that agreed.
  lemma RemovalAgreesExactly(H: Hashes, files: map<Key, Bytes>, db: Db, k: Key)
    requires Agree(H, files, db)
    ensures Agree(H, files - {k}, db) <==> (k in files ==> !ActiveRow(db, k))
  {
    var rest := files - {k};
    assert k !in rest;
    if ActiveRow(db, k) { assert k in files; }
  }

  lemma DeletesExactly(H: Hashes, s: State, t: Step)
    requires Agree(H, s.files, s.db) && Enabled(H, s, t) && t.Deletes?
    ensures var s' := Apply(H, s, t); Agree(H, s'.files, s'.db) <==> Sound(H, s, t)
  {
    RemovalAgreesExactly(H, s.files, s.db, s.calls[t.c].k);
  }

  lemma RunBlobTxExactly(H: Hashes, s: State, t: Step)
    requires Agree(H, s.files, s.db) && Enabled(H, s, t) && t.RunBlobTx?
    ensures var s' := Apply(H, s, t); Agree(H, s'.files, s'.db) <==> Sound(H, s, t)
  {
    var pc := s.calls[t.c];
    var r := Exec(s.db, InsertNamespaceBlob(pc.k, pc.size));
    if t.out.Runs? && r.Ok? {
      assert pc.k in r.value.blobs && r.value.blobs[pc.k].lifecycle.Active?;
    }
  }

  lemma RunManifestTxExactly(H: Hashes, s: State, t: Step)
    requires Agree(H, s.files, s.db) && Enabled(H, s, t) && t.RunManifestTx?
    ensures var s' := Apply(H, s, t); Agree(H, s'.files, s'.db) <==> Sound(H, s, t)
  {
    var pc := s.calls[t.c];
    var r := ExecAll(s.db, StoreManifest(pc.k, pc.m, pc.size, pc.now));
    if t.out.Runs? && r.Ok? {
      StoreEffect(s.db, pc.k, pc.m, pc.size, pc.now);
      assert pc.k in r.value.manifests;
    }
  }

  // No other transaction and no successful put can break the agreement.
  lemma OtherTxAgrees(H: Hashes, s: State, t: Step)
    requires Agree(H, s.files, s.db) && Enabled(H, s, t) && (t.RunRemoveTx? || t.RunNamespaceTx?)
    ensures var s' := Apply(H, s, t); Agree(H, s'.files, s'.db)
  {
    if t.RunRemoveTx? {
      RemoveEffect(s.db, s.calls[t.c].k);
    } else {
      var db := Apply(H, s, t).db;
      assert db.blobs == s.db.blobs && db.manifests == s.db.manifests;
    }
  }

  lemma PutStoresAgrees(H: Hashes, s: State, t: Step)
    requires Agree(H, s.files, s.db) && Enabled(H, s, t) && t.PutStores?
    ensures var s' := Apply(H, s, t); Agree(H, s'.files, s'.db)
  {
  }

  // A step of any call, benign or not, keeps two agreeing stores in agreement exactly
  // when it is sound; only recording a row and removing a file can be unsound.
  lemma StepAgreesExactly(H: Hashes, s: State, t: Step)
    requires Agree(H, s.files, s.db) && Enabled(H, s, t)
    ensures var s' := Apply(H, s, t); Agree(H, s'.files, s'.db) <==> Sound(H, s, t)
  {
    match t {
      case Deletes(_, _) => DeletesExactly(H, s, t);
      case RunBlobTx(_, _) => RunBlobTxExactly(H, s, t);
      case RunManifestTx(_, _) => RunManifestTxExactly(H, s, t);
      case RunRemoveTx(_, _) => OtherTxAgrees(H, s, t);
      case RunNamespaceTx(_, _) => OtherTxAgrees(H, s, t);
      case PutStores(_) => PutStoresAgrees(H, s, t);
      case _ => assert Apply(H, s, t).files == s.files && Apply(H, s, t).db == s.db;
    }
  }

  // Over a whole run: the stores agree after every step exactly when every step is sound.
  lemma {:induction false} AgreesThroughoutExactly(H: Hashes, s: State, run: seq<Step>)
    requires Agree(H, s.files, s.db) && Possible(H, s, run)
    ensures AgreesThroughout(H, s, run) <==> SoundThroughout(H, s, run)
    decreases |run|
  {
    if run != [] {
      StepAgreesExactly(H, s, run[0]);
      if Sound(H, s, run[0]) { AgreesThroughoutExactly(H, Apply(H, s, run[0]), run[1..]); }
    }
  }

  // ---- Manifest rows over whole runs ----

  lemma StepKeepsReferential(H: Hashes, s: State, t: Step)
    requires Enabled(H, s, t) && Referential(s.db)
    ensures Referential(Apply(H, s, t).db)
  {
    match t {
      case RunManifestTx(c, _) =>
        var pc := s.calls[c];
        if ExecAll(s.db, StoreManifest(pc.k, pc.m, pc.size, pc.now)).Ok? { StoreEffect(s.db, pc.k, pc.m, pc.size, pc.now); }
      case RunRemoveTx(c, _) => RemoveEffect(s.db, s.calls[c].k);
      case RunNamespaceTx(c, _) =>
        if Exec(s.db, NamespaceStmt(s.calls[c])).Ok? { NamespaceKeepsReferential(s.db, NamespaceStmt(s.calls[c])); }
      case _ =>
    }
  }

  lemma NamespaceKeepsReferential(db: Db, stmt: Stmt)
    requires Referential(db) && Exec(db, stmt).Ok? && (stmt.CreateNamespace? || stmt.DeleteNamespace?)
    ensures Referential(Exec(db, stmt).value)
  {
  }

  lemma StepKeepsRow(H: Hashes, s: State, t: Step, k: Key)
    requires Enabled(H, s, t) && k in s.db.manifests
    ensures var s' := Apply(H, s, t);
      && k in s'.db.manifests
      && s'.db.manifests[k].size == s.db.manifests[k].size && s'.db.manifests[k].mediaType == s.db.manifests[k].mediaType
      && (s.db.manifests[k].lifecycle.PendingDeletion? ==> s'.db.manifests[k].lifecycle.PendingDeletion?)
      && (s.db.manifests[k].lifecycle.Active? && !(t.RunRemoveTx? && s.calls[t.c].k == k) ==> s'.db.manifests[k].lifecycle.Active?)
  {
    match t {
      case RunManifestTx(c, _) =>
        var pc := s.calls[c];
        if ExecAll(s.db, StoreManifest(pc.k, pc.m, pc.size, pc.now)).Ok? { StoreEffect(s.db, pc.k, pc.m, pc.size, pc.now); }
      case RunRemoveTx(c, _) => RemoveEffect(s.db, s.calls[c].k);
      case _ =>
    }
  }

  // A recorded manifest keeps its row through every run: the row's size and media type
  // stay those of the first put, its namespace stays, and it never becomes active again.
  lemma {:induction false} RowsStay(H: Hashes, s: State, run: seq<Step>, k: Key)
    requires Referential(s.db) && Possible(H, s, run) && k in s.db.manifests
    ensures var s' := After(H, s, run);
      && Referential(s'.db) && k in s'.db.manifests && k.ns in s'.db.namespaces
      && s'.db.manifests[k].size == s.db.manifests[k].size && s'.db.manifests[k].mediaType == s.db.manifests[k].mediaType
      && (s.db.manifests[k].lifecycle.PendingDeletion? ==> s'.db.manifests[k].lifecycle.PendingDeletion?)
    decreases |run|
  {
    if run != [] {
      StepKeepsReferential(H, s, run[0]);
      StepKeepsRow(H, s, run[0], k);
      RowsStay(H, Apply(H, s, run[0]), run[1..], k);
    }
  }

  // No DeleteManifest of `k` runs its transaction.
  ghost predicate NeverRemoved(H: Hashes, s: State, run: seq<Step>, k: Key)
    requires Possible(H, s, run)
    decreases |run|
  {
    run == [] ||
    (!(run[0].RunRemoveTx? && s.calls[run[0].c].k == k) && NeverRemoved(H, Apply(H, s, run[0]), run[1..], k))
  }

  // Until then an active row stays as it is.
  lemma {:induction false} ActiveStays(H: Hashes, s: State, run: seq<Step>, k: Key)
    requires Possible(H, s, run) && NeverRemoved(H, s, run, k)
    requires k in s.db.manifests && s.db.manifests[k].lifecycle.Active?
    ensures k in After(H, s, run).db.manifests && After(H, s, run).db.manifests[k] == s.db.manifests[k]
    decreases |run|
  {
    if run != [] {
      StepKeepsRow(H, s, run[0], k);
      ActiveStays(H, Apply(H, s, run[0]), run[1..], k);
    }
  }

  // ---- Compensating deletes that are not sound ----

  ghost predicate Reaches(H: Hashes, run: seq<Step>, s: State)
  {
    Possible(H, INIT, run) && After(H, INIT, run) == s
  }

  lemma {:induction false} RunThen(H: Hashes, s: State, run: seq<Step>, t: Step)
    requires Possible(H, s, run) && Enabled(H, After(H, s, run), t)
    ensures Possible(H, s, run + [t]) && After(H, s, run + [t]) == Apply(H, After(H, s, run), t)
    decreases |run|
  {
    if run == [] {
      assert run + [t] == [t];
      assert [t][1..] == [];
    } else {
      assert (run + [t])[1..] == run[1..] + [t];
      RunThen(H, Apply(H, s, run[0]), run[1..], t);
    }
  }

  lemma Advance(H: Hashes, run: seq<Step>, s: State, t: Step, s': State)
    requires Reaches(H, run, s) && Enabled(H, s, t) && Apply(H, s, t) == s'
    ensures Reaches(H, run + [t], s')
  {
    RunThen(H, INIT, run, t);
  }

  lemma NamespaceChanges(H: Hashes, run: seq<Step>, s: State, c: nat, create: bool, ns: string) returns (run': seq<Step>, s': State)
    requires Reaches(H, run, s) && c !in s.calls && Exec(s.db, NamespaceStmt(NamespaceTx(create, ns))).Ok?
    ensures Reaches(H, run', s') && s'.db == Exec(s.db, NamespaceStmt(NamespaceTx(create, ns))).value
    ensures s'.files == s.files && s'.calls == s.calls[c := Done]
  {
    var s1 := Goto(s, c, NamespaceTx(create, ns));
    s' := Apply(H, s1, RunNamespaceTx(c, Runs));
    Advance(H, run, s, Start(c, NamespaceTx(create, ns)), s1);
    Advance(H, run + [Start(c, NamespaceTx(create, ns))], s1, RunNamespaceTx(c, Runs), s');
    run' := run + [Start(c, NamespaceTx(create, ns))] + [RunNamespaceTx(c, Runs)];
    assert s.calls[c := NamespaceTx(create, ns)][c := Done] == s.calls[c := Done];
  }

  lemma UploadStores(H: Hashes, run: seq<Step>, s: State, c: nat, k: Key, data: Bytes, kind: Kind) returns (run': seq<Step>, s': State)
    requires Reaches(H, run, s) && c !in s.calls && Validated(H, s, BlobPut(k, data, kind)) && Matches(H, k.digest, data) && k !in s.files
    ensures Reaches(H, run', s') && s'.db == s.db && s'.files == s.files[k := data] && s'.calls == s.calls[c := BlobTx(k, |data|, true)]
  {
    var pc := BlobPut(k, data, kind);
    var s1 := Goto(s, c, pc);
    s' := Apply(H, s1, PutStores(c));
    Advance(H, run, s, Start(c, pc), s1);
    Advance(H, run + [Start(c, pc)], s1, PutStores(c), s');
    run' := run + [Start(c, pc)] + [PutStores(c)];
    assert s.calls[c := pc][c := BlobTx(k, |data|, true)] == s.calls[c := BlobTx(k, |data|, true)];
  }

  lemma UploadRecords(H: Hashes, run: seq<Step>, s: State, c: nat, k: Key, data: Bytes) returns (run': seq<Step>, s': State)
    requires Reaches(H, run, s) && c !in s.calls && Validated(H, s, BlobPut(k, data, Monolithic)) && Matches(H, k.digest, data)
    requires k in s.files && s.files[k] == data
    ensures Reaches(H, run', s') && s'.files == s.files && s'.calls == s.calls[c := Done] && ActiveRow(s'.db, k)
  {
    var pc := BlobPut(k, data, Monolithic);
    var s1 := Goto(s, c, pc);
    var s2 := Apply(H, s1, PutExists(c));
    var s3 := Apply(H, s2, Stats(c, true));
    s' := Apply(H, s3, RunBlobTx(c, Runs));
    Advance(H, run, s, Start(c, pc), s1);
    Advance(H, run + [Start(c, pc)], s1, PutExists(c), s2);
    Advance(H, run + [Start(c, pc)] + [PutExists(c)], s2, Stats(c, true), s3);
    Advance(H, run + [Start(c, pc)] + [PutExists(c)] + [Stats(c, true)], s3, RunBlobTx(c, Runs), s');
    run' := run + [Start(c, pc)] + [PutExists(c)] + [Stats(c, true)] + [RunBlobTx(c, Runs)];
    assert s'.calls == s.calls[c := Done];
  }

  // An upload finds its namespace deleted when it records its file, and compensates.
  lemma UploadIsOvertaken(H: Hashes, ns: string, d: Digest, data: Bytes) returns (run: seq<Step>, s: State)
    requires ValidDigest(d) && Matches(H, d, data)
    ensures Reaches(H, run, s) && s.files == map[Key(ns, d) := data] && s.db == EMPTY_DB
    ensures s.calls == map[0 := Done, 1 := BlobDelete(Key(ns, d)), 2 := Done]
  {
    var k := Key(ns, d);
    run, s := NamespaceChanges(H, [], INIT, 0, true, ns);
    run, s := UploadStores(H, run, s, 1, k, data, Monolithic);
    run, s := NamespaceChanges(H, run, s, 2, false, ns);
    assert {} + {ns} - {ns} == {};
    var failed := Apply(H, s, RunBlobTx(1, Runs));
    Advance(H, run, s, RunBlobTx(1, Runs), failed);
    run, s := run + [RunBlobTx(1, Runs)], failed;
  }

  // If the namespace is created again and the blob uploaded again before that compensating
  // delete runs, it takes the file of the new row.  No store fails anywhere in this run.
  lemma RecreationBreaksAgreement(H: Hashes, ns: string, d: Digest, data: Bytes) returns (run: seq<Step>, s: State)
    requires ValidDigest(d) && Matches(H, d, data)
    ensures Reaches(H, run, s) && !Agree(H, s.files, s.db)
  {
    var k := Key(ns, d);
    run, s := UploadIsOvertaken(H, ns, d, data);
    run, s := NamespaceChanges(H, run, s, 3, true, ns);
    run, s := UploadRecords(H, run, s, 4, k, data);
    var deleted := Apply(H, s, Deletes(1, true));
    Advance(H, run, s, Deletes(1, true), deleted);
    RemovedRow(H, s, k);
    run, s := run + [Deletes(1, true)], deleted;
  }

  lemma RemovedRow(H: Hashes, s: State, k: Key)
    requires ActiveRow(s.db, k)
    ensures !Agree(H, s.files - {k}, s.db)
  {
    assert k !in s.files - {k};
  }

  // The compensation of a mount, or of any upload, that did store its file is not sound
  // either: an upload that found the file meanwhile has recorded it.
  lemma CompensationBreaksAgreement(H: Hashes, ns: string, d: Digest, data: Bytes, kind: Kind) returns (run: seq<Step>, s: State)
    requires ValidDigest(d) && Matches(H, d, data)
    ensures Reaches(H, run, s) && !Agree(H, s.files, s.db)
  {
    var k := Key(ns, d);
    run, s := NamespaceChanges(H, [], INIT, 0, true, ns);
    run, s := UploadStores(H, run, s, 1, k, data, kind);
    run, s := UploadRecords(H, run, s, 2, k, data);
    var failed := Apply(H, s, RunBlobTx(1, DatabaseFails));
    Advance(H, run, s, RunBlobTx(1, DatabaseFails), failed);
    var deleted := Apply(H, failed, Deletes(1, true));
    Advance(H, run + [RunBlobTx(1, DatabaseFails)], failed, Deletes(1, true), deleted);
    RemovedRow(H, failed, k);
    run, s := run + [RunBlobTx(1, DatabaseFails)] + [Deletes(1, true)], deleted;
  }
}

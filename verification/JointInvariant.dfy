// Over all interleavings of service calls the two stores agree, as long as compensating
// deletes are kept off blobs that another call relies on.
module JointInvariant {
  import opened Basics
  import opened Digests
  import opened FileSystem
  import opened Metastore
  import opened Manifests
  import opened JointStores

  // ---- The boundary of the theorem ----

  // The call is about to record the digest of a file it put or found.
  predicate Recording(pc: Pc, k: Key) { (pc.BlobTx? || pc.ManifestTx?) && pc.k == k }

  // A compensating delete that goes through finds no active row for its file and, while the
  // namespace exists, no other call that is about to record it; and a namespace comes
  // (back) only if no call is about to record in it a file that is gone.
  ghost predicate QuietStep(s: State, t: Step)
  {
    match t
    case Deletes(c, true) =>
      c in s.calls && s.calls[c].BlobDelete? ==>
        var k := s.calls[c].k;
        !ActiveRow(s.db, k) && (k.ns in s.db.namespaces ==> forall a :: a in s.calls ==> !Recording(s.calls[a], k))
    case RunNamespaceTx(c, Runs) =>
      c in s.calls && s.calls[c].NamespaceTx? && s.calls[c].create ==>
        forall a, k :: a in s.calls && Recording(s.calls[a], k) && k.ns == s.calls[c].ns ==> k in s.files
    case _ => true
  }

  ghost predicate Quiet(H: Hashes, s: State, run: seq<Step>)
    requires Possible(H, s, run)
    decreases |run|
  {
    run == [] || (QuietStep(s, run[0]) && Quiet(H, Apply(H, s, run[0]), run[1..]))
  }

  // ---- The invariant ----

  // `U` holds the byte strings offered.
  predicate Offers(U: iset<Bytes>, t: Step)
  {
    match t
    case Start(_, BlobPut(_, data, _)) => data in U
    case Start(_, ManifestPut(_, _, body, _)) => body in U
    case _ => true
  }

  // DeleteManifest is called with keys of `D` only.
  predicate Fits(D: iset<Key>, U: iset<Bytes>, t: Step)
  {
    Offers(U, t) && (t.Start? && t.pc.RemoveTx? ==> t.pc.k in D)
  }

  ghost predicate AllFit(D: iset<Key>, U: iset<Bytes>, run: seq<Step>) { forall t :: t in run ==> Fits(D, U, t) }

  // The size of bytes offered for the digest.
  ghost predicate Sized(H: Hashes, U: iset<Bytes>, k: Key, size: int)
  {
    exists v :: v in U && Matches(H, k.digest, v) && |v| == size
  }

  ghost predicate CallOk(H: Hashes, D: iset<Key>, U: iset<Bytes>, s: State, pc: Pc)
  {
    match pc
    case BlobPut(_, data, _) => data in U
    case BlobTx(k, size, _) => Sized(H, U, k, size) && (k !in D && k.ns in s.db.namespaces ==> k in s.files)
    case ManifestPut(k, _, body, _) => body in U
    case ManifestTx(k, _, size, _) => Sized(H, U, k, size) && (k.ns in s.db.namespaces && k !in s.db.manifests ==> k in s.files)
    case RemoveTx(k) => k in D
    case ManifestDelete(k) => k in D && k in s.db.manifests && s.db.manifests[k].lifecycle.PendingDeletion?
    case _ => true
  }

  ghost predicate StoresOk(H: Hashes, D: iset<Key>, U: iset<Bytes>, s: State)
  {
    && FilesMatch(H, s.files) && BlobsAgree(D, s.files, s.db) && ManifestsAgree(s.files, s.db)
    && Referential(s.db)
    && (forall k :: k in s.files ==> s.files[k] in U)
    && (forall k :: k in s.db.blobs ==> s.db.blobs[k].lifecycle.Active?)
  }

  ghost predicate Inv(H: Hashes, D: iset<Key>, U: iset<Bytes>, s: State)
  {
    StoresOk(H, D, U, s) && forall c :: c in s.calls ==> CallOk(H, D, U, s, s.calls[c])
  }

  // ---- Every step keeps the invariant ----

  // What a step must leave a call that relies on it.
  ghost predicate Spares(D: iset<Key>, s: State, s': State, pc: Pc)
  {
    && (forall k :: k in s.db.manifests ==>
          k in s'.db.manifests && (s.db.manifests[k].lifecycle.PendingDeletion? ==> s'.db.manifests[k].lifecycle.PendingDeletion?))
    && (pc.BlobTx? && pc.k !in D && pc.k.ns in s'.db.namespaces && pc.k !in s'.files ==>
          pc.k.ns in s.db.namespaces && pc.k !in s.files)
    && (pc.ManifestTx? && pc.k.ns in s'.db.namespaces && pc.k !in s'.db.manifests && pc.k !in s'.files ==>
          pc.k.ns in s.db.namespaces && pc.k !in s.files)
  }

  lemma CallsKeep(H: Hashes, D: iset<Key>, U: iset<Bytes>, s: State, s': State, c: nat, pc: Pc)
    requires Inv(H, D, U, s) && s'.calls == s.calls[c := pc] && CallOk(H, D, U, s', pc)
    requires forall x :: x in s.calls && x != c ==> Spares(D, s, s', s.calls[x])
    ensures forall x :: x in s'.calls ==> CallOk(H, D, U, s', s'.calls[x])
  {
  }

  // The files under a digest all have the size of what was offered for it.
  lemma SizedFile(H: Hashes, U: iset<Bytes>, s: State, k: Key, size: int)
    requires CollisionFree(H, U) && Sized(H, U, k, size) && k in s.files && s.files[k] in U && Matches(H, k.digest, s.files[k])
    ensures |s.files[k]| == size
  {
  }

  lemma KeepStart(H: Hashes, D: iset<Key>, U: iset<Bytes>, s: State, t: Step)
    requires CollisionFree(H, U) && Inv(H, D, U, s) && Enabled(H, s, t) && Fits(D, U, t) && QuietStep(s, t) && t.Start?
    ensures Inv(H, D, U, Apply(H, s, t))
  {
  }

  lemma KeepPutFails(H: Hashes, D: iset<Key>, U: iset<Bytes>, s: State, t: Step)
    requires CollisionFree(H, U) && Inv(H, D, U, s) && Enabled(H, s, t) && Fits(D, U, t) && QuietStep(s, t) && t.PutFails?
    ensures Inv(H, D, U, Apply(H, s, t))
  {
  }

  lemma FileAgrees(H: Hashes, D: iset<Key>, U: iset<Bytes>, s: State, k: Key, data: Bytes)
    requires StoresOk(H, D, U, s) && k !in s.files && Matches(H, k.digest, data) && data in U
    ensures StoresOk(H, D, U, s.(files := s.files[k := data]))
  {
  }

  lemma KeepPutStores(H: Hashes, D: iset<Key>, U: iset<Bytes>, s: State, t: Step)
    requires CollisionFree(H, U) && Inv(H, D, U, s) && Enabled(H, s, t) && Fits(D, U, t) && QuietStep(s, t) && t.PutStores?
    ensures Inv(H, D, U, Apply(H, s, t))
  {
    var s' := Apply(H, s, t);
    var k, data := s.calls[t.c].k, PutData(s.calls[t.c]);
    assert CallOk(H, D, U, s, s.calls[t.c]);
    assert Sized(H, U, k, |data|);
    FileAgrees(H, D, U, s, k, data);
    assert StoresOk(H, D, U, s') by { assert s'.files == s.files[k := data] && s'.db == s.db; }
    CallsKeep(H, D, U, s, s', t.c, s'.calls[t.c]);
  }

  lemma KeepPutExists(H: Hashes, D: iset<Key>, U: iset<Bytes>, s: State, t: Step)
    requires CollisionFree(H, U) && Inv(H, D, U, s) && Enabled(H, s, t) && Fits(D, U, t) && QuietStep(s, t) && t.PutExists?
    ensures Inv(H, D, U, Apply(H, s, t))
  {
  }

  lemma KeepStats(H: Hashes, D: iset<Key>, U: iset<Bytes>, s: State, t: Step)
    requires CollisionFree(H, U) && Inv(H, D, U, s) && Enabled(H, s, t) && Fits(D, U, t) && QuietStep(s, t) && t.Stats?
    ensures Inv(H, D, U, Apply(H, s, t))
  {
  }

  // Recording, or resurrecting, the row of a committed file of its size.
  lemma BlobRowAgrees(H: Hashes, D: iset<Key>, U: iset<Bytes>, s: State, k: Key, row: BlobRow, db: Db)
    requires StoresOk(H, D, U, s) && k.ns in s.db.namespaces && row.lifecycle.Active?
    requires k !in D ==> k in s.files && |s.files[k]| == row.size
    requires db == s.db.(blobs := s.db.blobs[k := row])
    ensures StoresOk(H, D, U, s.(db := db))
  {
  }

  // The committed transaction that records a blob.
  lemma BlobCommits(H: Hashes, D: iset<Key>, U: iset<Bytes>, s: State, pc: Pc, s': State)
    requires CollisionFree(H, U) && StoresOk(H, D, U, s) && CallOk(H, D, U, s, pc) && pc.BlobTx?
    requires Exec(s.db, InsertNamespaceBlob(pc.k, pc.size)).Ok?
    requires s' == s.(db := Exec(s.db, InsertNamespaceBlob(pc.k, pc.size)).value)
    ensures StoresOk(H, D, U, s')
    ensures s'.db.namespaces == s.db.namespaces && s'.db.manifests == s.db.manifests
  {
    if pc.k in s.files { SizedFile(H, U, s, pc.k, pc.size); }
    BlobRowAgrees(H, D, U, s, pc.k, s'.db.blobs[pc.k], s'.db);
  }

  lemma KeepRunBlobTx(H: Hashes, D: iset<Key>, U: iset<Bytes>, s: State, t: Step)
    requires CollisionFree(H, U) && Inv(H, D, U, s) && Enabled(H, s, t) && Fits(D, U, t) && QuietStep(s, t) && t.RunBlobTx?
    ensures Inv(H, D, U, Apply(H, s, t))
  {
    var s', pc := Apply(H, s, t), s.calls[t.c];
    assert CallOk(H, D, U, s, pc);
    if t.out.Runs? && Exec(s.db, InsertNamespaceBlob(pc.k, pc.size)).Ok? {
      BlobCommits(H, D, U, s, pc, s'.(calls := s.calls));
    }
    CallsKeep(H, D, U, s, s', t.c, s'.calls[t.c]);
  }

  // Adding an active manifest row for a committed file of its size.
  lemma ManifestRowAgrees(H: Hashes, D: iset<Key>, U: iset<Bytes>, s: State, k: Key, row: ManifestRow, db: Db)
    requires StoresOk(H, D, U, s) && k.ns in s.db.namespaces
    requires k !in s.db.manifests ==> k in s.files && |s.files[k]| == row.size
    requires db.namespaces == s.db.namespaces && db.blobs == s.db.blobs && db.referrers.Keys <= s.db.referrers.Keys + {k}
    requires db.manifests == if k in s.db.manifests then s.db.manifests else s.db.manifests[k := row]
    ensures StoresOk(H, D, U, s.(db := db))
  {
  }

  // The committed transaction of PutManifest.
  lemma PutCommits(H: Hashes, D: iset<Key>, U: iset<Bytes>, s: State, k: Key, m: Manifest, size: int, now: int)
    requires StoresOk(H, D, U, s) && (k.ns in s.db.namespaces && k !in s.db.manifests ==> k in s.files && |s.files[k]| == size)
    ensures var r := ExecAll(s.db, StoreManifest(k, m, size, now));
      r.Ok? ==>
        && StoresOk(H, D, U, s.(db := r.value)) && r.value.namespaces == s.db.namespaces
        && forall x :: x in s.db.manifests ==> x in r.value.manifests && r.value.manifests[x] == s.db.manifests[x]
  {
    var r := ExecAll(s.db, StoreManifest(k, m, size, now));
    if r.Ok? {
      StoreEffect(s.db, k, m, size, now);
      ManifestRowAgrees(H, D, U, s, k, ManifestRow(m.mediaType, size, Active), r.value);
    }
  }

  lemma KeepRunManifestTx(H: Hashes, D: iset<Key>, U: iset<Bytes>, s: State, t: Step)
    requires CollisionFree(H, U) && Inv(H, D, U, s) && Enabled(H, s, t) && Fits(D, U, t) && QuietStep(s, t) && t.RunManifestTx?
    ensures Inv(H, D, U, Apply(H, s, t))
  {
    var s', pc := Apply(H, s, t), s.calls[t.c];
    assert CallOk(H, D, U, s, pc);
    if t.out.Runs? && ExecAll(s.db, StoreManifest(pc.k, pc.m, pc.size, pc.now)).Ok? {
      if pc.k in s.files { SizedFile(H, U, s, pc.k, pc.size); }
      PutCommits(H, D, U, s, pc.k, pc.m, pc.size, pc.now);
    }
  }

  // The committed transaction of DeleteManifest.
  lemma RemoveCommits(H: Hashes, D: iset<Key>, U: iset<Bytes>, s: State, k: Key, s': State)
    requires StoresOk(H, D, U, s) && ExecAll(s.db, RemoveManifest(k)).Ok?
    requires s' == s.(db := ExecAll(s.db, RemoveManifest(k)).value)
    ensures StoresOk(H, D, U, s')
    ensures s'.db.namespaces == s.db.namespaces && s'.db.manifests.Keys == s.db.manifests.Keys
    ensures k in s'.db.manifests && s'.db.manifests[k].lifecycle.PendingDeletion?
    ensures forall x :: x in s.db.manifests && x != k ==> s'.db.manifests[x] == s.db.manifests[x]
  {
    RemoveEffect(s.db, k);
    assert s'.db.blobs == s.db.blobs && s'.files == s.files;
  }

  lemma KeepRunRemoveTx(H: Hashes, D: iset<Key>, U: iset<Bytes>, s: State, t: Step)
    requires CollisionFree(H, U) && Inv(H, D, U, s) && Enabled(H, s, t) && Fits(D, U, t) && QuietStep(s, t) && t.RunRemoveTx?
    ensures Inv(H, D, U, Apply(H, s, t))
  {
    var s', k := Apply(H, s, t), s.calls[t.c].k;
    assert CallOk(H, D, U, s, s.calls[t.c]);
    if t.out.Runs? && ExecAll(s.db, RemoveManifest(k)).Ok? {
      RemoveCommits(H, D, U, s, k, s'.(calls := s.calls));
    }
    CallsKeep(H, D, U, s, s', t.c, s'.calls[t.c]);
  }

  lemma KeepRunNamespaceTx(H: Hashes, D: iset<Key>, U: iset<Bytes>, s: State, t: Step)
    requires CollisionFree(H, U) && Inv(H, D, U, s) && Enabled(H, s, t) && Fits(D, U, t) && QuietStep(s, t) && t.RunNamespaceTx?
    ensures Inv(H, D, U, Apply(H, s, t))
  {
    var s' := Apply(H, s, t);
    forall x | x in s.calls && x != t.c ensures Spares(D, s, s', s.calls[x]) {
      var pc := s.calls[x];
      if pc.BlobTx? || pc.ManifestTx? { assert Recording(pc, pc.k); }
    }
    CallsKeep(H, D, U, s, s', t.c, s'.calls[t.c]);
  }

  lemma RemovalAgrees(H: Hashes, D: iset<Key>, U: iset<Bytes>, s: State, k: Key)
    requires StoresOk(H, D, U, s)
    requires k in s.db.manifests ==> !s.db.manifests[k].lifecycle.Active?
    requires k !in D && k in s.db.blobs ==> !s.db.blobs[k].lifecycle.Active?
    ensures StoresOk(H, D, U, s.(files := s.files - {k}))
  {
  }

  lemma BlobDeleteKeeps(H: Hashes, D: iset<Key>, U: iset<Bytes>, s: State, c: nat)
    requires Inv(H, D, U, s) && c in s.calls && s.calls[c].BlobDelete? && QuietStep(s, Deletes(c, true))
    ensures Inv(H, D, U, Goto(s.(files := s.files - {s.calls[c].k}), c, Done))
  {
    var k := s.calls[c].k;
    var s' := Goto(s.(files := s.files - {k}), c, Done);
    RemovalAgrees(H, D, U, s, k);
    forall x | x in s.calls && x != c ensures Spares(D, s, s', s.calls[x]) {
      var pc := s.calls[x];
      if (pc.BlobTx? || pc.ManifestTx?) && pc.k == k { assert Recording(pc, k); }
    }
    CallsKeep(H, D, U, s, s', c, Done);
  }

  lemma ManifestDeleteKeeps(H: Hashes, D: iset<Key>, U: iset<Bytes>, s: State, c: nat)
    requires Inv(H, D, U, s) && c in s.calls && s.calls[c].ManifestDelete?
    ensures Inv(H, D, U, Goto(s.(files := s.files - {s.calls[c].k}), c, Done))
  {
    assert CallOk(H, D, U, s, s.calls[c]);
    RemovalAgrees(H, D, U, s, s.calls[c].k);
    CallsKeep(H, D, U, s, Goto(s.(files := s.files - {s.calls[c].k}), c, Done), c, Done);
  }

  lemma KeepDeletes(H: Hashes, D: iset<Key>, U: iset<Bytes>, s: State, t: Step)
    requires CollisionFree(H, U) && Inv(H, D, U, s) && Enabled(H, s, t) && Fits(D, U, t) && QuietStep(s, t) && t.Deletes?
    ensures Inv(H, D, U, Apply(H, s, t))
  {
    if t.ok {
      if s.calls[t.c].BlobDelete? { BlobDeleteKeeps(H, D, U, s, t.c); } else { ManifestDeleteKeeps(H, D, U, s, t.c); }
    }
  }

  lemma StepKeepsInv(H: Hashes, D: iset<Key>, U: iset<Bytes>, s: State, t: Step)
    requires CollisionFree(H, U) && Inv(H, D, U, s) && Enabled(H, s, t) && Fits(D, U, t) && QuietStep(s, t)
    ensures Inv(H, D, U, Apply(H, s, t))
  {
    match t {
      case Start(_, _) => KeepStart(H, D, U, s, t);
      case PutFails(_) => KeepPutFails(H, D, U, s, t);
      case PutStores(_) => KeepPutStores(H, D, U, s, t);
      case PutExists(_) => KeepPutExists(H, D, U, s, t);
      case Stats(_, _) => KeepStats(H, D, U, s, t);
      case RunBlobTx(_, _) => KeepRunBlobTx(H, D, U, s, t);
      case RunManifestTx(_, _) => KeepRunManifestTx(H, D, U, s, t);
      case RunRemoveTx(_, _) => KeepRunRemoveTx(H, D, U, s, t);
      case RunNamespaceTx(_, _) => KeepRunNamespaceTx(H, D, U, s, t);
      case Deletes(_, _) => KeepDeletes(H, D, U, s, t);
    }
  }

  lemma {:induction false} RunKeepsInv(H: Hashes, D: iset<Key>, U: iset<Bytes>, s: State, run: seq<Step>)
    requires CollisionFree(H, U) && Inv(H, D, U, s) && Possible(H, s, run) && Quiet(H, s, run) && AllFit(D, U, run)
    ensures Inv(H, D, U, After(H, s, run))
    decreases |run|
  {
    if run != [] {
      assert run[0] in run;
      StepKeepsInv(H, D, U, s, run[0]);
      RunKeepsInv(H, D, U, Apply(H, s, run[0]), run[1..]);
    }
  }

  // ---- The theorems ----

  // The keys that some DeleteManifest of the run names.
  function RemovedKeys(run: seq<Step>): set<Key> { set t | t in run && t.Start? && t.pc.RemoveTx? :: t.pc.k }

  ghost function Removed(run: seq<Step>): iset<Key> { iset k | k in RemovedKeys(run) }

  // What holds after every run: rows reference existing namespaces, committed files hash to
  // their digests, every active manifest row has a file of exactly its size, and so has
  // every active blob row but those of digests that some DeleteManifest named.
  ghost predicate Agreed(H: Hashes, run: seq<Step>, s: State)
  {
    && Referential(s.db) && FilesMatch(H, s.files) && ManifestsAgree(s.files, s.db) && BlobsAgree(Removed(run), s.files, s.db)
    && (RemovedKeys(run) == {} ==> Agree(H, s.files, s.db))
  }

  // After every interleaving of service calls, whatever fails and whatever namespaces are
  // deleted and created again, as long as compensating deletes are quiet.
  lemma JointAgreement(H: Hashes, U: iset<Bytes>, run: seq<Step>)
    requires CollisionFree(H, U) && (forall t :: t in run ==> Offers(U, t))
    requires Possible(H, INIT, run) && Quiet(H, INIT, run)
    ensures Agreed(H, run, After(H, INIT, run))
  {
    RunKeepsInv(H, Removed(run), U, INIT, run);
    assert RemovedKeys(run) == {} ==> Removed(run) == iset{};
  }

  // ---- A boundary on events alone ----

  // The call has a file put or found and not yet recorded, or is to delete it again.
  predicate InFlight(pc: Pc, ns: string) { (pc.BlobTx? || pc.BlobDelete? || pc.ManifestTx?) && pc.k.ns == ns }

  // The database does not fail in a transaction that would be compensated, and no namespace
  // is created while a call validated against it before is in flight.
  ghost predicate OrderlyStep(s: State, t: Step)
  {
    match t
    case RunBlobTx(c, DatabaseFails) => c in s.calls && s.calls[c].BlobTx? ==> !s.calls[c].compensate
    case RunNamespaceTx(c, _) =>
      c in s.calls && s.calls[c].NamespaceTx? && s.calls[c].create ==>
        forall a :: a in s.calls ==> !InFlight(s.calls[a], s.calls[c].ns)
    case _ => true
  }

  ghost predicate Orderly(H: Hashes, s: State, run: seq<Step>)
    requires Possible(H, s, run)
    decreases |run|
  {
    run == [] || (OrderlyStep(s, run[0]) && Orderly(H, Apply(H, s, run[0]), run[1..]))
  }

  // A compensating delete is under way only in a namespace that is gone.
  ghost predicate DeletesInGone(s: State)
  {
    forall a :: a in s.calls && s.calls[a].BlobDelete? ==> s.calls[a].k.ns !in s.db.namespaces
  }

  lemma NamespacesChange(H: Hashes, s: State, t: Step)
    requires Enabled(H, s, t) && !t.RunNamespaceTx?
    ensures Apply(H, s, t).db.namespaces == s.db.namespaces
  {
    match t {
      case RunManifestTx(c, _) =>
        var pc := s.calls[c];
        if ExecAll(s.db, StoreManifest(pc.k, pc.m, pc.size, pc.now)).Ok? { StoreEffect(s.db, pc.k, pc.m, pc.size, pc.now); }
      case RunRemoveTx(c, _) => RemoveEffect(s.db, s.calls[c].k);
      case _ =>
    }
  }

  lemma OrderlyKeepsDeletes(H: Hashes, s: State, t: Step)
    requires DeletesInGone(s) && Enabled(H, s, t) && OrderlyStep(s, t)
    ensures DeletesInGone(Apply(H, s, t))
  {
    if t.RunNamespaceTx? {
      forall a | a in s.calls && s.calls[a].BlobDelete? ensures s.calls[a].k.ns !in Apply(H, s, t).db.namespaces {
        assert s.calls[t.c].create ==> !InFlight(s.calls[a], s.calls[t.c].ns);
      }
    } else {
      NamespacesChange(H, s, t);
    }
  }

  lemma {:induction false} OrderlyRunIsQuiet(H: Hashes, s: State, run: seq<Step>)
    requires Referential(s.db) && DeletesInGone(s) && Possible(H, s, run) && Orderly(H, s, run)
    ensures Quiet(H, s, run)
    decreases |run|
  {
    if run != [] {
      OrderlyKeepsDeletes(H, s, run[0]);
      StepKeepsReferential(H, s, run[0]);
      OrderlyRunIsQuiet(H, Apply(H, s, run[0]), run[1..]);
    }
  }

  // The same agreement after every orderly run.
  lemma OrderlyAgreement(H: Hashes, U: iset<Bytes>, run: seq<Step>)
    requires CollisionFree(H, U) && (forall t :: t in run ==> Offers(U, t))
    requires Possible(H, INIT, run) && Orderly(H, INIT, run)
    ensures Agreed(H, run, After(H, INIT, run))
  {
    OrderlyRunIsQuiet(H, INIT, run);
    JointAgreement(H, U, run);
  }

  // ---- Put, then get ----

  // No DeleteManifest of a key is under way when none was ever started.
  lemma {:induction false} NeverRemovedFrom(H: Hashes, D: iset<Key>, U: iset<Bytes>, s: State, run: seq<Step>, k: Key)
    requires CollisionFree(H, U) && Inv(H, D, U, s) && Possible(H, s, run) && Quiet(H, s, run) && AllFit(D, U, run) && k !in D
    ensures NeverRemoved(H, s, run, k)
    decreases |run|
  {
    if run != [] {
      assert run[0] in run;
      if run[0].RunRemoveTx? { assert CallOk(H, D, U, s, s.calls[run[0].c]); }
      StepKeepsInv(H, D, U, s, run[0]);
      NeverRemovedFrom(H, D, U, Apply(H, s, run[0]), run[1..], k);
    }
  }

  // The committed first put of a manifest.
  predicate FirstPut(s: State, c: nat, m: Manifest, k: Key)
  {
    && c in s.calls && s.calls[c].ManifestTx? && s.calls[c].k == k && s.calls[c].m == m && k !in s.db.manifests
    && ExecAll(s.db, StoreManifest(k, m, s.calls[c].size, s.calls[c].now)).Ok?
  }

  lemma SizeOfBody(H: Hashes, U: iset<Bytes>, k: Key, size: int, body: Bytes)
    requires CollisionFree(H, U) && Sized(H, U, k, size) && body in U && k.digest == ManifestDigest(H, body)
    ensures size == |body|
  {
    ManifestMatches(H, body);
    var v :| v in U && Matches(H, k.digest, v) && |v| == size;
    assert Sum(H, Algorithm(k.digest), v) == Sum(H, Algorithm(k.digest), body);
  }

  lemma FirstPutInserts(H: Hashes, s: State, c: nat, m: Manifest, k: Key)
    requires FirstPut(s, c, m, k)
    ensures var s' := Apply(H, s, RunManifestTx(c, Runs));
      k in s'.db.manifests && s'.db.manifests[k] == ManifestRow(m.mediaType, s.calls[c].size, Active)
  {
    var pc := s.calls[c];
    StoreEffect(s.db, k, m, pc.size, pc.now);
  }

  // In every history that never deletes it, a manifest reads back as it was first put:
  // the exact body, the first media type and the body's own size, whatever else ran before
  // and after, other puts of it included.
  lemma PutThenGet(
      H: Hashes, U: iset<Bytes>, before: seq<Step>, after: seq<Step>, c: nat, m: Manifest, ns: string, body: Bytes)
    requires CollisionFree(H, U) && (forall t :: t in before + after ==> Offers(U, t)) && body in U
    requires Possible(H, INIT, before) && Quiet(H, INIT, before)
    requires var k, s := Key(ns, ManifestDigest(H, body)), After(H, INIT, before);
      && FirstPut(s, c, m, k) && k !in RemovedKeys(before + after)
      && var s1 := Apply(H, s, RunManifestTx(c, Runs));
      && Possible(H, s1, after) && Quiet(H, s1, after)
    ensures var k, s' := Key(ns, ManifestDigest(H, body)), After(H, Apply(H, After(H, INIT, before), RunManifestTx(c, Runs)), after);
      && k in s'.db.manifests && s'.db.manifests[k] == ManifestRow(m.mediaType, |body|, Active)
      && k in s'.files && s'.files[k] == body
  {
    var D, k := Removed(before + after), Key(ns, ManifestDigest(H, body));
    assert AllFit(D, U, before) && AllFit(D, U, after);
    RunKeepsInv(H, D, U, INIT, before);
    var s := After(H, INIT, before);
    var s1 := Apply(H, s, RunManifestTx(c, Runs));
    assert CallOk(H, D, U, s, s.calls[c]);
    FirstPutInserts(H, s, c, m, k);
    SizeOfBody(H, U, k, s.calls[c].size, body);
    StepKeepsInv(H, D, U, s, RunManifestTx(c, Runs));
    NeverRemovedFrom(H, D, U, s1, after, k);
    ActiveStays(H, s1, after, k);
    RunKeepsInv(H, D, U, s1, after);
    HoldsBody(H, U, After(H, s1, after), k, body);
  }

  lemma HoldsBody(H: Hashes, U: iset<Bytes>, s: State, k: Key, body: Bytes)
    requires CollisionFree(H, U) && body in U && k.digest == ManifestDigest(H, body)
    requires k in s.files && s.files[k] in U && Matches(H, k.digest, s.files[k])
    ensures s.files[k] == body
  {
    ManifestMatches(H, body);
    assert Sum(H, Algorithm(k.digest), s.files[k]) == Sum(H, Algorithm(k.digest), body);
  }
}

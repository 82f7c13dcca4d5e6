// The service calls of module Services are runs of module JointStores: each call, with
// whatever its environment lets succeed, changes the two stores only by those steps.
module ServiceRuns {
  import opened Basics
  import opened Digests
  import opened FileSystem
  import opened NameGrammar
  import opened Metastore
  import opened Manifests
  import Blobs = BlobStoreSpec
  import opened BlobStoreSpec
  import Services
  import J = JointStores

  ghost predicate Shows(w: Services.World, s: J.State)
  {
    WellFormed(w.fs) && s.files == CommittedFiles(w.fs) && s.db == w.db
  }

  ghost predicate Leads(H: Hashes, s: J.State, run: seq<J.Step>, s': J.State)
  {
    J.Possible(H, s, run) && J.After(H, s, run) == s'
  }

  // How a one-statement transaction ends.
  function EndOf(db: Db, stmt: Stmt, env: TxEnv): TxResult
  {
    if !env.begins then RolledBack(Broken)
    else if 0 in env.faults then
      match env.faults[0] case Panic => Panicked case Cancel => RolledBack(DbError.Cancelled) case Break => RolledBack(Broken)
    else match Exec(db, stmt)
      case Err(e) => RolledBack(e)
      case Ok(_) => if env.commits then TxResult.Committed else RolledBack(Broken)
  }

  lemma TransactOne(db: Db, stmt: Stmt, env: TxEnv)
    ensures Transact(db, [stmt], env).1 == EndOf(db, stmt, env)
    ensures EndOf(db, stmt, env).Committed? ==> Exec(db, stmt) == Ok(Transact(db, [stmt], env).0)
    ensures !EndOf(db, stmt, env).Committed? ==> Transact(db, [stmt], env).0 == db
  {
    if env.begins && 0 !in env.faults && Exec(db, stmt).Ok? {
      var db' := Exec(db, stmt).value;
      assert RunFrom(db', [stmt], 1, env.faults) == (db', TxResult.Committed);
    }
  }

  // What the transaction's end is to the other calls: whether it ran, or else whether
  // the compensating delete still has a live context.  A panic skips the compensation
  // just as a cancelled context does.
  function OutcomeOf(db: Db, stmt: Stmt, env: Services.CallEnv): J.Outcome
  {
    if env.tx.begins && 0 !in env.tx.faults && (env.tx.commits || Exec(db, stmt).Err?) then J.Runs
    else if env.blob.live && !EndOf(db, stmt, env.tx).Panicked? then J.DatabaseFails
    else J.ContextCancelled
  }

  // Whether DeleteBlob removes the file, if there is one.
  predicate Removes(env: Env) { env.live && env.started && env.removes }

  lemma DeleteShows(fs: Files, env: Env, k: Key)
    requires WellFormed(fs) && ValidDigest(k.digest)
    ensures var fs' := Blobs.DeleteBlob(fs, env, k).0;
      WellFormed(fs') && CommittedFiles(fs') == if Removes(env) then CommittedFiles(fs) - {k} else CommittedFiles(fs)
  {
  }

  lemma DeleteRuns(H: Hashes, w: Services.World, env: Env, k: Key, s: J.State, c: nat) returns (run: seq<J.Step>, s': J.State)
    requires Shows(w, s) && ValidDigest(k.digest) && c in s.calls && (s.calls[c] == J.BlobDelete(k) || s.calls[c] == J.ManifestDelete(k))
    ensures Leads(H, s, run, s') && Shows(w.(fs := Blobs.DeleteBlob(w.fs, env, k).0), s')
  {
    DeleteShows(w.fs, env, k);
    var t := J.Deletes(c, Removes(env));
    s' := J.Apply(H, s, t);
    run := [t] + [];
  }

  // What one RunBlobTx step leads to.
  lemma BlobTxStep(H: Hashes, w: Services.World, env: Services.CallEnv, k: Key, size: int, compensate: bool, s: J.State, c: nat)
    requires Shows(w, s) && c in s.calls && s.calls[c] == J.BlobTx(k, size, compensate)
    ensures var stmt := InsertNamespaceBlob(k, size);
      var end := EndOf(w.db, stmt, env.tx);
      var t := J.RunBlobTx(c, OutcomeOf(w.db, stmt, env));
      && J.Enabled(H, s, t)
      && var s1 := J.Apply(H, s, t);
      && Shows(w.(db := Transact(w.db, [stmt], env.tx).0), s1) && c in s1.calls
      && (s1.calls[c] == J.Done || s1.calls[c] == J.BlobDelete(k))
      && (s1.calls[c].Done? ==> !compensate || end.Committed? || end.Panicked? || !env.blob.live)
      && (s1.calls[c].BlobDelete? ==> compensate && end.RolledBack?)
  {
    TransactOne(w.db, InsertNamespaceBlob(k, size), env.tx);
  }

  // Recording a blob, with its compensation, is a run.
  lemma RegisterRuns(H: Hashes, w: Services.World, env: Services.CallEnv, k: Key, size: int, compensate: bool, s: J.State, c: nat)
      returns (run: seq<J.Step>, s': J.State)
    requires Shows(w, s) && ValidDigest(k.digest) && c in s.calls && s.calls[c] == J.BlobTx(k, size, compensate)
    ensures Leads(H, s, run, s') && Shows(Services.Register(w, env, k, size, compensate).0, s')
  {
    var stmt := InsertNamespaceBlob(k, size);
    TransactOne(w.db, stmt, env.tx);
    BlobTxStep(H, w, env, k, size, compensate, s, c);
    var t := J.RunBlobTx(c, OutcomeOf(w.db, stmt, env));
    var s1 := J.Apply(H, s, t);
    run, s' := [], s1;
    if s1.calls[c].BlobDelete? {
      run, s' := DeleteRuns(H, w.(db := Transact(w.db, [stmt], env.tx).0), env.blob, k, s1, c);
    }
    run := [t] + run;
  }

  // ---- Puts ----

  // A put binds the digest to the bytes, or changes no committed file.
  lemma PutEffect(H: Hashes, fs: Files, env: Env, k: Key, size: int, data: Bytes)
    requires WellFormed(fs) && Fresh(fs, env, k.ns)
    ensures var (fs', r) := Blobs.PutBlob(H, fs, env, k, size, data);
      && WellFormed(fs')
      && (forall x :: BlobName(x) in fs'.names <==> BlobName(x) in fs.names || (r.Ok? && x == k))
      && (forall x :: BlobName(x) in fs.names ==> Content(fs', BlobName(x)) == Content(fs, BlobName(x)))
      && (r.Ok? ==> BlobName(k) !in fs.names && Matches(H, k.digest, data) && r.value == |data| && Content(fs', BlobName(k)) == data)
      && (r == Err(BlobCommitted) ==> BlobName(k) in fs.names && Matches(H, k.digest, data))
  {
    PutCases(H, fs, env, k, size, data);
  }

  lemma PutShows(H: Hashes, fs: Files, env: Env, k: Key, size: int, data: Bytes)
    requires WellFormed(fs) && Fresh(fs, env, k.ns)
    ensures var (fs', r) := Blobs.PutBlob(H, fs, env, k, size, data);
      && WellFormed(fs')
      && CommittedFiles(fs') == (if r.Ok? then CommittedFiles(fs)[k := data] else CommittedFiles(fs))
  {
    PutEffect(H, fs, env, k, size, data);
    var (fs', r) := Blobs.PutBlob(H, fs, env, k, size, data);
    ShownAs(fs', if r.Ok? then CommittedFiles(fs)[k := data] else CommittedFiles(fs));
  }

  // The step a put takes, and where it leaves the call.
  function PutStep(c: nat, r: Result<int, BlobError>): J.Step
  {
    if r.Ok? then J.PutStores(c) else if r == Err(BlobCommitted) then J.PutExists(c) else J.PutFails(c)
  }

  lemma PutTakes(H: Hashes, w: Services.World, env: Env, k: Key, size: int, data: Bytes, s: J.State, c: nat)
    requires Shows(w, s) && Fresh(w.fs, env, k.ns)
    requires c in s.calls && J.Putting(s.calls[c]) && s.calls[c].k == k && J.PutData(s.calls[c]) == data
    ensures var (fs', r) := Blobs.PutBlob(H, w.fs, env, k, size, data);
      && J.Enabled(H, s, PutStep(c, r))
      && var s1 := J.Apply(H, s, PutStep(c, r));
      && Shows(w.(fs := fs'), s1) && c in s1.calls
      && s1.calls[c] == (if r.Ok? then J.AfterPut(s.calls[c]) else if r == Err(BlobCommitted) then J.AfterExists(s.calls[c]) else J.Done)
      && (r.Ok? ==> r.value == |data|)
  {
    PutShows(H, w.fs, env, k, size, data);
    PutEffect(H, w.fs, env, k, size, data);
  }

  // A validated call starts.
  lemma Starts(H: Hashes, s: J.State, c: nat, pc: J.Pc, run: seq<J.Step>, s': J.State)
    requires c !in s.calls && J.Validated(H, s, pc) && Leads(H, J.Goto(s, c, pc), run, s')
    ensures Leads(H, s, [J.Start(c, pc)] + run, s')
  {
  }

  // The stat of an existing blob and the recording of its size.
  lemma ExistingRuns(H: Hashes, w: Services.World, env: Services.CallEnv, stat: Env, k: Key, compensate: bool, s: J.State, c: nat)
      returns (run: seq<J.Step>, s': J.State)
    requires Shows(w, s) && ValidDigest(k.digest) && c in s.calls && s.calls[c] == J.BlobStat(k, compensate)
    ensures Leads(H, s, run, s')
    ensures Shows(match Blobs.StatBlob(w.fs, stat, k)
                  case Err(e) => w
                  case Ok(actual) => Services.Register(w, env, k, actual, compensate).0, s')
  {
    var t := J.Stats(c, stat.stats);
    var s1 := J.Apply(H, s, t);
    run, s' := [], s1;
    if Blobs.StatBlob(w.fs, stat, k).Ok? {
      run, s' := RegisterRuns(H, w, env, k, Blobs.StatBlob(w.fs, stat, k).value, compensate, s1, c);
    }
    run := [t] + run;
  }

  // What MonolithicUpload and mountBlobCopy do once their arguments are validated.
  lemma StoredRuns(H: Hashes, w: Services.World, env: Services.CallEnv, stat: Env, k: Key, size: int, data: Bytes, kind: J.Kind, s: J.State, c: nat)
      returns (run: seq<J.Step>, s': J.State)
    requires Shows(w, s) && ValidDigest(k.digest) && k.ns in w.db.namespaces && Fresh(w.fs, env.blob, k.ns) && !kind.Chunked? && c !in s.calls
    ensures Leads(H, s, run, s')
    ensures var (fs, put) := Blobs.PutBlob(H, w.fs, env.blob, k, size, data);
      && WellFormed(fs)
      && Shows(if put.Ok? then Services.Register(w.(fs := fs), env, k, put.value, true).0
               else if put.error != BlobCommitted then w.(fs := fs)
               else match Blobs.StatBlob(fs, stat, k)
                 case Err(e) => w.(fs := fs)
                 case Ok(actual) => Services.Register(w.(fs := fs), env, k, actual, kind.Monolithic?).0, s')
  {
    var pc := J.BlobPut(k, data, kind);
    var s1 := J.Goto(s, c, pc);
    var (fs, put) := Blobs.PutBlob(H, w.fs, env.blob, k, size, data);
    PutTakes(H, w, env.blob, k, size, data, s1, c);
    var s2 := J.Apply(H, s1, PutStep(c, put));
    run, s' := [], s2;
    if put.Ok? {
      run, s' := RegisterRuns(H, w.(fs := fs), env, k, put.value, true, s2, c);
    } else if put.error == BlobCommitted {
      run, s' := ExistingRuns(H, w.(fs := fs), env, stat, k, kind.Monolithic?, s2, c);
    }
    Starts(H, s, c, pc, [PutStep(c, put)] + run, s');
    run := [J.Start(c, pc)] + ([PutStep(c, put)] + run);
  }

  // ---- The calls ----

  lemma MonolithicUploadRuns(H: Hashes, w: Services.World, env: Services.CallEnv, k: Key, size: int, data: Bytes, s: J.State, c: nat)
      returns (run: seq<J.Step>, s': J.State)
    requires Shows(w, s) && Fresh(w.fs, env.blob, k.ns) && c !in s.calls
    ensures Leads(H, s, run, s') && Shows(Services.MonolithicUpload(H, w, env, k, size, data).0, s')
  {
    run, s' := [], s;
    if Services.ValidateNamespaceDigest(w, env, k).None? {
      run, s' := StoredRuns(H, w, env, env.read, k, size, data, J.Monolithic, s, c);
    }
  }

  lemma MountBlobRuns(H: Hashes, w: Services.World, env: Services.CallEnv, source: string, k: Key, s: J.State, c: nat)
      returns (run: seq<J.Step>, s': J.State)
    requires Shows(w, s) && Fresh(w.fs, env.blob, k.ns) && c !in s.calls
    ensures Leads(H, s, run, s') && Shows(Services.MountBlob(H, w, env, source, k).0, s')
  {
    run, s' := [], s;
    if Services.ValidateNamespaceDigest(w, env, k).None? && source in w.db.namespaces {
      var r := Blobs.GetBlob(w.fs, env.read, Key(source, k.digest));
      if Services.MountBlob(H, w, env, source, k).0 != w && r.Ok? {
        run, s' := StoredRuns(H, w, env, env.again, k, |r.value|, r.value, J.Mounted, s, c);
      }
    }
  }

  // What PutManifest does once its arguments are validated.
  lemma StoredManifestRuns(H: Hashes, w: Services.World, env: Services.CallEnv, k: Key, m: Manifest, body: Bytes, now: int, s: J.State, c: nat)
      returns (run: seq<J.Step>, s': J.State)
    requires Shows(w, s) && Fresh(w.fs, env.blob, k.ns) && c !in s.calls && J.Validated(H, s, J.ManifestPut(k, m, body, now))
    ensures Leads(H, s, run, s')
    ensures Shows(Services.StoredManifest(H, w, env, k, m, body, now), s')
  {
    var pc := J.ManifestPut(k, m, body, now);
    var s1 := J.Goto(s, c, pc);
    var (fs, put) := Blobs.PutBlob(H, w.fs, env.blob, k, |body|, body);
    PutTakes(H, w, env.blob, k, |body|, body, s1, c);
    var s2 := J.Apply(H, s1, PutStep(c, put));
    run, s' := [], s2;
    if put.Ok? || put.error == BlobCommitted {
      run, s' := StoreManifestRuns(H, w.(fs := fs), env, k, m, |body|, now, s2, c);
    }
    Starts(H, s, c, pc, [PutStep(c, put)] + run, s');
    run := [J.Start(c, pc)] + ([PutStep(c, put)] + run);
  }

  lemma PutManifestRuns(
      H: Hashes, parse: Parser, w: Services.World, env: Services.CallEnv, ns: string, reference: string,
      contentType: string, body: Bytes, now: int, s: J.State, c: nat)
      returns (run: seq<J.Step>, s': J.State)
    requires Shows(w, s) && Fresh(w.fs, env.blob, ns) && c !in s.calls
    ensures Leads(H, s, run, s')
    ensures Shows(Services.PutManifest(H, parse, w, env, ns, reference, contentType, body, now).0, s')
  {
    run, s' := [], s;
    Services.PutLeaves(H, parse, w, env, ns, reference, contentType, body, now);
    if Services.PutAccepted(H, parse, w, env, ns, reference, contentType, body) {
      run, s' := StoredManifestRuns(H, w, env, Key(ns, reference), ParseManifestBody(parse, contentType, body).value, body, now, s, c);
    }
  }

  lemma StoreManifestRuns(H: Hashes, w: Services.World, env: Services.CallEnv, k: Key, m: Manifest, size: int, now: int, s: J.State, c: nat)
      returns (run: seq<J.Step>, s': J.State)
    requires Shows(w, s) && c in s.calls && s.calls[c] == J.ManifestTx(k, m, size, now)
    ensures Leads(H, s, run, s') && Shows(w.(db := Transact(w.db, StoreManifest(k, m, size, now), env.tx).0), s')
  {
    AllOrNothing(w.db, StoreManifest(k, m, size, now), env.tx);
    var t := J.RunManifestTx(c, if Transact(w.db, StoreManifest(k, m, size, now), env.tx).1.Committed? then J.Runs else J.DatabaseFails);
    s' := J.Apply(H, s, t);
    run := [t] + [];
  }

  lemma DeleteManifestRuns(H: Hashes, w: Services.World, env: Services.CallEnv, ns: string, reference: string, s: J.State, c: nat)
      returns (run: seq<J.Step>, s': J.State)
    requires Shows(w, s) && c !in s.calls
    ensures Leads(H, s, run, s') && Shows(Services.DeleteManifest(w, env, ns, reference).0, s')
  {
    run, s' := [], s;
    if Services.ValidateManifestKey(w, env, ns, reference).Ok? {
      var k := Key(ns, reference);
      var (db, r) := Transact(w.db, RemoveManifest(k), env.tx);
      AllOrNothing(w.db, RemoveManifest(k), env.tx);
      var s1 := J.Goto(s, c, J.RemoveTx(k));
      var t := J.RunRemoveTx(c, if r.Committed? then J.Runs else J.DatabaseFails);
      var s2 := J.Apply(H, s1, t);
      run, s' := [], s2;
      if r.Committed? {
        run, s' := DeleteRuns(H, w.(db := db), env.blob, k, s2, c);
      }
      Starts(H, s, c, J.RemoveTx(k), [t] + run, s');
      run := [J.Start(c, J.RemoveTx(k))] + ([t] + run);
    }
  }

  lemma ChangeNamespaceRuns(H: Hashes, w: Services.World, env: Services.CallEnv, ns: string, create: bool, s: J.State, c: nat)
      returns (run: seq<J.Step>, s': J.State)
    requires Shows(w, s) && c !in s.calls
    ensures var pc := J.NamespaceTx(create, ns);
      Leads(H, s, run, s') && Shows(Services.ChangeNamespace(w, env, ns, J.NamespaceStmt(pc)).0, s')
  {
    run, s' := [], s;
    if NameGrammar.ValidName(ns) {
      var pc := J.NamespaceTx(create, ns);
      var stmt := J.NamespaceStmt(pc);
      TransactOne(w.db, stmt, env.tx);
      var s1 := J.Goto(s, c, pc);
      var t := J.RunNamespaceTx(c, if EndOf(w.db, stmt, env.tx).Committed? then J.Runs else J.DatabaseFails);
      s' := J.Apply(H, s1, t);
      Starts(H, s, c, pc, [t] + [], s');
      run := [J.Start(c, pc)] + ([t] + []);
    }
  }

  // ---- Sessions ----

  // No digest name shares the session's inode.  Module AppendRaces says when this holds.
  ghost predicate Unshared(fs: Files, ns: string, id: string)
  {
    Staged(ns, id) in fs.names ==>
      forall k :: BlobName(k) in fs.names ==> fs.names[BlobName(k)] != fs.names[Staged(ns, id)]
  }

  lemma AppendShows(fs: Files, env: Env, ns: string, id: string, offset: int, data: Bytes)
    requires WellFormed(fs) && Unshared(fs, ns, id)
    ensures var fs' := Blobs.AppendBlobChunk(fs, env, ns, id, offset, data).0;
      WellFormed(fs') && Unshared(fs', ns, id) && CommittedFiles(fs') == CommittedFiles(fs)
  {
  }

  // Finalizing binds the digest to what the session holds, or changes no committed file.
  lemma FinalizeEffect(H: Hashes, fs: Files, env: Env, ns: string, id: string, d: Digest, size: int)
    requires WellFormed(fs)
    ensures var (fs', r) := Blobs.FinalizeBlobUpload(H, fs, env, ns, id, d, size);
      var k, n := Key(ns, d), Staged(ns, id);
      && WellFormed(fs')
      && (r.Ok? || r == Err(BlobCommitted) ==> n in fs.names && Matches(H, d, Content(fs, n)) && size == |Content(fs, n)|)
      && (r.Ok? ==> BlobName(k) !in fs.names && CommittedFiles(fs') == CommittedFiles(fs)[k := Content(fs, n)])
      && (r == Err(BlobCommitted) ==> BlobName(k) in fs.names)
      && (r.Err? ==> CommittedFiles(fs') == CommittedFiles(fs))
  {
    var (fs', r) := Blobs.FinalizeBlobUpload(H, fs, env, ns, id, d, size);
    if r.Ok? {
      ShownAs(fs', CommittedFiles(fs)[Key(ns, d) := Content(fs, Staged(ns, id))]);
    } else {
      ShownAs(fs', CommittedFiles(fs));
    }
  }

  lemma CancelShows(fs: Files, env: Env, ns: string, id: string)
    requires WellFormed(fs)
    ensures var fs' := Blobs.CancelBlobUpload(fs, env, ns, id).0; WellFormed(fs') && CommittedFiles(fs') == CommittedFiles(fs)
  {
  }

  // The step finalizing takes, and where it leaves the call.
  function FinalizeStep(c: nat, r: Result<(), BlobError>): J.Step
  {
    if r.Ok? then J.PutStores(c) else if r == Err(BlobCommitted) then J.PutExists(c) else J.PutFails(c)
  }

  // A commit whose session holds `data` when it is finalized.
  lemma FinalizedRuns(H: Hashes, w: Services.World, env: Services.CallEnv, ns: string, id: string, d: Digest, size: int, s: J.State, c: nat)
      returns (run: seq<J.Step>, s': J.State)
    requires Shows(w, s) && ValidDigest(d) && ns in w.db.namespaces && c !in s.calls && Staged(ns, id) in w.fs.names
    ensures Leads(H, s, run, s')
    ensures var (fs, r) := Blobs.FinalizeBlobUpload(H, w.fs, env.blob, ns, id, d, size);
      && WellFormed(fs)
      && Shows(if r.Ok? then Services.Register(w.(fs := fs), env, Key(ns, d), size, true).0 else w.(fs := fs), s')
  {
    var pc := J.BlobPut(Key(ns, d), Content(w.fs, Staged(ns, id)), J.Chunked);
    var s1 := J.Goto(s, c, pc);
    var (fs, r) := Blobs.FinalizeBlobUpload(H, w.fs, env.blob, ns, id, d, size);
    FinalizeEffect(H, w.fs, env.blob, ns, id, d, size);
    var t := FinalizeStep(c, r);
    var s2 := J.Apply(H, s1, t);
    run, s' := [], s2;
    if r.Ok? {
      run, s' := RegisterRuns(H, w.(fs := fs), env, Key(ns, d), size, true, s2, c);
    }
    Starts(H, s, c, pc, [t] + run, s');
    run := [J.Start(c, pc)] + ([t] + run);
  }

  lemma CommitUploadRuns(H: Hashes, w: Services.World, env: Services.CallEnv, ns: string, id: string, d: Digest, chunk: Option<Bytes>, s: J.State, c: nat)
      returns (run: seq<J.Step>, s': J.State)
    requires Shows(w, s) && Unshared(w.fs, ns, id) && c !in s.calls
    ensures Leads(H, s, run, s') && Shows(Services.CommitUpload(H, w, env, ns, id, d, chunk).0, s')
  {
    run, s' := [], s;
    Services.CommitLeaves(H, w, env, ns, id, d, chunk);
    var (fs, total) := Services.AppendFinalChunk(w.fs, env, ns, id, chunk);
    if Services.ValidateNamespaceDigest(w, env, Key(ns, d)).None? && total.Ok? {
      var fs2 := Blobs.FinalizeBlobUpload(H, fs, env.blob, ns, id, d, total.value).0;
      run, s' := FinalizedRuns(H, w.(fs := fs), env, ns, id, d, total.value, s, c);
      CancelShows(fs2, env.blob, ns, id);
    }
  }

  // The other session calls change neither a committed file nor a row.
  lemma SessionsShow(w: Services.World, env: Services.CallEnv, ns: string, id: string, offset: int, data: Bytes, s: J.State)
    requires Shows(w, s) && Unshared(w.fs, ns, id) && Fresh(w.fs, env.blob, ns)
    ensures Shows(Services.InitiateUpload(w, env, ns).0, s)
    ensures Shows(Services.AppendChunk(w, env, ns, id, offset, data).0, s)
    ensures Shows(Services.CancelUpload(w, env, ns, id).0, s)
  {
    AppendShows(w.fs, env.again, ns, id, offset, data);
    CancelShows(w.fs, env.blob, ns, id);
    var fs := Blobs.InitiateBlobUpload(w.fs, env.blob, ns).0;
    ShownAs(fs, CommittedFiles(w.fs));
  }

  // ---- What the agreement gives a reader ----

  // A blob whose stat succeeds reads back in full: as many bytes as the row says, that
  // hash to the digest.
  lemma StatImpliesRead(H: Hashes, w: Services.World, env: Services.CallEnv, k: Key)
    requires WellFormed(w.fs) && J.Agree(H, CommittedFiles(w.fs), w.db)
    requires Services.StatBlob(w, env, k).Ok? && env.read.opens && env.read.stats
    ensures Services.GetBlob(w, env, k) == Ok((Content(w.fs, BlobName(k)), Services.StatBlob(w, env, k).value))
    ensures |Content(w.fs, BlobName(k))| == Services.StatBlob(w, env, k).value
    ensures Matches(H, k.digest, Content(w.fs, BlobName(k)))
  {
  }

  // A blob is served exactly when it has an active row, with the size in the row and every
  // byte its digest stands for; any other is unknown.
  lemma ActiveBlobReads(H: Hashes, w: Services.World, env: Services.CallEnv, k: Key)
    requires WellFormed(w.fs) && J.Agree(H, CommittedFiles(w.fs), w.db) && env.tx.begins && env.read.opens && env.read.stats
    requires Services.ValidateNamespaceDigest(w, env, k).None?
    ensures var r, stat := Services.GetBlob(w, env, k), Services.StatBlob(w, env, k);
      && (r.Ok? <==> k in w.db.blobs && w.db.blobs[k].lifecycle.Active?)
      && (stat.Ok? <==> r.Ok?)
      && (r.Err? ==> r.error == Services.UnknownBlob && stat.error == Services.UnknownBlob)
      && (r.Ok? ==> stat.value == w.db.blobs[k].size == |r.value.0| == r.value.1)
      && (r.Ok? ==> r.value.0 == Content(w.fs, BlobName(k)) && Matches(H, k.digest, r.value.0))
  {
    if k in w.db.blobs && w.db.blobs[k].lifecycle.Active? { assert k in CommittedFiles(w.fs); }
  }

  // The same for a manifest: an active one reads back in full, with its row.
  lemma ActiveManifestReads(H: Hashes, w: Services.World, env: Services.CallEnv, ns: string, reference: string)
    requires WellFormed(w.fs) && J.Agree(H, CommittedFiles(w.fs), w.db) && env.tx.begins && env.read.opens && env.read.stats
    requires Services.ValidateManifestKey(w, env, ns, reference).Ok?
    ensures var k := Key(ns, reference);
      var r := Services.GetManifest(w, env, ns, reference);
      && (r.Ok? <==> k in w.db.manifests && w.db.manifests[k].lifecycle.Active?)
      && (r.Err? ==> r.error == Services.UnknownManifest)
      && (r.Ok? ==> r.value.0 == w.db.manifests[k] && |r.value.1| == r.value.0.size && Matches(H, reference, r.value.1))
  {
    var k := Key(ns, reference);
    if k in w.db.manifests && w.db.manifests[k].lifecycle.Active? { assert k in CommittedFiles(w.fs); }
  }

  // ---- The boundary, call by call ----

  // A one-statement transaction that would succeed is rolled back all the same.
  predicate RollsBack(tx: TxEnv)
  {
    if tx.begins && 0 in tx.faults then !tx.faults[0].Panic? else !tx.begins || !tx.commits
  }

  // A compensating delete of a blob that has an active row.
  predicate Orphans(w: Services.World, env: Services.CallEnv, k: Key)
  {
    J.ActiveRow(w.db, k) && RollsBack(env.tx) && Removes(env.blob)
  }

  // Recording a committed blob of its size keeps the agreement.
  lemma RecordAgrees(H: Hashes, files: map<Key, Bytes>, db: Db, k: Key, size: int)
    requires J.Agree(H, files, db) && (k in db.blobs ==> db.blobs[k].lifecycle.Active?)
    requires k in files && |files[k]| == size && Exec(db, InsertNamespaceBlob(k, size)).Ok?
    ensures J.Agree(H, files, Exec(db, InsertNamespaceBlob(k, size)).value)
  {
  }

  // No foreign key stands in the way of a digest that already has a row.
  lemma RowsRecord(db: Db, k: Key, size: int, env: TxEnv)
    requires Referential(db) && J.ActiveRow(db, k)
    ensures EndOf(db, InsertNamespaceBlob(k, size), env).RolledBack? <==> RollsBack(env)
  {
  }

  lemma RegisterAgreesExactly(H: Hashes, w: Services.World, env: Services.CallEnv, k: Key, size: int)
    requires WellFormed(w.fs) && J.Agree(H, CommittedFiles(w.fs), w.db) && Referential(w.db) && ValidDigest(k.digest)
    requires k in w.db.blobs ==> w.db.blobs[k].lifecycle.Active?
    requires BlobName(k) in w.fs.names && |Content(w.fs, BlobName(k))| == size
    ensures var w' := Services.Register(w, env, k, size, true).0;
      WellFormed(w'.fs) && (J.Agree(H, CommittedFiles(w'.fs), w'.db) <==> !Orphans(w, env, k))
  {
    var stmt := InsertNamespaceBlob(k, size);
    TransactOne(w.db, stmt, env.tx);
    if J.ActiveRow(w.db, k) { RowsRecord(w.db, k, size, env.tx); }
    if EndOf(w.db, stmt, env.tx).RolledBack? {
      DeleteShows(w.fs, env.blob, k);
      J.RemovalAgreesExactly(H, CommittedFiles(w.fs), w.db, k);
    } else if EndOf(w.db, stmt, env.tx).Committed? {
      RecordAgrees(H, CommittedFiles(w.fs), w.db, k, size);
    }
  }

  // MonolithicUpload compensates even when the blob was there before.  It leaves an
  // active row without its file exactly when the row was there before, the transaction
  // is rolled back and the compensating delete works.
  lemma MonolithicUploadAgreesExactly(H: Hashes, w: Services.World, env: Services.CallEnv, k: Key, size: int, data: Bytes)
    requires WellFormed(w.fs) && Fresh(w.fs, env.blob, k.ns) && J.Agree(H, CommittedFiles(w.fs), w.db) && Referential(w.db)
    requires k in w.db.blobs ==> w.db.blobs[k].lifecycle.Active?
    ensures var w' := Services.MonolithicUpload(H, w, env, k, size, data).0;
      && WellFormed(w'.fs)
      && (J.Agree(H, CommittedFiles(w'.fs), w'.db) <==>
            !(Orphans(w, env, k) && Services.ValidateNamespaceDigest(w, env, k).None? && env.read.stats
              && Blobs.PutBlob(H, w.fs, env.blob, k, size, data).1 == Err(BlobCommitted)))
  {
    PutEffect(H, w.fs, env.blob, k, size, data);
    PutShows(H, w.fs, env.blob, k, size, data);
    var (fs, put) := Blobs.PutBlob(H, w.fs, env.blob, k, size, data);
    if Services.ValidateNamespaceDigest(w, env, k).None? {
      if put.Ok? {
        assert k !in CommittedFiles(w.fs);
        RegisterAgreesExactly(H, w.(fs := fs), env, k, put.value);
      } else if put == Err(BlobCommitted) {
        RegisterAgreesExactly(H, w.(fs := fs), env, k, |Content(fs, BlobName(k))|);
      }
    }
  }

  // Recording without compensation never breaks the agreement.
  lemma RecordOnlyAgrees(H: Hashes, w: Services.World, env: Services.CallEnv, k: Key, size: int)
    requires WellFormed(w.fs) && J.Agree(H, CommittedFiles(w.fs), w.db) && (k in w.db.blobs ==> w.db.blobs[k].lifecycle.Active?)
    requires BlobName(k) in w.fs.names && |Content(w.fs, BlobName(k))| == size
    ensures var w' := Services.Register(w, env, k, size, false).0; w'.fs == w.fs && J.Agree(H, CommittedFiles(w.fs), w'.db)
  {
    var stmt := InsertNamespaceBlob(k, size);
    TransactOne(w.db, stmt, env.tx);
    if Exec(w.db, stmt).Ok? { RecordAgrees(H, CommittedFiles(w.fs), w.db, k, size); }
  }

  // A put on its own keeps the agreement.
  lemma PutAgrees(H: Hashes, w: Services.World, env: Env, k: Key, data: Bytes)
    requires WellFormed(w.fs) && Fresh(w.fs, env, k.ns) && J.Agree(H, CommittedFiles(w.fs), w.db)
    ensures var fs := Blobs.PutBlob(H, w.fs, env, k, |data|, data).0; WellFormed(fs) && J.Agree(H, CommittedFiles(fs), w.db)
  {
    PutEffect(H, w.fs, env, k, |data|, data);
    PutShows(H, w.fs, env, k, |data|, data);
  }

  // What mountBlobCopy leaves, by how its put went.
  lemma MountLeaves(H: Hashes, w: Services.World, env: Services.CallEnv, k: Key, data: Bytes)
    requires WellFormed(w.fs) && Fresh(w.fs, env.blob, k.ns)
    ensures var (fs, put) := Blobs.PutBlob(H, w.fs, env.blob, k, |data|, data);
      var w' := Services.MountBlobCopy(H, w, env, k, data).0;
      && WellFormed(fs)
      && if put.Ok? then w' == Services.Register(w.(fs := fs), env, k, put.value, true).0
         else (w' == w.(fs := fs)
               || (put == Err(BlobCommitted) && BlobName(k) in fs.names
                   && w' == Services.Register(w.(fs := fs), env, k, |Content(fs, BlobName(k))|, false).0))
  {
  }

  // mountBlobCopy guards that case: it never breaks the agreement.
  lemma MountBlobAgrees(H: Hashes, w: Services.World, env: Services.CallEnv, k: Key, data: Bytes)
    requires WellFormed(w.fs) && Fresh(w.fs, env.blob, k.ns) && J.Agree(H, CommittedFiles(w.fs), w.db) && Referential(w.db)
    requires ValidDigest(k.digest) && (k in w.db.blobs ==> w.db.blobs[k].lifecycle.Active?)
    ensures var w' := Services.MountBlobCopy(H, w, env, k, data).0;
      WellFormed(w'.fs) && J.Agree(H, CommittedFiles(w'.fs), w'.db)
  {
    MountLeaves(H, w, env, k, data);
    PutAgrees(H, w, env.blob, k, data);
    PutEffect(H, w.fs, env.blob, k, |data|, data);
    var (fs, put) := Blobs.PutBlob(H, w.fs, env.blob, k, |data|, data);
    if put.Ok? {
      assert k !in CommittedFiles(w.fs);
      RegisterAgreesExactly(H, w.(fs := fs), env, k, put.value);
    } else if put == Err(BlobCommitted) {
      RecordOnlyAgrees(H, w.(fs := fs), env, k, |Content(fs, BlobName(k))|);
    }
  }

  lemma RemovalTxAgrees(H: Hashes, files: map<Key, Bytes>, db: Db, k: Key)
    requires J.Agree(H, files, db) && ExecAll(db, RemoveManifest(k)).Ok?
    ensures J.Agree(H, files, ExecAll(db, RemoveManifest(k)).value)
  {
    RemoveEffect(db, k);
  }

  // DeleteManifest removes the file without looking at the blob rows: it breaks the
  // agreement exactly when it commits on a digest that also has an active blob row in
  // the namespace, and the file goes.
  lemma DeleteManifestAgreesExactly(H: Hashes, w: Services.World, env: Services.CallEnv, ns: string, reference: string)
    requires WellFormed(w.fs) && J.Agree(H, CommittedFiles(w.fs), w.db)
    ensures var (w', r) := Services.DeleteManifest(w, env, ns, reference);
      var k := Key(ns, reference);
      && WellFormed(w'.fs)
      && (J.Agree(H, CommittedFiles(w'.fs), w'.db) <==>
            !(r.Ok? && Removes(env.blob) && k in w.db.blobs && w.db.blobs[k].lifecycle.Active?))
  {
    var k := Key(ns, reference);
    var (w', r) := Services.DeleteManifest(w, env, ns, reference);
    AllOrNothing(w.db, RemoveManifest(k), env.tx);
    RemoveEffect(w.db, k);
    if r.Ok? {
      DeleteShows(w.fs, env.blob, k);
      RemovalTxAgrees(H, CommittedFiles(w.fs), w.db, k);
      J.RemovalAgreesExactly(H, CommittedFiles(w.fs), w'.db, k);
    }
  }

  // ---- Both failures happen ----

  // A world with one committed file, and an active blob row for it.
  function OneBlob(k: Key, data: Bytes): Services.World
  {
    var ino := Ino(k.ns, 0);
    Services.World(Files(map[BlobName(k) := ino], map[ino := data]),
                   Db({k.ns}, map[k := BlobRow(|data|, Active)], map[], map[]))
  }

  const FINE: Env :=
    Env("", Ino("", 1), true, true, true, true, 0, true, true, true, true, true, true, true, true)

  // Everything works, but the transaction's commit may fail.
  function FineCall(commits: bool): Services.CallEnv
  {
    Services.CallEnv(true, true, FINE, FINE, FINE, TxEnv(true, map[], commits))
  }

  // Uploading a blob again while the database fails takes the blob away.
  lemma MonolithicUploadBreaks(H: Hashes, k: Key, data: Bytes)
    requires ValidName(k.ns) && ValidDigest(k.digest) && Matches(H, k.digest, data)
    ensures var w := OneBlob(k, data);
      && WellFormed(w.fs) && J.Agree(H, CommittedFiles(w.fs), w.db)
      && var w' := Services.MonolithicUpload(H, w, FineCall(false), k, |data|, data).0;
      WellFormed(w'.fs) && !J.Agree(H, CommittedFiles(w'.fs), w'.db)
  {
    MonolithicUploadAgreesExactly(H, OneBlob(k, data), FineCall(false), k, |data|, data);
  }

  // Deleting the manifest of a digest that is a blob too takes the blob away, and nothing
  // fails.
  lemma DeleteManifestBreaks(H: Hashes, k: Key, data: Bytes)
    requires ValidName(k.ns) && ValidDigest(k.digest) && Matches(H, k.digest, data)
    ensures var w := OneBlob(k, data).(db := OneBlob(k, data).db.(manifests := map[k := ManifestRow("", |data|, Active)]));
      && WellFormed(w.fs) && J.Agree(H, CommittedFiles(w.fs), w.db)
      && var (w', r) := Services.DeleteManifest(w, FineCall(true), k.ns, k.digest);
      r.Ok? && WellFormed(w'.fs) && !J.Agree(H, CommittedFiles(w'.fs), w'.db)
  {
    var w := OneBlob(k, data).(db := OneBlob(k, data).db.(manifests := map[k := ManifestRow("", |data|, Active)]));
    assert k.digest[Colon(k.digest)] in k.digest;
    RemoveEffect(w.db, k);
    AllOrNothing(w.db, RemoveManifest(k), FineCall(true).tx);
    DeleteManifestAgreesExactly(H, w, FineCall(true), k.ns, k.digest);
  }
}

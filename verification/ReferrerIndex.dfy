// The referrer index over whole histories: which rows ListReferrers finds, against a
// scan of the manifests that were put and deleted.
module ReferrerIndex {
  import opened Basics
  import opened Digests
  import opened FileSystem
  import opened Metastore
  import opened Manifests

  // One transaction as seen from outside.  `commits` is false when it was rolled back
  // for a reason of its own, such as cancellation.
  datatype Event =
    | Put(ns: string, contentType: string, body: Bytes, now: int, commits: bool)
    | Delete(k: Key, commits: bool)
    | Other(stmt: Stmt, commits: bool)

  predicate Foreign(stmt: Stmt) { stmt.CreateNamespace? || stmt.DeleteNamespace? || stmt.InsertNamespaceBlob? }

  function PutKey(H: Hashes, e: Event): Key
    requires e.Put?
  {
    Key(e.ns, ManifestDigest(H, e.body))
  }

  // The transaction an event runs; none when PutManifest rejects the body.
  function TxOf(H: Hashes, parse: Parser, e: Event): Option<seq<Stmt>>
  {
    match e
    case Put(ns, ct, body, now, _) =>
      (match ParseManifestBody(parse, ct, body)
       case None => None
       case Some(m) => Some(StoreManifest(PutKey(H, e), m, |body|, now)))
    case Delete(k, _) => Some(RemoveManifest(k))
    case Other(stmt, _) => if Foreign(stmt) then Some([stmt]) else None
  }

  predicate Succeeds(H: Hashes, parse: Parser, db: Db, e: Event)
  {
    e.commits && TxOf(H, parse, e).Some? && ExecAll(db, TxOf(H, parse, e).value).Ok?
  }

  function Step(H: Hashes, parse: Parser, db: Db, e: Event): Db
  {
    if Succeeds(H, parse, db, e) then ExecAll(db, TxOf(H, parse, e).value).value else db
  }

  function Run(H: Hashes, parse: Parser, h: seq<Event>): Db
  {
    if h == [] then EMPTY_DB else Step(H, parse, Run(H, parse, h[..|h| - 1]), h[|h| - 1])
  }

  // ---- The scan ----

  // The event is a committed put, or delete, of `k` after the history `h`.
  predicate PutsAfter(H: Hashes, parse: Parser, h: seq<Event>, e: Event, k: Key)
  {
    e.Put? && PutKey(H, e) == k && Succeeds(H, parse, Run(H, parse, h), e)
  }

  predicate DeletesAfter(H: Hashes, parse: Parser, h: seq<Event>, e: Event, k: Key)
  {
    e.Delete? && e.k == k && Succeeds(H, parse, Run(H, parse, h), e)
  }

  // The last committed put of `k`, and the first.
  function LatestPut(H: Hashes, parse: Parser, h: seq<Event>, k: Key): Option<Event>
  {
    if h == [] then None
    else if PutsAfter(H, parse, h[..|h| - 1], h[|h| - 1], k) then Some(h[|h| - 1])
    else LatestPut(H, parse, h[..|h| - 1], k)
  }

  function FirstPut(H: Hashes, parse: Parser, h: seq<Event>, k: Key): Option<Event>
  {
    if h == [] then None
    else if FirstPut(H, parse, h[..|h| - 1], k).Some? then FirstPut(H, parse, h[..|h| - 1], k)
    else if PutsAfter(H, parse, h[..|h| - 1], h[|h| - 1], k) then Some(h[|h| - 1])
    else None
  }

  predicate EverDeleted(H: Hashes, parse: Parser, h: seq<Event>, k: Key)
  {
    h != [] && (EverDeleted(H, parse, h[..|h| - 1], k) || DeletesAfter(H, parse, h[..|h| - 1], h[|h| - 1], k))
  }

  // The last committed put or delete of `k` was a put.
  predicate Live(H: Hashes, parse: Parser, h: seq<Event>, k: Key)
  {
    h != [] &&
    (PutsAfter(H, parse, h[..|h| - 1], h[|h| - 1], k)
     || (Live(H, parse, h[..|h| - 1], k) && !DeletesAfter(H, parse, h[..|h| - 1], h[|h| - 1], k)))
  }

  function Parsed(parse: Parser, e: Event): Option<Manifest>
    requires e.Put?
  {
    ParseManifestBody(parse, e.contentType, e.body)
  }

  // A row that says what the latest put of its manifest said.
  predicate RowOf(parse: Parser, row: ReferrerRow, e: Event)
    requires e.Put?
  {
    Parsed(parse, e).Some? &&
    DeriveReferrer(Parsed(parse, e).value, |e.body|, row.createdAt) == Some(row)
  }

  predicate PutIn(H: Hashes, U: iset<Bytes>, e: Event, k: Key)
  {
    e.Put? && PutKey(H, e) == k && e.body in U
  }

  ghost predicate Agrees(H: Hashes, parse: Parser, U: iset<Bytes>, h: seq<Event>, k: Key)
  {
    var db := Run(H, parse, h);
    var last, first := LatestPut(H, parse, h, k), FirstPut(H, parse, h, k);
    && (k in db.manifests <==> last.Some?)
    && (last.Some? <==> first.Some?)
    && (last.Some? ==>
          && PutIn(H, U, last.value, k) && PutIn(H, U, first.value, k)
          && Parsed(parse, last.value).Some? && Parsed(parse, first.value).Some?
          && db.manifests[k] == ManifestRow(Parsed(parse, first.value).value.mediaType, |first.value.body|,
                                            if EverDeleted(H, parse, h, k) then PendingDeletion else Active))
    && (Live(H, parse, h, k) ==> last.Some?)
    && (last.Some? && !Live(H, parse, h, k) ==> EverDeleted(H, parse, h, k))
    && (EverDeleted(H, parse, h, k) ==> last.Some?)
    && (k in db.referrers <==>
          Live(H, parse, h, k) && last.Some? && last.value.Put? && Parsed(parse, last.value).Some? && SubjectOf(Parsed(parse, last.value).value).Some?)
    && (k in db.referrers ==> RowOf(parse, db.referrers[k], last.value))
  }

  // ---- The index against the scan ----

  ghost predicate Offers(U: iset<Bytes>, h: seq<Event>)
  {
    forall e :: e in h && e.Put? ==> e.body in U
  }

  lemma PutKeeps(H: Hashes, parse: Parser, U: iset<Bytes>, h: seq<Event>, e: Event, k: Key)
    requires CollisionFree(H, U) && Agrees(H, parse, U, h, k) && e.Put? && e.body in U
    requires Succeeds(H, parse, Run(H, parse, h), e)
    ensures Agrees(H, parse, U, h + [e], k)
  {
    assert (h + [e])[..|h|] == h;
    var p := PutKey(H, e);
    var m := Parsed(parse, e).value;
    StoreEffect(Run(H, parse, h), p, m, |e.body|, e.now);
    if k == p && LatestPut(H, parse, h, k).Some? {
      assert LatestPut(H, parse, h, k).value.body == e.body;
    }
  }

  lemma DeleteKeeps(H: Hashes, parse: Parser, U: iset<Bytes>, h: seq<Event>, e: Event, k: Key)
    requires Agrees(H, parse, U, h, k) && e.Delete? && Succeeds(H, parse, Run(H, parse, h), e)
    ensures Agrees(H, parse, U, h + [e], k)
  {
    assert (h + [e])[..|h|] == h;
    RemoveEffect(Run(H, parse, h), e.k);
  }

  lemma OtherKeeps(H: Hashes, parse: Parser, U: iset<Bytes>, h: seq<Event>, e: Event, k: Key)
    requires Agrees(H, parse, U, h, k) && (e.Other? || !Succeeds(H, parse, Run(H, parse, h), e))
    ensures Agrees(H, parse, U, h + [e], k)
  {
    assert (h + [e])[..|h|] == h;
    if Succeeds(H, parse, Run(H, parse, h), e) {
      assert ExecAll(Run(H, parse, h), [e.stmt]) == Exec(Run(H, parse, h), e.stmt) by {
        assert [] + [e.stmt] == [e.stmt];
        ExecAllSnoc(Run(H, parse, h), [], e.stmt);
      }
    }
  }

  // After every history, each manifest row and each referrer row is what the scan says.
  lemma {:induction false} IndexFollowsScan(H: Hashes, parse: Parser, U: iset<Bytes>, h: seq<Event>, k: Key)
    requires CollisionFree(H, U) && Offers(U, h)
    ensures Agrees(H, parse, U, h, k)
    decreases |h|
  {
    if h != [] {
      var h0, e := h[..|h| - 1], h[|h| - 1];
      assert h0 + [e] == h;
      IndexFollowsScan(H, parse, U, h0, k);
      if e.Other? || !Succeeds(H, parse, Run(H, parse, h0), e) {
        OtherKeeps(H, parse, U, h0, e, k);
      } else if e.Put? {
        PutKeeps(H, parse, U, h0, e, k);
      } else {
        DeleteKeeps(H, parse, U, h0, e, k);
      }
    }
  }

  // ---- What clients see ----

  // ListReferrers(ns, s) returns a descriptor for `k`.
  predicate Listed(db: Db, k: Key, s: Digest) { k in db.referrers && db.referrers[k].subject == s }

  predicate ActiveManifest(db: Db, k: Key) { k in db.manifests && db.manifests[k].lifecycle.Active? }

  // The manifest's body names `s`; which request last carried it does not matter.
  predicate Names(H: Hashes, parse: Parser, h: seq<Event>, k: Key, s: Digest)
  {
    var last := LatestPut(H, parse, h, k);
    && last.Some? && last.value.Put? && parse(last.value.body).Some?
    && s != "" && parse(last.value.body).value.subject == Some(s)
  }

  // The index lists a manifest under the subject its body names exactly while its last
  // committed put is not followed by a committed delete, with the digest's own size, the
  // annotations of the body, the content type of the latest put or else the body's media
  // type, and the body's artifact type or else an image manifest's config type.
  lemma ListedExactlyWhileLive(H: Hashes, parse: Parser, U: iset<Bytes>, h: seq<Event>, k: Key, s: Digest)
    requires CollisionFree(H, U) && Offers(U, h)
    ensures Listed(Run(H, parse, h), k, s) <==> Live(H, parse, h, k) && Names(H, parse, h, k, s)
    ensures Listed(Run(H, parse, h), k, s) ==>
      var e := LatestPut(H, parse, h, k).value;
      var m, row := parse(e.body).value, Run(H, parse, h).referrers[k];
      && ManifestDigest(H, e.body) == k.digest && row.size == |e.body|
      && row.mediaType == (if e.contentType != "" then e.contentType else m.mediaType)
      && row.artifactType == (if m.artifactType != "" then m.artifactType
                              else if row.mediaType == "application/vnd.oci.image.manifest.v1+json" then m.configMediaType
                              else "")
      && row.annotations == (if m.annotations.None? then map[] else m.annotations.value)
  {
    IndexFollowsScan(H, parse, U, h, k);
    var last := LatestPut(H, parse, h, k);
    if last.Some? && last.value.Put? && Parsed(parse, last.value).Some? {
      AcceptedBody(parse, last.value.contentType, last.value.body);
      ArtifactTypeComesFirst(Parsed(parse, last.value).value);
    }
  }

  // A manifest that names `s`, was deleted, and was put again since.
  predicate Revived(H: Hashes, parse: Parser, h: seq<Event>, k: Key, s: Digest)
  {
    Names(H, parse, h, k, s) && Live(H, parse, h, k) && EverDeleted(H, parse, h, k)
  }

  // The index and the active manifests agree about a manifest naming `s` exactly when
  // it was not put again after a delete.
  lemma IndexMatchesActiveExactly(H: Hashes, parse: Parser, U: iset<Bytes>, h: seq<Event>, k: Key, s: Digest)
    requires CollisionFree(H, U) && Offers(U, h)
    ensures (Listed(Run(H, parse, h), k, s) <==> ActiveManifest(Run(H, parse, h), k) && Names(H, parse, h, k, s))
       <==> !Revived(H, parse, h, k, s)
  {
    IndexFollowsScan(H, parse, U, h, k);
  }

  // Such a history: put, delete and put again.
  lemma ReputBreaksIndex(H: Hashes, parse: Parser, ns: string, body: Bytes, s: Digest) returns (h: seq<Event>)
    requires ParseManifestBody(parse, "", body).Some? && SubjectOf(ParseManifestBody(parse, "", body).value) == Some(s)
    ensures var k := Key(ns, ManifestDigest(H, body)); Listed(Run(H, parse, h), k, s) && !ActiveManifest(Run(H, parse, h), k)
  {
    var k, m := Key(ns, ManifestDigest(H, body)), ParseManifestBody(parse, "", body).value;
    var put := Put(ns, "", body, 0, true);
    var h1 := [Other(CreateNamespace(ns), true)];
    var h2, h3 := h1 + [put], h1 + [put] + [Delete(k, true)];
    h := h3 + [put];
    assert h1[..0] == [] && h2[..1] == h1 && h3[..2] == h2 && h[..3] == h3;
    var db1 := Exec(EMPTY_DB, CreateNamespace(ns)).value;
    assert Run(H, parse, h1) == db1 by { ExecAllSnoc(EMPTY_DB, [], CreateNamespace(ns)); assert [] + [CreateNamespace(ns)] == [CreateNamespace(ns)]; }
    StoreSucceeds(db1, k, m, |body|, 0);
    StoreEffect(db1, k, m, |body|, 0);
    RemoveEffect(Run(H, parse, h2), k);
    StoreSucceeds(Run(H, parse, h3), k, m, |body|, 0);
    StoreEffect(Run(H, parse, h3), k, m, |body|, 0);
  }

  lemma RevivedStays(H: Hashes, parse: Parser, U: iset<Bytes>, h: seq<Event>, e: Event, k: Key, s: Digest)
    requires CollisionFree(H, U) && Offers(U, h + [e]) && Revived(H, parse, h, k, s)
    ensures Revived(H, parse, h + [e], k, s)
  {
    assert (h + [e])[..|h|] == h && forall x :: x in h ==> x in h + [e];
    IndexFollowsScan(H, parse, U, h, k);
    RemoveEffect(Run(H, parse, h), k);
    if PutsAfter(H, parse, h, e, k) {
      assert e in h + [e];
      assert e.body == LatestPut(H, parse, h, k).value.body;
    }
  }

  lemma {:induction false} RevivedThroughout(H: Hashes, parse: Parser, U: iset<Bytes>, h: seq<Event>, more: seq<Event>, k: Key, s: Digest)
    requires CollisionFree(H, U) && Offers(U, h + more) && Revived(H, parse, h, k, s)
    ensures Revived(H, parse, h + more, k, s)
    decreases |more|
  {
    if more == [] {
      assert h + more == h;
    } else {
      assert h + more == h + [more[0]] + more[1..];
      assert Offers(U, h + [more[0]]) by { assert forall x :: x in h + [more[0]] ==> x in h + more; }
      RevivedStays(H, parse, U, h, more[0], k, s);
      RevivedThroughout(H, parse, U, h + [more[0]], more[1..], k, s);
    }
  }

  // A manifest put again after its deletion can never be unlisted: its row stays
  // pending_deletion, so every later DeleteManifest fails before DeleteReferrer runs.
  lemma ReputIsListedForEver(H: Hashes, parse: Parser, U: iset<Bytes>, h: seq<Event>, more: seq<Event>, k: Key, s: Digest)
    requires CollisionFree(H, U) && Offers(U, h + more) && Revived(H, parse, h, k, s)
    ensures Listed(Run(H, parse, h + more), k, s) && !ActiveManifest(Run(H, parse, h + more), k)
  {
    RevivedThroughout(H, parse, U, h, more, k, s);
    IndexFollowsScan(H, parse, U, h + more, k);
  }

  // ---- Manifest rows over whole histories ----

  // What a committed row keeps through any statement: it stays, its size and media type
  // do not change, it never becomes active again, and its namespace stays.
  ghost predicate RowPersists(db: Db, db': Db, k: Key)
  {
    k in db.manifests ==>
      && k in db'.manifests && k.ns in db'.namespaces
      && db'.manifests[k].size == db.manifests[k].size && db'.manifests[k].mediaType == db.manifests[k].mediaType
      && (db.manifests[k].lifecycle.PendingDeletion? ==> db'.manifests[k].lifecycle.PendingDeletion?)
  }

  lemma StmtKeepsRow(db: Db, stmt: Stmt, k: Key)
    requires Referential(db) && Exec(db, stmt).Ok?
    ensures Referential(Exec(db, stmt).value) && RowPersists(db, Exec(db, stmt).value, k)
  {
  }

  // No transaction, whatever its operations, deletes a manifest row, changes its size or
  // media type, makes it active again, or deletes its namespace.
  lemma {:induction false} ManifestRowsPersist(db: Db, body: seq<Stmt>, k: Key)
    requires Referential(db) && ExecAll(db, body).Ok?
    ensures Referential(ExecAll(db, body).value) && RowPersists(db, ExecAll(db, body).value, k)
    decreases |body|
  {
    if body != [] {
      StmtKeepsRow(db, body[0], k);
      ManifestRowsPersist(Exec(db, body[0]).value, body[1..], k);
    }
  }
}

// The part of the file system the blob store uses: names bound to inodes, and the
// system calls that change them.  A name stands for the path of
// internal/blobstore/fs/utils.go:13-19; module Paths proves that mapping injective.
module FileSystem {
  import opened Basics
  import opened Digests

  datatype Name = Staged(ns: string, id: string) | Committed(ns: string, digest: Digest)

  // A digest in a namespace: the primary key of every table and of every committed file.
  datatype Key = Key(ns: string, digest: Digest)

  // An inode number.  `ns` records the namespace whose call allocated it.
  datatype Ino = Ino(ns: string, num: nat)

  datatype Files = Files(names: map<Name, Ino>, inodes: map<Ino, Bytes>)

  // The name a blob is committed under.
  function BlobName(k: Key): Name { Name.Committed(k.ns, k.digest) }

  // Every bound name has an inode.
  ghost predicate WellFormed(fs: Files)
  {
    forall n :: n in fs.names ==> fs.names[n] in fs.inodes
  }

  // The bytes read through a name.
  function Content(fs: Files, n: Name): Bytes
    requires n in fs.names && fs.names[n] in fs.inodes
  {
    fs.inodes[fs.names[n]]
  }

  // O_CREATE|O_EXCL: binds an unbound name to a fresh empty inode.
  function Create(fs: Files, n: Name, ino: Ino): Files
  {
    Files(fs.names[n := ino], fs.inodes[ino := []])
  }

  // write(2) through a descriptor opened with O_APPEND.
  function Append(fs: Files, ino: Ino, data: Bytes): Files
    requires ino in fs.inodes
  {
    fs.(inodes := fs.inodes[ino := fs.inodes[ino] + data])
  }

  // link(2): `to` becomes a second name of the inode of `from`.
  function Link(fs: Files, from: Name, to: Name): Files
    requires from in fs.names
  {
    fs.(names := fs.names[to := fs.names[from]])
  }

  // unlink(2); unbound names are left alone, as removeFileIfExists does.
  function Unlink(fs: Files, n: Name): Files
  {
    fs.(names := fs.names - {n})
  }

  // Content-address safety: what a digest name holds hashes to that digest.
  ghost predicate ContentSafe(H: Hashes, fs: Files)
  {
    forall n :: n in fs.names && n.Committed? ==>
      fs.names[n] in fs.inodes && Matches(H, n.digest, Content(fs, n))
  }

  // The committed files of a file system, by digest.
  function CommittedFiles(fs: Files): (r: map<Key, Bytes>)
    requires WellFormed(fs)
    ensures forall k :: k in r <==> BlobName(k) in fs.names
    ensures forall k :: k in r ==> r[k] == Content(fs, BlobName(k))
  {
    var r := map n | n in fs.names && n.Committed? :: Key(n.ns, n.digest) := Content(fs, n);
    assert forall k :: BlobName(k) in fs.names ==> Key(BlobName(k).ns, BlobName(k).digest) in r;
    r
  }

  lemma ShownAs(fs: Files, files: map<Key, Bytes>)
    requires WellFormed(fs) && forall x :: BlobName(x) in fs.names <==> x in files
    requires forall x :: x in files ==> Content(fs, BlobName(x)) == files[x]
    ensures CommittedFiles(fs) == files
  {
    assert CommittedFiles(fs).Keys == files.Keys;
  }
}

// internal/blobstore/digest.go: digests as `algorithm:hex` text, and hashing as a
// streaming fold over an arbitrary hash function.
module Digests {
  import opened Basics

  type Digest = string

  // One hash function as a state machine over bytes.  Nothing is assumed of it
  // unless a lemma asks for `CollisionFree`.
  datatype Hasher = Hasher(init: int, step: (int, byte) -> int, finish: int -> string)

  // The hash functions, by algorithm name.
  type Hashes = string -> Hasher

  // The hasher's state after it has been fed `data`, starting from `st`.
  function Absorb(h: Hasher, st: int, data: Bytes): int
    decreases |data|
  {
    if data == [] then st else Absorb(h, h.step(st, data[0]), data[1..])
  }

  // Feeding two chunks is feeding their concatenation: a hash computed while the
  // bytes stream past is the hash of the file they end up in.
  lemma {:induction false} AbsorbConcat(h: Hasher, st: int, a: Bytes, b: Bytes)
    ensures Absorb(h, st, a + b) == Absorb(h, Absorb(h, st, a), b)
    decreases |a|
  {
    if a == [] {
      assert a + b == b;
    } else {
      assert (a + b)[1..] == a[1..] + b;
      AbsorbConcat(h, h.step(st, a[0]), a[1..], b);
    }
  }

  function Sum(H: Hashes, alg: string, data: Bytes): Digest
  {
    alg + ":" + H(alg).finish(Absorb(H(alg), H(alg).init, data))
  }

  // No two of the byte strings in `U` share a digest.
  ghost predicate CollisionFree(H: Hashes, U: iset<Bytes>)
  {
    forall alg: string, a: Bytes, b: Bytes :: a in U && b in U && Sum(H, alg, a) == Sum(H, alg, b) ==> a == b
  }

  // Length in hex digits of each available algorithm's output.
  function HexLength(alg: string): Option<nat>
  {
    if alg == "sha256" then Some(64)
    else if alg == "sha384" then Some(96)
    else if alg == "sha512" then Some(128)
    else None
  }

  predicate HexDigit(c: char) { '0' <= c <= '9' || 'a' <= c <= 'f' }

  predicate ValidHex(s: string, n: nat)
  {
    |s| == n && forall i :: 0 <= i < |s| ==> HexDigit(s[i])
  }

  // The position of the first colon, or the length when there is none.
  function Colon(d: Digest): (i: nat)
    ensures i <= |d|
    ensures i < |d| ==> d[i] == ':'
    ensures forall j :: 0 <= j < i ==> d[j] != ':'
  {
    if d == "" then 0 else if d[0] == ':' then 0 else 1 + Colon(d[1..])
  }

  function Algorithm(d: Digest): string { d[..Colon(d)] }

  function Hex(d: Digest): string { if Colon(d) < |d| then d[Colon(d) + 1..] else "" }

  predicate ValidDigest(d: Digest)
  {
    && Colon(d) < |d|
    && HexLength(Algorithm(d)).Some?
    && ValidHex(Hex(d), HexLength(Algorithm(d)).value)
  }

  lemma ColonAt(a: string, h: string)
    requires ':' !in a
    ensures Colon(a + ":" + h) == |a|
  {
    var d := a + ":" + h;
    assert d[|a|] == ':' && forall j :: 0 <= j < |a| ==> d[j] == a[j] && a[j] in a;
  }

  lemma HexDigits(c: char)
    ensures HexDigit(c) <==> c in "0123456789abcdef"
  {
    var digits := "0123456789abcdef";
    assert forall i :: 0 <= i < 16 ==> HexDigit(digits[i]);
    if '0' <= c <= '9' {
      assert digits[c as int - '0' as int] == c;
    } else if 'a' <= c <= 'f' {
      assert digits[10 + (c as int - 'a' as int)] == c;
    }
  }

  // One of three algorithms, a colon, and that algorithm's number of lower-case hex digits.
  predicate Reads(d: Digest, alg: string, hex: string)
  {
    && d == alg + ":" + hex && (forall i :: 0 <= i < |hex| ==> hex[i] in "0123456789abcdef")
    && ((alg == "sha256" && |hex| == 64) || (alg == "sha384" && |hex| == 96) || (alg == "sha512" && |hex| == 128))
  }

  // A digest is valid exactly when it reads so, and it reads so in one way.
  lemma ValidDigestExactly(d: Digest)
    ensures ValidDigest(d) <==> Reads(d, Algorithm(d), Hex(d))
    ensures forall alg, hex :: Reads(d, alg, hex) ==> alg == Algorithm(d) && hex == Hex(d)
  {
    forall i | 0 <= i < |Hex(d)| ensures HexDigit(Hex(d)[i]) <==> Hex(d)[i] in "0123456789abcdef" {
      HexDigits(Hex(d)[i]);
    }
    if ValidDigest(d) { DigestParts(d); }
    forall alg, hex | Reads(d, alg, hex) ensures alg == Algorithm(d) && hex == Hex(d) {
      ColonAt(alg, hex);
      assert d[..|alg|] == alg && d[|alg| + 1..] == hex;
    }
  }

  // The check made before anything is committed: `data` hashes to `d`.
  predicate Matches(H: Hashes, d: Digest, data: Bytes)
  {
    Sum(H, Algorithm(d), data) == d
  }

  // A valid digest is its algorithm, a colon and its hex part, so the pair
  // (algorithm, hex) determines it.
  lemma DigestParts(d: Digest)
    requires ValidDigest(d)
    ensures d == Algorithm(d) + ":" + Hex(d)
    ensures Algorithm(d) != "" && Hex(d) != ""
  {
  }
}

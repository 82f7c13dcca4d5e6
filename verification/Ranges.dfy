// rest/range.go, GetBlobRange of internal/blob/service.go and internal/blobstore/fs/reader.go,
// and the range branch of rest/blob.go, in 64-bit arithmetic.
module Ranges {
  import opened Basics

  const MAX_INT64: int := 0x7FFF_FFFF_FFFF_FFFF

  predicate Int64(x: int) { -MAX_INT64 - 1 <= x <= MAX_INT64 }

  // Go's int64 arithmetic wraps around.
  function Wrap64(x: int): int { (x + 0x8000_0000_0000_0000) % 0x1_0000_0000_0000_0000 - 0x8000_0000_0000_0000 }

  // ---- Parsing ----

  predicate Digits(s: string) { s != "" && forall i :: 0 <= i < |s| ==> '0' <= s[i] <= '9' }

  // The number the digits write, however long they are.
  function Value(s: string): nat
    requires s == "" || Digits(s)
  {
    if s == "" then 0 else 10 * Value(s[..|s| - 1]) + (s[|s| - 1] - '0') as int
  }

  // strconv.ParseInt whose error is ignored: out of range it returns the largest int64.
  function ParseInt(s: string): (n: int)
    requires Digits(s)
    ensures 0 <= n <= MAX_INT64
  {
    if Value(s) > MAX_INT64 then MAX_INT64 else Value(s)
  }

  function Dash(s: string): (i: nat)
    ensures i <= |s|
    ensures i < |s| ==> s[i] == '-'
    ensures forall j :: 0 <= j < i ==> s[j] != '-'
  {
    if s == "" || s[0] == '-' then 0 else 1 + Dash(s[1..])
  }

  // ^([0-9]+)-([0-9]+)$
  function Submatches(s: string): Option<(string, string)>
  {
    var i := Dash(s);
    if i < |s| && Digits(s[..i]) && Digits(s[i + 1..]) then Some((s[..i], s[i + 1..])) else None
  }

  function Parse(s: string): Option<(int, int)>
  {
    match Submatches(s)
    case None => None
    case Some((a, b)) =>
      assert Digits(a) && Digits(b);
      var first, last := ParseInt(a), ParseInt(b);
      if first > last then None else Some((first, last))
  }

  const BYTES := "bytes="

  function ParseRangeHeader(header: string): Option<(int, int)>
  {
    if BYTES <= header then Parse(header[|BYTES|..]) else None
  }

  function ParseContentRangeHeader(header: string): Option<(int, int)> { Parse(header) }

  // The two submatches are the only way to read the text as a pair of numbers.
  lemma SubmatchesExactly(s: string, a: string, b: string)
    ensures Submatches(s) == Some((a, b)) <==> Digits(a) && Digits(b) && s == a + "-" + b
  {
    var i := Dash(s);
    if Submatches(s) == Some((a, b)) {
      assert s == s[..i] + [s[i]] + s[i + 1..];
    }
    if Digits(a) && Digits(b) && s == a + "-" + b {
      assert s[|a|] == '-' && forall j :: 0 <= j < |a| ==> s[j] == a[j];
      assert i == |a| && s[..i] == a && s[i + 1..] == b;
    }
  }

  predicate Reads(s: string, a: string, b: string) { Digits(a) && Digits(b) && s == a + "-" + b }

  // The text gives two numbers, in order, each no larger than an int64 can hold; larger ones
  // count as the largest.
  ghost predicate Says(s: string, first: int, last: int)
  {
    exists a, b :: Reads(s, a, b) && first == Capped(Value(a)) && last == Capped(Value(b)) && first <= last
  }

  function Capped(n: nat): int { if n > MAX_INT64 then MAX_INT64 else n }

  // The header asks for these bytes.
  ghost predicate Asks(header: string, first: int, last: int)
  {
    exists s :: header == BYTES + s && Says(s, first, last)
  }

  // A Content-Range header is accepted exactly when it says two numbers in order, and then
  // they are what it is read as.
  lemma ContentRangeExactly(s: string, first: int, last: int)
    ensures ParseContentRangeHeader(s) == Some((first, last)) <==> Says(s, first, last)
  {
    if Says(s, first, last) {
      var a, b :| Reads(s, a, b) && first == Capped(Value(a)) && last == Capped(Value(b)) && first <= last;
      SubmatchesExactly(s, a, b);
    }
    if Submatches(s).Some? {
      var (a, b) := Submatches(s).value;
      SubmatchesExactly(s, a, b);
      assert Reads(s, a, b);
    }
  }

  // So is a Range header, after its unit.
  lemma RangeExactly(header: string, first: int, last: int)
    ensures ParseRangeHeader(header) == Some((first, last)) <==> Asks(header, first, last)
  {
    if BYTES <= header {
      var s := header[|BYTES|..];
      assert header == BYTES + s;
      ContentRangeExactly(s, first, last);
    }
    if Asks(header, first, last) {
      var s :| header == BYTES + s && Says(s, first, last);
      HeaderParses(s);
      ContentRangeExactly(s, first, last);
    }
  }

  // A header that asks for no bytes is not accepted.
  lemma UnusableExactly(header: string)
    ensures ParseRangeHeader(header).None? <==> forall first, last :: !Asks(header, first, last)
  {
    forall first, last ensures ParseRangeHeader(header) == Some((first, last)) <==> Asks(header, first, last) {
      RangeExactly(header, first, last);
    }
    if ParseRangeHeader(header).Some? {
      var (first, last) := ParseRangeHeader(header).value;
      assert Asks(header, first, last);
    }
  }

  lemma HeaderParses(s: string)
    ensures ParseRangeHeader(BYTES + s) == Parse(s)
  {
  }

  // Against unbounded numbers both parsers err on exactly one family: ranges that run
  // backwards beyond the largest int64, which saturation turns into a single position.
  lemma ParseAgreesExactly(s: string, a: string, b: string)
    requires Digits(a) && Digits(b) && s == a + "-" + b
    ensures (ParseRangeHeader(BYTES + s).Some? <==> Value(a) <= Value(b)) <==> !(MAX_INT64 <= Value(b) < Value(a))
    ensures (ParseContentRangeHeader(s).Some? <==> Value(a) <= Value(b)) <==> !(MAX_INT64 <= Value(b) < Value(a))
  {
    HeaderParses(s);
    SubmatchesExactly(s, a, b);
  }

  // The decimal text of a number.
  function Decimal(n: nat): (s: string)
    ensures Digits(s)
  {
    var digit := ["0123456789"[n % 10]];
    if n < 10 then digit else Decimal(n / 10) + digit
  }

  // Every number up to the largest int64 comes back from its text, and every pair of them in
  // order from a header.
  lemma {:induction false} DecimalReadsBack(n: nat)
    ensures Value(Decimal(n)) == n
  {
    var s, digits := Decimal(n), "0123456789";
    assert forall i :: 0 <= i < 10 ==> (digits[i] - '0') as int == i;
    if n >= 10 {
      assert s[..|s| - 1] == Decimal(n / 10);
      DecimalReadsBack(n / 10);
    }
  }

  lemma RangeReadsBack(first: nat, last: nat)
    requires first <= last <= MAX_INT64
    ensures ParseRangeHeader(BYTES + (Decimal(first) + "-" + Decimal(last))) == Some((first, last))
    ensures ParseContentRangeHeader(Decimal(first) + "-" + Decimal(last)) == Some((first, last))
  {
    var s := Decimal(first) + "-" + Decimal(last);
    DecimalReadsBack(first);
    DecimalReadsBack(last);
    HeaderParses(s);
    SubmatchesExactly(s, Decimal(first), Decimal(last));
  }

  function Nines(n: nat): string { if n == 0 then "" else Nines(n - 1) + "9" }

  function Pow10(n: nat): nat { if n == 0 then 1 else 10 * Pow10(n - 1) }

  lemma {:induction false} NinesValue(n: nat)
    requires n > 0
    ensures Digits(Nines(n)) && Value(Nines(n)) == Pow10(n) - 1
  {
    var s := Nines(n);
    assert s[..|s| - 1] == Nines(n - 1);
    if n > 1 { NinesValue(n - 1); }
  }

  lemma {:induction false} Pow10Exceeds(n: nat)
    requires n >= 20
    ensures Pow10(n) > MAX_INT64 + 1
  {
    if n == 20 {
      assert Pow10(5) == 100000 && Pow10(10) == 10000000000 && Pow10(15) == 1000000000000000;
    } else {
      Pow10Exceeds(n - 1);
    }
  }

  // Such ranges: from n + 1 nines back to n nines, for any n from 20 on.
  lemma BackwardsIsAccepted(n: nat)
    requires n >= 20
    ensures var a, b := Nines(n + 1), Nines(n);
      Digits(a) && Digits(b) && Value(a) > Value(b) && Parse(a + "-" + b) == Some((MAX_INT64, MAX_INT64))
  {
    NinesValue(n + 1);
    NinesValue(n);
    Pow10Exceeds(n);
    SubmatchesExactly(Nines(n + 1) + "-" + Nines(n), Nines(n + 1), Nines(n));
  }

  // ---- Reading ----

  datatype RangeError = InvalidRange | BlobUnknown | RangeNotSatisfiable | IoError

  class OpenFile {
    const data: Bytes
    var pos: int

    constructor (data: Bytes)
      ensures this.data == data && pos == 0
    {
      this.data := data;
      pos := 0;
    }

    method Seek(offset: int)
      modifies this
      ensures pos == offset
    {
      pos := offset;
    }

    // io.CopyN: reads of whatever size the system delivers at a position, until `n` bytes
    // are written or a read delivers none.
    method CopyN(n: int, delivers: int -> nat) returns (written: Bytes)
      requires 0 <= n && 0 <= pos <= |data|
      modifies this
      ensures |written| <= n && old(pos) + |written| <= |data| && written == data[old(pos)..old(pos) + |written|]
      ensures (forall p :: 0 <= p < |data| ==> delivers(p) > 0) ==> |written| == n || old(pos) + |written| == |data|
    {
      written := [];
      while |written| < n && pos < |data|
        invariant pos == old(pos) + |written| && |written| <= n && pos <= |data|
        invariant written == data[old(pos)..pos]
        decreases n - |written|
      {
        var k := delivers(pos);
        if k == 0 {
          break;
        }
        if k > n - |written| {
          k := n - |written|;
        }
        if k > |data| - pos {
          k := |data| - pos;
        }
        assert data[old(pos)..pos] + data[pos..pos + k] == data[old(pos)..pos + k];
        written := written + data[pos..pos + k];
        pos := pos + k;
      }
    }
  }

  // What the operating system lets succeed while a range is read.
  datatype ReadEnv = ReadEnv(opens: bool, stats: bool, seeks: bool, delivers: int -> nat)

  // Nothing fails, and reads deliver until the end of the file.
  ghost predicate Delivers(env: ReadEnv)
  {
    env.opens && env.stats && env.seeks && forall p :: env.delivers(p) > 0
  }

  method GetBlobRange(file: Option<Bytes>, first: int, last: int, env: ReadEnv) returns (written: Bytes, err: Option<RangeError>)
    requires Int64(first) && Int64(last) && (file.Some? ==> |file.value| <= MAX_INT64)
    ensures err.None? ==> file.Some? && 0 <= first <= last < |file.value| && written == file.value[first..last + 1]
    ensures err.Some? && written != [] ==> file.Some? && 0 <= first <= last < |file.value| && written <= file.value[first..last + 1]
    ensures err == Some(InvalidRange) <==> first < 0 || last < first
    ensures err == Some(BlobUnknown) <==> 0 <= first <= last && file.None?
    ensures err == Some(RangeNotSatisfiable) <==> 0 <= first <= last && file.Some? && env.opens && env.stats && last >= |file.value|
    ensures Delivers(env) && file.Some? && 0 <= first <= last < |file.value| ==> err.None?
  {
    if first < 0 || last < first {
      return [], Some(InvalidRange);
    }
    if file.None? {
      return [], Some(BlobUnknown);
    }
    if !env.opens || !env.stats {
      return [], Some(IoError);
    }
    var f := new OpenFile(file.value);
    if last >= |f.data| {
      return [], Some(RangeNotSatisfiable);
    }
    if !env.seeks {
      return [], Some(IoError);
    }
    f.Seek(first);
    var n := Wrap64(last - first + 1);
    written := f.CopyN(n, env.delivers);
    assert f.data[first..last + 1] == f.data[first..first + n];
    err := if |written| < n then Some(IoError) else None;
  }

  // ---- Serving ----

  datatype Response =
    | Full
    | Partial(first: int, last: int, total: int, length: int, body: Bytes, complete: bool)
    | NotSatisfiable(total: int)

  // The GET of a blob whose row says `size`, given its file.  An unusable Range header is
  // ignored; the status and the length are sent before the bytes are read.
  method ServeBlob(header: string, size: int, file: Option<Bytes>, env: ReadEnv) returns (r: Response)
    requires 0 <= size <= MAX_INT64 && (file.Some? ==> |file.value| <= MAX_INT64)
    ensures r.Full? <==> forall first, last :: !Asks(header, first, last)
    ensures r.NotSatisfiable? <==> exists first, last :: Asks(header, first, last) && last >= size
    ensures r.NotSatisfiable? ==> r.total == size
    ensures r.Partial? ==>
      && Asks(header, r.first, r.last) && r.total == size
      && 0 <= r.first <= r.last < size && r.length == r.last - r.first + 1
      && (r.complete ==> file.Some? && r.last < |file.value| && r.body == file.value[r.first..r.last + 1] && |r.body| == r.length)
      && (file.Some? && |file.value| == size && Delivers(env) ==> r.complete)
  {
    UnusableExactly(header);
    if ParseRangeHeader(header).None? {
      return Full;
    }
    var (first, last) := ParseRangeHeader(header).value;
    forall f, l ensures Asks(header, f, l) <==> f == first && l == last { RangeExactly(header, f, l); }
    if last >= size {
      return NotSatisfiable(size);
    }
    var partialSize := Wrap64(last - first + 1);
    var body, err := GetBlobRange(file, first, last, env);
    r := Partial(first, last, size, partialSize, body, err.None?);
  }

  lemma WrapFits(x: int)
    requires Int64(x)
    ensures Wrap64(x) == x
  {
  }

  // A range accepted against the size is the range the digits write: neither bound was
  // saturated, and the length does not overflow.
  lemma AcceptedIsUnsaturated(s: string, a: string, b: string, size: int)
    requires Digits(a) && Digits(b) && s == a + "-" + b && size <= MAX_INT64
    requires ParseRangeHeader(BYTES + s).Some? && ParseRangeHeader(BYTES + s).value.1 < size
    ensures var (first, last) := ParseRangeHeader(BYTES + s).value;
      first == Value(a) && last == Value(b) && Wrap64(last - first + 1) == last - first + 1
  {
    HeaderParses(s);
    SubmatchesExactly(s, a, b);
    WrapFits(Value(b) - Value(a) + 1);
  }
}

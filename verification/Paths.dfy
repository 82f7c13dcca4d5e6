// internal/blobstore/fs/utils.go: the paths of committed blobs and staged uploads, as
// filepath.Join and filepath.Clean build them.
module Paths {
  import opened Basics
  import opened Digests
  import opened FileSystem
  import opened NameGrammar
  import Directories
  import StagingVacuum

  // ---- Slashes ----

  function Split(s: string): (r: seq<string>)
    ensures r != []
  {
    if s == "" then [""]
    else
      var r := Split(s[1..]);
      if s[0] == '/' then [""] + r else [[s[0]] + r[0]] + r[1..]
  }

  function Glue(cs: seq<string>): string
    requires cs != []
  {
    if |cs| == 1 then cs[0] else cs[0] + "/" + Glue(cs[1..])
  }

  predicate NoSlash(c: string) { '/' !in c }

  lemma {:induction false} GlueSplit(s: string)
    ensures Glue(Split(s)) == s
    ensures forall c :: c in Split(s) ==> NoSlash(c)
  {
    if s != "" {
      var r := Split(s[1..]);
      GlueSplit(s[1..]);
      assert s == [s[0]] + s[1..];
      if s[0] == '/' {
        assert ([""] + r)[1..] == r;
      } else {
        var r' := [[s[0]] + r[0]] + r[1..];
        assert r'[1..] == r[1..];
        assert r[0] in r;
        forall c | c in r' ensures NoSlash(c) { assert c == [s[0]] + r[0] || c in r; }
      }
    }
  }

  lemma {:induction false} SplitConcat(a: string, b: string)
    ensures Split(a + "/" + b) == Split(a) + Split(b)
    decreases |a|
  {
    var s := a + "/" + b;
    if a == "" {
      assert s[0] == '/' && s[1..] == b;
    } else {
      assert s[1..] == a[1..] + "/" + b;
      SplitConcat(a[1..], b);
    }
  }

  lemma {:induction false} SplitNoSlash(c: string)
    requires NoSlash(c)
    ensures Split(c) == [c]
  {
    if c != "" {
      assert c[0] in c && forall x :: x in c[1..] ==> x in c;
      SplitNoSlash(c[1..]);
      assert [c[0]] + c[1..] == c;
    }
  }

  lemma {:induction false} SplitGlue(cs: seq<string>)
    requires cs != [] && forall c :: c in cs ==> NoSlash(c)
    ensures Split(Glue(cs)) == cs
  {
    assert cs[0] in cs;
    SplitNoSlash(cs[0]);
    if |cs| > 1 {
      SplitGlue(cs[1..]);
      SplitConcat(cs[0], Glue(cs[1..]));
      assert cs == [cs[0]] + cs[1..];
    } else {
      assert cs == [cs[0]];
    }
  }

  lemma {:induction false} GlueConcat(a: seq<string>, b: seq<string>)
    requires a != [] && b != []
    ensures Glue(a + b) == Glue(a) + "/" + Glue(b)
    decreases |a|
  {
    if |a| == 1 {
      assert (a + b)[1..] == b;
    } else {
      assert (a + b)[1..] == a[1..] + b;
      GlueConcat(a[1..], b);
    }
  }

  // ---- filepath.Clean ----

  // Components one by one: empty ones and "." vanish, ".." takes back the one before.
  function Fold(stack: seq<string>, cs: seq<string>, rooted: bool): seq<string>
    decreases |cs|
  {
    if cs == [] then stack
    else
      var c := cs[0];
      var stack' :=
        if c == "" || c == "." then stack
        else if c != ".." then stack + [c]
        else if stack != [] && stack[|stack| - 1] != ".." then stack[..|stack| - 1]
        else if rooted then stack
        else stack + [c];
      Fold(stack', cs[1..], rooted)
  }

  predicate Rooted(s: string) { s != "" && s[0] == '/' }

  function Render(rooted: bool, cs: seq<string>): string
  {
    (if rooted then "/" else if cs == [] then "." else "") + if cs == [] then "" else Glue(cs)
  }

  function Clean(s: string): string { Render(Rooted(s), Fold([], Split(s), Rooted(s))) }

  // filepath.Join of a prefix and further, non-empty elements.
  function Join(prefix: string, elems: seq<string>): string
    requires elems != []
  {
    Clean(if prefix == "" then Glue(elems) else prefix + "/" + Glue(elems))
  }

  // A component that cleaning keeps.
  predicate Plain(c: string) { c != "" && c != "." && c != ".." && NoSlash(c) }

  predicate AllPlain(cs: seq<string>) { forall c :: c in cs ==> Plain(c) }

  lemma {:induction false} FoldPlain(stack: seq<string>, cs: seq<string>, rooted: bool)
    requires AllPlain(cs)
    ensures Fold(stack, cs, rooted) == stack + cs
    decreases |cs|
  {
    if cs != [] {
      assert cs[0] in cs;
      FoldPlain(stack + [cs[0]], cs[1..], rooted);
      assert stack + [cs[0]] + cs[1..] == stack + cs;
    }
  }

  lemma {:induction false} FoldConcat(stack: seq<string>, a: seq<string>, b: seq<string>, rooted: bool)
    ensures Fold(stack, a + b, rooted) == Fold(Fold(stack, a, rooted), b, rooted)
    decreases |a|
  {
    if a == [] {
      assert a + b == b;
    } else {
      assert (a + b)[1..] == a[1..] + b;
      var c := a[0];
      var stack' :=
        if c == "" || c == "." then stack
        else if c != ".." then stack + [c]
        else if stack != [] && stack[|stack| - 1] != ".." then stack[..|stack| - 1]
        else if rooted then stack
        else stack + [c];
      FoldConcat(stack', a[1..], b, rooted);
    }
  }

  // The components of the cleaned prefix.
  function Base(prefix: string): seq<string> { if prefix == "" then [] else Fold([], Split(prefix), Rooted(prefix)) }

  // Joining plain components below any prefix only appends them.
  lemma JoinAppends(prefix: string, elems: seq<string>)
    requires elems != [] && AllPlain(Split(Glue(elems)))
    ensures Join(prefix, elems) == Render(Rooted(prefix), Base(prefix) + Split(Glue(elems)))
  {
    var rest := Glue(elems);
    GlueSplit(rest);
    if prefix == "" {
      assert Split(rest)[0] in Split(rest);
      assert !Rooted(rest);
      FoldPlain([], Split(rest), false);
      assert [] + Split(rest) == Split(rest);
    } else {
      var s := prefix + "/" + rest;
      assert Rooted(s) == Rooted(prefix);
      SplitConcat(prefix, rest);
      FoldConcat([], Split(prefix), Split(rest), Rooted(prefix));
      FoldPlain(Base(prefix), Split(rest), Rooted(prefix));
    }
  }

  lemma {:induction false} FoldMembers(stack: seq<string>, cs: seq<string>, rooted: bool)
    ensures forall c :: c in Fold(stack, cs, rooted) ==> c in stack || c in cs
    decreases |cs|
  {
    if cs != [] {
      var c := cs[0];
      var stack' :=
        if c == "" || c == "." then stack
        else if c != ".." then stack + [c]
        else if stack != [] && stack[|stack| - 1] != ".." then stack[..|stack| - 1]
        else if rooted then stack
        else stack + [c];
      FoldMembers(stack', cs[1..], rooted);
    }
  }

  lemma BaseHasNoSlash(prefix: string)
    ensures forall c :: c in Base(prefix) ==> NoSlash(c)
  {
    GlueSplit(prefix);
    FoldMembers([], Split(prefix), Rooted(prefix));
  }

  lemma RenderInjective(rooted: bool, a: seq<string>, b: seq<string>)
    requires a != [] && b != [] && (forall c :: c in a ==> NoSlash(c)) && (forall c :: c in b ==> NoSlash(c))
    requires Render(rooted, a) == Render(rooted, b)
    ensures a == b
  {
    var lead := if rooted then "/" else "";
    assert Render(rooted, a)[|lead|..] == Glue(a) && Render(rooted, b)[|lead|..] == Glue(b);
    SplitGlue(a);
    SplitGlue(b);
  }

  // ---- Names ----

  // A component of a valid name: it begins with a letter or a digit.
  predicate Worded(c: string) { c != "" && Alnum(c[0]) && NoSlash(c) }

  lemma {:induction false} ScanParts(q: Mode, s: string)
    requires Scan(q, s) == Word
    ensures forall i :: 0 < i < |Split(s)| ==> Worded(Split(s)[i])
    ensures q == Begin ==> Worded(Split(s)[0])
    ensures NoSlash(Split(s)[0])
    decreases |s|
  {
    GlueSplit(s);
    if s != "" {
      var r := Split(s[1..]);
      var q' := Next(q, s[0]);
      if q'.Stuck? { StuckStays(s[1..]); }
      ScanParts(q', s[1..]);
      if s[0] == '/' {
        assert q' == Begin;
        assert forall i :: 0 < i < |Split(s)| ==> Split(s)[i] == r[i - 1];
      } else {
        assert forall i :: 0 < i < |Split(s)| ==> Split(s)[i] == r[i];
        assert Split(s)[0] == [s[0]] + r[0];
      }
    }
  }

  lemma ValidNameParts(ns: string)
    requires ValidName(ns)
    ensures forall c :: c in Split(ns) ==> Worded(c) && Plain(c) && c != ".staging"
  {
    ScanParts(Begin, ns);
    forall c | c in Split(ns) ensures Worded(c) && Plain(c) && c != ".staging" {
      var i :| 0 <= i < |Split(ns)| && Split(ns)[i] == c;
      assert Worded(Split(ns)[i]);
    }
  }

  // The text of a version-4 UUID: hex digits and dashes.
  predicate IssuedId(id: string)
  {
    |id| == 36 && HexDigit(id[0]) && forall i :: 0 <= i < |id| ==> HexDigit(id[i]) || id[i] == '-'
  }

  // The names the store is given: valid namespaces, valid digests and issued ids.
  predicate Proper(n: Name)
  {
    ValidName(n.ns) && match n case Staged(_, id) => IssuedId(id) case Committed(_, d) => ValidDigest(d)
  }

  // Everything below the namespace's directory.
  function Leaf(n: Name): seq<string>
  {
    match n case Staged(_, id) => [".staging", id] case Committed(_, d) => [Algorithm(d), Hex(d)]
  }

  function Parts(n: Name): seq<string> { Split(n.ns) + Leaf(n) }

  // buildStagingPath and buildBlobPath.
  function PathOf(prefix: string, n: Name): string { Join(prefix, [n.ns] + Leaf(n)) }

  lemma LeafIsPlain(n: Name)
    requires Proper(n)
    ensures AllPlain(Leaf(n))
    ensures n.Committed? ==> Worded(Leaf(n)[0]) && |Leaf(n)[0]| == 6 && Worded(Leaf(n)[1]) && |Leaf(n)[1]| >= 64
  {
  }

  lemma PartsArePlain(n: Name)
    requires Proper(n)
    ensures AllPlain(Parts(n)) && Glue([n.ns] + Leaf(n)) == Glue(Parts(n)) && Split(Glue(Parts(n))) == Parts(n)
  {
    ValidNameParts(n.ns);
    LeafIsPlain(n);
    GlueSplit(n.ns);
    GlueConcat(Split(n.ns), Leaf(n));
    GlueConcat([n.ns], Leaf(n));
    SplitGlue(Parts(n));
  }

  lemma PathOfIs(prefix: string, n: Name)
    requires Proper(n)
    ensures PathOf(prefix, n) == Render(Rooted(prefix), Base(prefix) + Parts(n))
  {
    PartsArePlain(n);
    JoinAppends(prefix, [n.ns] + Leaf(n));
  }

  lemma PartsText(n: Name)
    ensures Glue(Parts(n)) == n.ns + "/" + (Leaf(n)[0] + "/" + Leaf(n)[1])
  {
    var leaf := Leaf(n);
    GlueSplit(n.ns);
    GlueConcat(Split(n.ns), leaf);
    assert leaf[1..] == [leaf[1]];
    assert Glue(leaf) == leaf[0] + "/" + leaf[1];
  }

  lemma RenderConcat(rooted: bool, a: seq<string>, b: seq<string>)
    requires a != [] && b != []
    ensures Render(rooted, a + b) == Render(rooted, a) + "/" + Glue(b)
  {
    GlueConcat(a, b);
  }

  // A prefix as it stands before what is joined to it.
  function Lead(prefix: string): string
  {
    if prefix == "" || prefix == "." then "" else if prefix == "/" then "/" else prefix + "/"
  }

  lemma ShortPrefixes()
    ensures Base("") == [] && Base(".") == [] && Base("/") == []
  {
  }

  // Cleaning changes nothing: below a clean prefix, or none, a path is its elements with
  // slashes between them.
  lemma CleaningIsIdentity(prefix: string, n: Name)
    requires Proper(n) && (Clean(prefix) == prefix || prefix == "")
    ensures PathOf(prefix, n) == Lead(prefix) + (n.ns + "/" + (if n.Staged? then ".staging/" + n.id else Algorithm(n.digest) + "/" + Hex(n.digest)))
  {
    assert n.Staged? ==> ".staging/" + n.id == ".staging" + "/" + n.id;
    PathOfIs(prefix, n);
    PartsText(n);
    ShortPrefixes();
    assert [] + Parts(n) == Parts(n);
    if Base(prefix) != [] { RenderConcat(Rooted(prefix), Base(prefix), Parts(n)); }
  }

  // Blob and staging paths are jointly injective: different names have different paths.
  lemma PathsInjective(prefix: string, a: Name, b: Name)
    requires Proper(a) && Proper(b) && PathOf(prefix, a) == PathOf(prefix, b)
    ensures a == b
  {
    PathOfIs(prefix, a);
    PathOfIs(prefix, b);
    BaseHasNoSlash(prefix);
    PartsArePlain(a);
    PartsArePlain(b);
    RenderInjective(Rooted(prefix), Base(prefix) + Parts(a), Base(prefix) + Parts(b));
    var k := |Base(prefix)|;
    assert (Base(prefix) + Parts(a))[k..] == Parts(a) && (Base(prefix) + Parts(b))[k..] == Parts(b);
    PartsInjective(a, b);
  }

  lemma PartsInjective(a: Name, b: Name)
    requires Proper(a) && Proper(b) && Parts(a) == Parts(b)
    ensures a == b
  {
    var k := |Parts(a)| - 2;
    assert Parts(a)[..k] == Split(a.ns) && Parts(b)[..k] == Split(b.ns);
    assert Parts(a)[k] == Leaf(a)[0] && Parts(b)[k] == Leaf(b)[0];
    assert Parts(a)[k + 1] == Leaf(a)[1] && Parts(b)[k + 1] == Leaf(b)[1];
    GlueSplit(a.ns);
    GlueSplit(b.ns);
    LeafIsPlain(a);
    LeafIsPlain(b);
    if a.Committed? && b.Committed? {
      DigestParts(a.digest);
      DigestParts(b.digest);
    }
  }

  // ---- Files and directories ----

  // The text of a blob's path below the prefix, itself a well-formed repository name.
  function BlobText(k: Key): string { k.ns + "/" + Algorithm(k.digest) + "/" + Hex(k.digest) }

  lemma {:induction false} AlnumScans(q: Mode, s: string)
    requires !q.Stuck? && s != "" && forall i :: 0 <= i < |s| ==> Alnum(s[i])
    ensures Scan(q, s) == Word
    decreases |s|
  {
    if |s| > 1 { AlnumScans(Word, s[1..]); }
  }

  // So the collision below can happen: nothing stops a client from using that name.
  lemma BlobTextIsValidName(k: Key)
    requires ValidName(k.ns) && ValidDigest(k.digest)
    ensures ValidName(BlobText(k))
  {
    var alg, hex := Algorithm(k.digest), Hex(k.digest);
    AlnumScans(Begin, alg);
    AlnumScans(Begin, hex);
    ScanConcat(Begin, k.ns, "/");
    ScanConcat(Begin, k.ns + "/", alg);
    ScanConcat(Begin, k.ns + "/" + alg, "/");
    ScanConcat(Begin, k.ns + "/" + alg + "/", hex);
    assert Scan(Word, "/") == Begin by { ScanCons(Word, '/', ""); assert ['/'] + "" == "/"; }
    assert BlobText(k) == k.ns + "/" + alg + "/" + hex;
  }

  // The name is the text or extends it by further components.
  predicate Extends(ns: string, text: string) { ns == text || text + "/" <= ns }

  lemma PartsExtend(ns: string, text: string)
    requires Split(text) <= Split(ns)
    ensures Extends(ns, text)
  {
    GlueSplit(ns);
    GlueSplit(text);
    var rest := Split(ns)[|Split(text)|..];
    assert Split(ns) == Split(text) + rest;
    if rest == [] {
      assert Split(ns) == Split(text);
    } else {
      GlueConcat(Split(text), rest);
      assert ns == text + "/" + Glue(rest);
    }
  }

  lemma ExtendsParts(ns: string, text: string)
    ensures Extends(ns, text) <==> Split(text) <= Split(ns)
  {
    if Split(text) <= Split(ns) { PartsExtend(ns, text); }
    if text + "/" <= ns {
      var rest := ns[|text| + 1..];
      assert ns == text + "/" + rest;
      SplitConcat(text, rest);
    }
  }

  // One file's path is a directory on the way to another's exactly when the first is a
  // blob and the other's namespace is named ns/alg/hex after it, or extends that name.
  lemma AncestorExactly(a: Name, b: Name)
    requires Proper(a) && Proper(b)
    ensures Parts(a) < Parts(b) <==> a.Committed? && Extends(b.ns, BlobText(Key(a.ns, a.digest)))
  {
    ValidNameParts(b.ns);
    LeafIsPlain(a);
    LeafIsPlain(b);
    if a.Committed? {
      var text := BlobText(Key(a.ns, a.digest));
      assert Split(text) == Parts(a) by {
        PartsArePlain(a);
        PartsText(a);
        assert text == a.ns + "/" + (Leaf(a)[0] + "/" + Leaf(a)[1]);
      }
      ExtendsParts(b.ns, text);
    }
    if Parts(a) < Parts(b) { AncestorsReachOver(a, b); }
  }

  // An ancestor ends within the other's namespace, so it is a blob.
  lemma AncestorsReachOver(a: Name, b: Name)
    requires Proper(a) && Proper(b) && Parts(a) < Parts(b)
    ensures Parts(a) <= Split(b.ns) && a.Committed?
  {
    ValidNameParts(b.ns);
    LeafIsPlain(a);
    LeafIsPlain(b);
    var n, m := |Split(b.ns)|, |Parts(a)|;
    assert Parts(a)[m - 2] == Leaf(a)[0] && Parts(a)[m - 1] == Leaf(a)[1];
    assert Parts(b)[m - 2] == Leaf(a)[0] && Parts(b)[m - 1] == Leaf(a)[1];
    assert Parts(b)[n] == Leaf(b)[0];
    assert m - 2 < n && Parts(b)[m - 2] == Split(b.ns)[m - 2] && Split(b.ns)[m - 2] in Split(b.ns);
    assert m - 1 != n;
    assert Parts(b)[..n] == Split(b.ns);
  }

  // ---- The staging vacuum ----

  function Up(p: Directories.Path): Directories.Path { if p == [] then [] else p[..|p| - 1] }

  lemma {:induction false} NoStagingAbove(v: StagingVacuum.Sweep, p: Directories.Path)
    requires v.base != ".staging" && forall c :: c in Up(p) ==> c != ".staging"
    ensures StagingVacuum.StagingRoot(v, p).None?
    decreases |p|
  {
    if p != [] {
      var up := Up(p);
      if up != [] { assert up[|up| - 1] in up; }
      forall c | c in Up(up) ensures c != ".staging" { assert c in up; }
      NoStagingAbove(v, up);
    }
  }

  // The vacuum never touches a committed blob, and removes an upload session exactly
  // when it is old enough and the removal does not fail.
  lemma VacuumAndNames(v: StagingVacuum.Sweep, n: Name, mtime: int)
    requires Proper(n) && v.base != ".staging"
    ensures n.Committed? ==> !StagingVacuum.Doomed(v, Parts(n), mtime)
    ensures n.Staged? ==>
      var dir := Split(n.ns) + [".staging"];
      StagingVacuum.Doomed(v, Parts(n), mtime) <==>
        && StagingVacuum.Stale(v.grace, v.clock(dir), mtime)
        && Parts(n) !in v.unreadable && Parts(n) !in v.stuck && dir !in v.refused
  {
    ValidNameParts(n.ns);
    LeafIsPlain(n);
    if n.Committed? {
      assert Up(Parts(n)) == Split(n.ns) + [Leaf(n)[0]];
      NoStagingAbove(v, Parts(n));
    } else {
      var dir := Split(n.ns) + [".staging"];
      assert Up(dir) == Split(n.ns);
      NoStagingAbove(v, dir);
      assert Parts(n)[..|Parts(n)| - 1] == dir;
      assert Parts(n)[|dir|] == n.id;
      StagingVacuum.StagingRootBelow(v, dir, Parts(n));
    }
  }
}

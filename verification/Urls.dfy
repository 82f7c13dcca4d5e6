// rest/middleware.go: a request path is cut at its rightmost OCI separator, because a
// repository name may itself contain components called blobs or manifests.
module Urls {
  import opened Basics
  import opened NameGrammar

  const PREFIX := "/v2/"

  const SEPARATORS: seq<string> := ["/blobs/", "/manifests/", "/tags/", "/referrers/"]

  predicate OccursAt(s: string, sep: string, i: int) { 0 <= i <= |s| && sep <= s[i..] }

  predicate SeparatorAt(s: string, i: int) { exists k :: 0 <= k < |SEPARATORS| && OccursAt(s, SEPARATORS[k], i) }

  // strings.LastIndex
  method LastIndex(s: string, sep: string) returns (i: int)
    ensures -1 <= i <= |s|
    ensures 0 <= i ==> OccursAt(s, sep, i)
    ensures forall j :: i < j ==> !OccursAt(s, sep, j)
  {
    i := |s|;
    while i >= 0 && !(sep <= s[i..])
      invariant -1 <= i <= |s|
      invariant forall j :: i < j ==> !OccursAt(s, sep, j)
    {
      i := i - 1;
    }
  }

  // What splitting returns: nothing unless the path has the prefix and a separator after
  // it; otherwise the text before and from the rightmost separator on.
  ghost predicate SplitsTo(urlPath: string, name: string, tail: string, ok: bool)
  {
    if !(PREFIX <= urlPath) || (forall i :: !SeparatorAt(urlPath[|PREFIX|..], i)) then
      name == "" && tail == "" && !ok
    else
      var rest := urlPath[|PREFIX|..];
      && name + tail == rest
      && SeparatorAt(rest, |name|) && (forall j :: SeparatorAt(rest, j) ==> j <= |name|)
      && (ok <==> name != "")
  }

  method SplitNamespacedPath(urlPath: string) returns (name: string, tail: string, ok: bool)
    ensures SplitsTo(urlPath, name, tail, ok)
  {
    if !(PREFIX <= urlPath) {
      return "", "", false;
    }
    var rest := urlPath[|PREFIX|..];
    var bestIdx := -1;
    var k := 0;
    while k < |SEPARATORS|
      invariant 0 <= k <= |SEPARATORS|
      invariant -1 <= bestIdx <= |rest|
      invariant 0 <= bestIdx ==> SeparatorAt(rest, bestIdx)
      invariant forall l, j :: 0 <= l < k && OccursAt(rest, SEPARATORS[l], j) ==> j <= bestIdx
    {
      var idx := LastIndex(rest, SEPARATORS[k]);
      if idx > bestIdx {
        bestIdx := idx;
      }
      k := k + 1;
    }
    if bestIdx < 0 {
      return "", "", false;
    }
    name, tail := rest[..bestIdx], rest[bestIdx..];
    ok := name != "";
  }

  // The tails the router knows, with a last parameter that holds no slash.
  predicate RouteTail(tail: string)
  {
    exists head :: head in HEADS && head <= tail && '/' !in tail[|head|..]
  }

  const HEADS: set<string> := {"/blobs/", "/blobs/uploads/", "/manifests/", "/tags/", "/referrers/"}

  // Behind the name, a joined path has the separators of the tail.
  lemma SeparatorShifts(n: string, t: string, j: nat)
    ensures SeparatorAt(n + t, |n| + j) <==> SeparatorAt(t, j)
  {
  }

  lemma SplitRest(rest: string, name: string, tail: string, ok: bool)
    requires SplitsTo(PREFIX + rest, name, tail, ok)
    ensures if (forall i :: !SeparatorAt(rest, i)) then name == "" && tail == "" && !ok
            else name + tail == rest && SeparatorAt(rest, |name|) && (forall j :: SeparatorAt(rest, j) ==> j <= |name|) && (ok <==> name != "")
  {
  }

  // A tail with its only separator at its start is what is cut off.
  lemma CutsBeforeTail(n: string, t: string, name: string, tail: string, ok: bool)
    requires SplitsTo(PREFIX + (n + t), name, tail, ok)
    requires n != "" && SeparatorAt(t, 0) && forall j :: 0 < j ==> !SeparatorAt(t, j)
    ensures name == n && tail == t && ok
  {
    SplitRest(n + t, name, tail, ok);
    SeparatorShifts(n, t, 0);
    assert |n| <= |name|;
    SeparatorShifts(n, t, |name| - |n|);
    assert name == (n + t)[..|n|] && tail == (n + t)[|n|..];
  }

  // What is cut off begins with its only separator.
  lemma CutTailIsLast(name: string, tail: string)
    requires SplitsTo(PREFIX + (name + tail), name, tail, true)
    ensures name != "" && SeparatorAt(tail, 0) && forall j :: 0 < j ==> !SeparatorAt(tail, j)
  {
    SplitRest(name + tail, name, tail, true);
    SeparatorShifts(name, tail, 0);
    forall j | 0 < j ensures !SeparatorAt(tail, j) { SeparatorShifts(name, tail, j); }
  }

  // Splitting joins back to exactly this name and tail, whatever they are, if and only if
  // the tail begins with a separator and contains no later one, and the name is not empty.
  lemma SplitInvertsJoinExactly(n: string, t: string, name: string, tail: string, ok: bool)
    requires SplitsTo(PREFIX + (n + t), name, tail, ok)
    ensures (name == n && tail == t && ok) <==>
      n != "" && SeparatorAt(t, 0) && forall j :: 0 < j ==> !SeparatorAt(t, j)
  {
    if n != "" && SeparatorAt(t, 0) && forall j :: 0 < j ==> !SeparatorAt(t, j) { CutsBeforeTail(n, t, name, tail, ok); }
    if name == n && tail == t && ok { CutTailIsLast(n, t); }
  }

  // No separator fits after a route's own: it would need a slash the parameter lacks.
  lemma RouteTailSplits(t: string)
    requires RouteTail(t)
    ensures SeparatorAt(t, 0) && forall j :: 0 < j ==> !SeparatorAt(t, j)
  {
    var head :| head in HEADS && head <= t && '/' !in t[|head|..];
    assert t[0..] == t;
    var k := if head == "/manifests/" then 1 else if head == "/tags/" then 2 else if head == "/referrers/" then 3 else 0;
    assert OccursAt(t, SEPARATORS[k], 0);
    forall j | 0 < j ensures !SeparatorAt(t, j) {
      if SeparatorAt(t, j) {
        var l :| 0 <= l < |SEPARATORS| && OccursAt(t, SEPARATORS[l], j);
        NoLaterSeparator(t, head, j, SEPARATORS[l]);
      }
    }
  }

  lemma SeparatorSlashes(t: string, sep: string, j: int)
    requires sep in SEPARATORS && OccursAt(t, sep, j)
    ensures j + |sep| <= |t| && t[j] == '/' && t[j + 1] == sep[1] && t[j + |sep| - 1] == '/'
  {
  }

  lemma RouteSlashes(t: string, head: string)
    requires head in HEADS && head <= t && '/' !in t[|head|..]
    ensures forall i :: 0 <= i < |t| && t[i] == '/' ==> i == 0 || i == |head| - 1 || (head == "/blobs/uploads/" && i == 6)
    ensures head == "/blobs/uploads/" ==> t[7] == 'u'
  {
  }

  lemma NoLaterSeparator(t: string, head: string, j: int, sep: string)
    requires head in HEADS && head <= t && '/' !in t[|head|..] && 0 < j && sep in SEPARATORS
    ensures !OccursAt(t, sep, j)
  {
    RouteSlashes(t, head);
    if OccursAt(t, sep, j) { SeparatorSlashes(t, sep, j); }
  }

  // For every valid repository name, even one with components called blobs or manifests,
  // and every route, splitting the request path gives back the name and the route.
  lemma RoutesSplit(n: string, t: string, name: string, tail: string, ok: bool)
    requires ValidName(n) && RouteTail(t) && SplitsTo(PREFIX + (n + t), name, tail, ok)
    ensures name == n && tail == t && ok
  {
    RouteTailSplits(t);
    SplitInvertsJoinExactly(n, t, name, tail, ok);
  }
}

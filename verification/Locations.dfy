/** The early-exit prefix search over a sorted list of locations. */
module Locations {
  /** The length of the longest common prefix. */
  function FirstDifference(a: string, b: string): (d: nat)
    ensures d <= |a| && d <= |b| && forall i :: 0 <= i < d ==> a[i] == b[i]
    ensures d < |a| && d < |b| ==> a[d] != b[d]
  {
    if a == "" || b == "" || a[0] != b[0] then 0 else 1 + FirstDifference(a[1..], b[1..])
  }

  /** strcmp() < 0, with characters as unsigned bytes. */
  predicate StrLess(a: string, b: string) {
    var d := FirstDifference(a, b);
    d < |b| && (d == |a| || a[d] < b[d])
  }

  /** The sign of memcmp() over the first `n` characters. */
  function MemCmp(a: string, b: string, n: nat): (r: int)
    requires n <= |a| && n <= |b|
    ensures r == 0 <==> a[..n] == b[..n]
  {
    var d := FirstDifference(a[..n], b[..n]);
    if d == n then 0
    else a[d] as int - b[d] as int
  }

  function Stripped(location: string): (r: string)
    ensures r <= location && (r != "" ==> r[|r| - 1] != '/')
  {
    if location != "" && location[|location| - 1] == '/' then Stripped(location[..|location| - 1]) else location
  }

  /** The path is the location or lies below it. */
  predicate At(path: string, location: string) {
    location <= path && (|path| == |location| || path[|location|] == '/')
  }

  predicate Sorted(locations: seq<string>) {
    forall i, j :: 0 <= i < j < |locations| ==> !StrLess(locations[j], locations[i])
  }

  /** At most one slash at the end. */
  predicate OneSlashAtMost(location: string) {
    |location| <= |Stripped(location)| + 1
  }

  /** A first difference decides the order. */
  lemma LessAt(a: string, b: string, d: nat)
    requires d <= |a| && d < |b| && (forall i :: 0 <= i < d ==> a[i] == b[i]) && (d == |a| || a[d] < b[d])
    ensures StrLess(a, b)
  {
    var e := FirstDifference(a, b);
    assert e == d;
  }

  /** Where a location is greater than the path. */
  lemma GreaterAt(l: string, path: string) returns (d: nat)
    requires |l| <= |path| && MemCmp(l, path, |l|) > 0
    ensures d < |l| && l[d] > path[d] && forall i :: 0 <= i < d ==> l[i] == path[i]
  {
    d := FirstDifference(l[..|l|], path[..|l|]);
    assert forall i :: 0 <= i < d ==> l[..|l|][i] == path[..|l|][i];
  }

  /** The location could hold the path, but is greater: the search stops there. */
  predicate Stops(path: string, location: string) {
    var l := Stripped(location);
    && |l| <= |path| && (|path| == |l| || path[|l|] == '/')
    && MemCmp(l, path, |l|) > 0
  }

  predicate Matches(path: string, location: string) {
    At(path, Stripped(location))
  }

  ghost predicate AnyMatches(path: string, locations: seq<string>) {
    exists i :: 0 <= i < |locations| && Matches(path, locations[i])
  }

  /** What the search answers: the first location that matches or stops it decides. */
  predicate Search(path: string, locations: seq<string>) {
    locations != [] && (Matches(path, locations[0]) || (!Stops(path, locations[0]) && Search(path, locations[1..])))
  }

  /** If an entry is greater than the path, then every match with at most one slash at the end comes before it. */
  lemma MatchComesBefore(path: string, location: string, entry: string)
    requires Stops(path, location) && Matches(path, entry) && OneSlashAtMost(entry)
    ensures StrLess(entry, location)
  {
    var l, m := Stripped(location), Stripped(entry);
    var d := GreaterAt(l, path);
    assert forall i :: 0 <= i < |m| ==> entry[i] == m[i] == path[i];
    assert forall i :: 0 <= i < |l| ==> location[i] == l[i];
    if d < |m| {
      LessAt(entry, location, d);
    } else if entry == m {
      LessAt(entry, location, |m|);
    } else {
      assert |entry| == |m| + 1 && entry[|m|] == '/' == path[|m|];
      LessAt(entry, location, if d == |m| then d else |m| + 1);
    }
  }

  /** The location is inside the directory that the entry names with several slashes at the end. */
  predicate InsideOf(location: string, entry: string) {
    var l, m := Stripped(location), Stripped(entry);
    !OneSlashAtMost(entry) && |m| < |l| && m <= l && l[|m|] == '/'
  }

  /** A match that does not come before the entry that stops the search has several slashes, and the other is inside of
      it. */
  lemma LateMatch(path: string, location: string, entry: string)
    requires Stops(path, location) && Matches(path, entry) && !StrLess(entry, location)
    ensures InsideOf(location, entry)
  {
    var l, m := Stripped(location), Stripped(entry);
    if OneSlashAtMost(entry) {
      MatchComesBefore(path, location, entry);
    } else {
      var d := GreaterAt(l, path);
      assert forall i :: 0 <= i < |m| ==> entry[i] == m[i] == path[i];
      assert forall i :: 0 <= i < |l| ==> location[i] == l[i];
      SlashFollows(entry);
      if d < |m| {
        LessAt(entry, location, d);
      } else if d == |m| {
        LessAt(entry, location, |m|);
      }
    }
  }

  lemma {:induction false} SlashFollows(location: string)
    requires |Stripped(location)| < |location|
    ensures location[|Stripped(location)|] == '/'
  {
    var shorter := location[..|location| - 1];
    if |Stripped(shorter)| < |shorter| { SlashFollows(shorter); }
  }

  /** The location at `i` stops the search before the match at `j`. */
  ghost predicate Hidden(path: string, locations: seq<string>, i: int, j: int) {
    && 0 <= i < j < |locations| && InsideOf(locations[i], locations[j])
    && Stops(path, locations[i]) && Matches(path, locations[j])
    && forall k :: 0 <= k < i ==> !Matches(path, locations[k])
  }

  lemma {:induction false} FirstDecides(path: string, locations: seq<string>)
    ensures Search(path, locations) ==> AnyMatches(path, locations)
    ensures AnyMatches(path, locations) && !Search(path, locations) ==>
      exists i ::
        0 <= i < |locations| && Stops(path, locations[i]) && forall k :: 0 <= k <= i ==> !Matches(path, locations[k])
  {
    if locations != [] && !Matches(path, locations[0]) && !Stops(path, locations[0]) {
      var rest := locations[1..];
      FirstDecides(path, rest);
      if AnyMatches(path, rest) {
        var i :| 0 <= i < |rest| && Matches(path, rest[i]);
        assert Matches(path, locations[i + 1]);
      }
      if AnyMatches(path, locations) && !Search(path, locations) {
        var i :| 0 <= i < |locations| && Matches(path, locations[i]);
        assert Matches(path, rest[i - 1]);
        var s :| 0 <= s < |rest| && Stops(path, rest[s]) && forall k :: 0 <= k <= s ==> !Matches(path, rest[k]);
        assert Stops(path, locations[s + 1]);
        forall k | 0 <= k <= s + 1 ensures !Matches(path, locations[k]) {
          assert k > 0 ==> locations[k] == rest[k - 1];
        }
      }
    } else if locations != [] && Matches(path, locations[0]) {
      assert AnyMatches(path, locations);
    }
  }

  lemma {:induction false} StoppedSearchFails(path: string, locations: seq<string>, i: int)
    requires 0 <= i < |locations| && Stops(path, locations[i]) && forall k :: 0 <= k <= i ==>
      !Matches(path, locations[k])
    ensures !Search(path, locations)
  {
    if i > 0 {
      var rest := locations[1..];
      forall k | 0 <= k <= i - 1 ensures !Matches(path, rest[k]) {
        assert rest[k] == locations[k + 1];
      }
      StoppedSearchFails(path, rest, i - 1);
    }
  }

  lemma StopsIsNoMatch(path: string, location: string)
    requires Stops(path, location)
    ensures !Matches(path, location)
  {
    var l := Stripped(location);
    assert l[..|l|] == l && path[..|l|] != l;
  }

  lemma WrongAnswerHides(path: string, locations: seq<string>) returns (i: int, j: int)
    requires Sorted(locations) && AnyMatches(path, locations) && !Search(path, locations)
    ensures Hidden(path, locations, i, j)
  {
    FirstDecides(path, locations);
    i :| 0 <= i < |locations| && Stops(path, locations[i]) && forall k :: 0 <= k <= i ==> !Matches(path, locations[k]);
    j :| 0 <= j < |locations| && Matches(path, locations[j]);
    LateMatch(path, locations[i], locations[j]);
  }

  lemma HiddenIsWrong(path: string, locations: seq<string>, i: int, j: int)
    requires Hidden(path, locations, i, j)
    ensures AnyMatches(path, locations) && !Search(path, locations)
  {
    StopsIsNoMatch(path, locations[i]);
    StoppedSearchFails(path, locations, i);
  }

  /** For a sorted list, the answer is right exactly if no match is hidden. */
  lemma AnswerIsRightIff(path: string, locations: seq<string>)
    requires Sorted(locations)
    ensures (Search(path, locations) <==> AnyMatches(path, locations))
       <==> !exists i, j :: Hidden(path, locations, i, j)
  {
    if Search(path, locations) <==> AnyMatches(path, locations) {
      forall i, j ensures !Hidden(path, locations, i, j) {
        if Hidden(path, locations, i, j) { HiddenIsWrong(path, locations, i, j); }
      }
    } else {
      FirstDecides(path, locations);
      var i, j := WrongAnswerHides(path, locations);
    }
  }

  /** An entry with several slashes at the end follows a location inside of it, and nothing before that location
      covers the entry. */
  ghost predicate Hides(locations: seq<string>, i: int, j: int) {
    && 0 <= i < j < |locations| && InsideOf(locations[i], locations[j])
    && forall k :: 0 <= k < i ==> !Matches(Stripped(locations[j]), locations[k])
  }

  lemma AtTransitive(path: string, m: string, location: string)
    requires At(path, m) && At(m, location)
    ensures At(path, location)
  {
  }

  lemma HiddenHides(path: string, locations: seq<string>, i: int, j: int)
    requires Hidden(path, locations, i, j)
    ensures Hides(locations, i, j)
  {
    var m := Stripped(locations[j]);
    forall k | 0 <= k < i ensures !Matches(m, locations[k]) {
      if Matches(m, locations[k]) { AtTransitive(path, m, Stripped(locations[k])); }
    }
  }

  /** Without such a pair the answer is right for every path. */
  lemma NothingIsHidden(path: string, locations: seq<string>)
    requires Sorted(locations) && !exists i, j :: Hides(locations, i, j)
    ensures Search(path, locations) <==> AnyMatches(path, locations)
  {
    AnswerIsRightIff(path, locations);
    forall i, j ensures !Hidden(path, locations, i, j) {
      if Hidden(path, locations, i, j) { HiddenHides(path, locations, i, j); }
    }
  }

  /** No entry has the character that makes the least difference. */
  ghost predicate Plain(locations: seq<string>) {
    forall i, d :: 0 <= i < |locations| && 0 <= d < |locations[i]| ==> locations[i][d] > '\U{1}'
  }

  /** With such a pair it is wrong for some path. */
  lemma EveryPairHidesSome(locations: seq<string>, i: int, j: int) returns (path: string)
    requires Hides(locations, i, j) && Plain(locations)
    ensures Hidden(path, locations, i, j)
  {
    var l, m := Stripped(locations[i]), Stripped(locations[j]);
    var d := |m| + 1;
    assert l[d] == locations[i][d];
    path := l[d := '\U{1}'];
    LowerIsLess(l, path, d);
    assert At(path, m);
    forall k | 0 <= k < i ensures !Matches(path, locations[k]) {
      var x := Stripped(locations[k]);
      if |x| > d { assert x[d] == locations[k][d]; }
      assert |x| <= |m| && x <= path && path[..|m|] == m ==> x <= m;
    }
  }

  /** The answer is right for every path, exactly if there is no such pair. */
  lemma AlwaysRightIff(locations: seq<string>)
    requires Sorted(locations) && Plain(locations)
    ensures (forall path :: Search(path, locations) <==> AnyMatches(path, locations))
       <==> !exists i, j :: Hides(locations, i, j)
  {
    if i, j :| Hides(locations, i, j) {
      var path := EveryPairHidesSome(locations, i, j);
      HiddenIsWrong(path, locations, i, j);
    } else {
      forall path ensures Search(path, locations) <==> AnyMatches(path, locations) {
        NothingIsHidden(path, locations);
      }
    }
  }

  lemma LowerIsLess(l: string, path: string, d: nat)
    requires |l| == |path| && d < |l| && l[d] > path[d] && forall i :: 0 <= i < d ==> l[i] == path[i]
    ensures MemCmp(l, path, |l|) > 0
  {
    var e := FirstDifference(l[..|l|], path[..|l|]);
    assert l[..|l|] == l && path[..|l|] == path && e == d;
  }

  /** The length without the slashes at the end. */
  method StrippedLength(location: string) returns (len: nat)
    ensures len <= |location| && location[..len] == Stripped(location)
  {
    len := |location|;
    assert location[..len] == location;
    while len > 0 && location[len - 1] == '/'
      invariant 0 <= len <= |location| && Stripped(location[..len]) == Stripped(location)
    {
      assert location[..len][..len - 1] == location[..len - 1];
      len := len - 1;
    }
  }

  /** is_path_at_locations() */
  method IsPathAtLocations(path: string, locations: seq<string>) returns (found: bool)
    ensures found == Search(path, locations)
  {
    for i := 0 to |locations|
      invariant Search(path, locations) == Search(path, locations[i..])
    {
      assert locations[i..][0] == locations[i] && locations[i..][1..] == locations[i + 1..];
      var location := locations[i];
      var len := StrippedLength(location);
      if |path| < len || (|path| > len && path[len] != '/') {
        continue;
      }
      var order := MemCmp(location[..len], path, len);
      if order < 0 {
        continue;
      } else if order > 0 {
        StopsIsNoMatch(path, location);
        return false;
      }
      if |path| == len || path[len] == '/' {
        assert location[..len][..len] == location[..len];
        return true;
      }
    }
    return false;
  }

  /** With two slashes at the end the early exit can skip a match. */
  lemma TwoSlashesSkipAMatch()
    ensures
      var path, locations := "a/+x", ["a/-b", "a//"];
      Sorted(locations) && AnyMatches(path, locations) && !Search(path, locations)
  {
    var x, y, path := "a/-b", "a//", "a/+x";
    LessAt(x, y, 2);
    assert FirstDifference(y, x) == 2;
    assert y[..2] == "a/" && "a/"[..1] == "a";
    assert Matches(path, [x, y][1]);
    LowerIsLess(x, path, 2);
    StopsIsNoMatch(path, x);
    StoppedSearchFails(path, [x, y], 0);
  }
}

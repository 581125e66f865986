/** Path canonicalisation: the in-place two-pointer rewriting, against parse, drop and print. */
module Canonical {
  // ------------------------------------------------------------------------------------------
  // The simple form: split at slashes, drop empty and "." components, print.
  // ------------------------------------------------------------------------------------------

  /** The number of characters before the first slash. */
  function HeadLength(s: string): (n: nat)
    ensures n <= |s| && (s != "" && s[0] != '/' ==> n > 0)
  {
    if s == "" || s[0] == '/' then 0 else 1 + HeadLength(s[1..])
  }

  function Head(s: string): string {
    s[..HeadLength(s)]
  }

  lemma {:induction false} HeadEndsAtSlash(s: string)
    ensures '/' !in Head(s) && (HeadLength(s) == |s| || s[HeadLength(s)] == '/')
  {
    if s != "" && s[0] != '/' {
      HeadEndsAtSlash(s[1..]);
      assert Head(s) == [s[0]] + Head(s[1..]);
    }
  }

  function Components(s: string): seq<string>
    decreases |s|
  {
    if s == "" then []
    else if s[0] == '/' then Components(s[1..])
    else (if Head(s) == "." then [] else [Head(s)]) + Components(s[|Head(s)|..])
  }

  function Slashed(cs: seq<string>): string {
    if cs == [] then "" else "/" + cs[0] + Slashed(cs[1..])
  }

  function Print(absolute: bool, cs: seq<string>): string {
    if absolute then (if cs == [] then "/" else Slashed(cs))
    else (if cs == [] then "." else cs[0] + Slashed(cs[1..]))
  }

  predicate Absolute(s: string) {
    s != "" && s[0] == '/'
  }

  /** The canonical form of a path; the empty path stays empty. */
  function Canon(s: string): string {
    if s == "" then "" else Print(Absolute(s), Components(s))
  }

  /** A component that is kept: not empty, not ".", without a slash. */
  predicate Clean(c: string) {
    c != "" && c != "." && '/' !in c
  }

  // ------------------------------------------------------------------------------------------
  // Components.
  // ------------------------------------------------------------------------------------------

  lemma {:induction false} ComponentsAreClean(s: string)
    ensures forall c :: c in Components(s) ==> Clean(c)
    decreases |s|
  {
    if s != "" {
      HeadEndsAtSlash(s);
      ComponentsAreClean(if s[0] == '/' then s[1..] else s[|Head(s)|..]);
    }
  }

  lemma {:induction false} HeadAppend(s: string, rest: string)
    requires rest == "" || rest[0] == '/'
    ensures Head(s + rest) == Head(s)
  {
    if s == "" {
      assert s + rest == rest;
    } else if s[0] != '/' {
      assert (s + rest)[1..] == s[1..] + rest;
      HeadAppend(s[1..], rest);
    }
  }

  /** A path may be split before any slash. */
  lemma {:induction false} ComponentsAppend(s: string, rest: string)
    requires rest == "" || rest[0] == '/'
    ensures Components(s + rest) == Components(s) + Components(rest)
    decreases |s|
  {
    if s == "" {
      assert s + rest == rest;
    } else if s[0] == '/' {
      assert (s + rest)[1..] == s[1..] + rest;
      ComponentsAppend(s[1..], rest);
    } else {
      HeadAppend(s, rest);
      var n := HeadLength(s);
      assert (s + rest)[n..] == s[n..] + rest;
      ComponentsAppend(s[n..], rest);
    }
  }

  lemma {:induction false} SlashedAppend(cs: seq<string>, ds: seq<string>)
    ensures Slashed(cs + ds) == Slashed(cs) + Slashed(ds)
  {
    if cs == [] {
      assert cs + ds == ds;
    } else {
      assert (cs + ds)[1..] == cs[1..] + ds;
      SlashedAppend(cs[1..], ds);
    }
  }

  lemma HeadOfClean(c: string, rest: string)
    requires Clean(c) && (rest == "" || rest[0] == '/')
    ensures Head(c + rest) == c && (c + rest)[|c|..] == rest
  {
    HeadAppend(c, rest);
    HeadOfPlain(c);
  }

  lemma {:induction false} HeadOfPlain(c: string)
    requires '/' !in c
    ensures Head(c) == c
  {
    if c != "" { HeadOfPlain(c[1..]); }
  }

  /** Printing and parsing again gives the components back. */
  lemma {:induction false} ComponentsOfSlashed(cs: seq<string>)
    requires forall c :: c in cs ==> Clean(c)
    ensures Components(Slashed(cs)) == cs
  {
    if cs != [] {
      var c, rest := cs[0], Slashed(cs[1..]);
      ComponentsOfSlashed(cs[1..]);
      HeadOfClean(c, rest);
      assert Slashed(cs) == "/" + (c + rest);
      assert Slashed(cs)[1..] == c + rest;
    }
  }

  lemma ComponentsOfPrint(absolute: bool, cs: seq<string>)
    requires forall c :: c in cs ==> Clean(c)
    ensures Components(Print(absolute, cs)) == cs && Absolute(Print(absolute, cs)) == absolute
  {
    if cs == [] {
      assert Head(".") == "." by { HeadOfPlain("."); }
      assert Components(".") == [] && Components("/") == [];
    } else if absolute {
      ComponentsOfSlashed(cs);
    } else {
      ComponentsOfSlashed(cs[1..]);
      HeadOfClean(cs[0], Slashed(cs[1..]));
    }
  }

  /** Canonicalisation keeps the components (so every ".."), keeps absoluteness and is idempotent. */
  lemma CanonIsIdempotent(s: string)
    ensures Components(Canon(s)) == Components(s) && Absolute(Canon(s)) == Absolute(s)
    ensures Canon(Canon(s)) == Canon(s)
  {
    if s != "" {
      ComponentsAreClean(s);
      ComponentsOfPrint(Absolute(s), Components(s));
    }
  }

  lemma {:induction false} SlashedIsNotLonger(s: string)
    ensures |Slashed(Components(s))| <= |s| + if s == "" || s[0] == '/' then 0 else 1
    decreases |s|
  {
    if s != "" {
      if s[0] == '/' {
        SlashedIsNotLonger(s[1..]);
      } else {
        var c, rest := Head(s), Components(s[|Head(s)|..]);
        HeadEndsAtSlash(s);
        SlashedIsNotLonger(s[|c|..]);
        assert ([c] + rest)[1..] == rest;
        assert [] + rest == rest;
      }
    }
  }

  lemma CanonIsNotLonger(s: string)
    ensures |Canon(s)| <= |s|
  {
    SlashedIsNotLonger(s);
    var cs := Components(s);
    if s != "" && cs != [] {
      assert |Slashed(cs)| == 1 + |cs[0]| + |Slashed(cs[1..])|;
    }
  }

  // ------------------------------------------------------------------------------------------
  // Paths that need no change.
  // ------------------------------------------------------------------------------------------

  predicate DoubleSlash(s: string, i: nat) {
    i + 1 < |s| && s[i] == '/' && s[i + 1] == '/'
  }

  predicate SlashDotSlash(s: string, i: nat) {
    i + 2 < |s| && s[i] == '/' && s[i + 1] == '.' && s[i + 2] == '/'
  }

  predicate StartsWithDotSlash(s: string) {
    |s| >= 2 && s[0] == '.' && s[1] == '/'
  }

  predicate EndsWithSlash(s: string) {
    s != "" && s[|s| - 1] == '/'
  }

  predicate EndsWithSlashDot(s: string) {
    |s| >= 2 && s[|s| - 2] == '/' && s[|s| - 1] == '.'
  }

  /** No "//" and no "/./" anywhere. */
  predicate Tidy(s: string) {
    forall i :: 0 <= i < |s| ==> !DoubleSlash(s, i) && !SlashDotSlash(s, i)
  }

  /** is_canonical() */
  predicate IsCanonical(s: string) {
    s == "" ||
    (!StartsWithDotSlash(s) && !(|s| >= 2 && EndsWithSlash(s)) && !EndsWithSlashDot(s) && Tidy(s))
  }

  lemma TidySuffix(s: string, k: nat)
    requires Tidy(s) && k <= |s|
    ensures Tidy(s[k..])
  {
    forall i | 0 <= i < |s[k..]| ensures !DoubleSlash(s[k..], i) && !SlashDotSlash(s[k..], i) {
      assert !DoubleSlash(s, k + i) && !SlashDotSlash(s, k + i);
    }
  }

  lemma {:induction false} TidyIsSlashed(s: string)
    requires s == "" || s[0] == '/'
    requires Tidy(s) && !EndsWithSlash(s) && !EndsWithSlashDot(s)
    ensures Slashed(Components(s)) == s
    decreases |s|
  {
    if s != "" {
      var q := s[1..];
      assert q != "" && !DoubleSlash(s, 0) && q[0] != '/';
      var h := Head(q);
      HeadEndsAtSlash(q);
      assert !SlashDotSlash(s, 0);
      assert h != ".";
      var rest := q[|h|..];
      assert rest == s[1 + |h|..];
      TidySuffix(s, 1 + |h|);
      TidyIsSlashed(rest);
      assert ([h] + Components(rest))[1..] == Components(rest);
      assert s == "/" + h + rest;
    }
  }

  /** A tidy path that does not end badly is its own canonical form. */
  lemma TidyIsCanon(s: string)
    requires s != "" && IsCanonical(s)
    ensures Canon(s) == s
  {
    if s == "/" {
      assert Components("/"[1..]) == [];
    } else if s[0] == '/' {
      TidyIsSlashed(s);
      assert Components(s) != [];
    } else {
      var h := Head(s);
      var rest := s[|h|..];
      HeadEndsAtSlash(s);
      if h == "." {
        assert rest == "";
        assert Components(s) == [] + [];
      } else {
        TidySuffix(s, |h|);
        TidyIsSlashed(rest);
        assert ([h] + Components(rest))[1..] == Components(rest);
        assert s == h + rest;
      }
    }
  }

  // ------------------------------------------------------------------------------------------
  // What is printed needs no change.
  // ------------------------------------------------------------------------------------------

  lemma {:induction false} SlashedIsTidy(cs: seq<string>)
    requires forall c :: c in cs ==> Clean(c)
    ensures Tidy(Slashed(cs)) && !EndsWithSlash(Slashed(cs)) && !EndsWithSlashDot(Slashed(cs))
  {
    if cs != [] {
      var c, rest := cs[0], Slashed(cs[1..]);
      SlashedIsTidy(cs[1..]);
      PrependComponent("/", c, rest);
    }
  }

  /** Putting a clean component in front of a tidy rest, itself behind a slash or nothing. */
  lemma PrependComponent(lead: string, c: string, rest: string)
    requires (lead == "" || lead == "/") && Clean(c)
    requires (rest == "" || rest[0] == '/') && Tidy(rest) && !EndsWithSlash(rest) && !EndsWithSlashDot(rest)
    ensures var s := lead + c + rest;
      Tidy(s) && !EndsWithSlash(s) && !EndsWithSlashDot(s) && !StartsWithDotSlash(s)
  {
    var s := lead + c + rest;
    var k := |lead| + |c|;
    forall i | 0 <= i < |c| ensures s[|lead| + i] == c[i] && s[|lead| + i] != '/' {}
    forall i | 0 <= i < |s| ensures !DoubleSlash(s, i) && !SlashDotSlash(s, i) {
      if i >= k {
        assert !DoubleSlash(rest, i - k) && !SlashDotSlash(rest, i - k);
      } else if i == 0 && lead == "/" {
        assert s[1] == c[0];
        if |c| == 1 { assert c[0] != '.'; } else { assert s[2] == c[1]; }
      }
    }
    if rest == "" {
      assert s[|s| - 1] == c[|c| - 1];
      if |c| >= 2 { assert s[|s| - 2] == c[|c| - 2]; }
    } else {
      assert s[|s| - 1] == rest[|rest| - 1];
      if |rest| >= 2 { assert s[|s| - 2] == rest[|rest| - 2]; }
    }
    if lead == "" {
      assert s[0] == c[0];
      if |c| >= 2 { assert s[1] == c[1]; }
    }
  }

  lemma PrintIsCanonical(absolute: bool, cs: seq<string>)
    requires cs != [] && forall c :: c in cs ==> Clean(c)
    ensures Print(absolute, cs) != "" && !EndsWithSlash(Print(absolute, cs)) && IsCanonical(Print(absolute, cs))
  {
    var c, rest := cs[0], Slashed(cs[1..]);
    assert Clean(c);
    SlashedIsTidy(cs[1..]);
    PrependComponent("", c, rest);
    PrependComponent("/", c, rest);
    assert "" + c + rest == c + rest;
  }

  /** The check accepts exactly the paths that canonicalisation leaves unchanged. */
  lemma IsCanonicalIffUnchanged(s: string)
    ensures IsCanonical(s) <==> Canon(s) == s
  {
    if s != "" && IsCanonical(s) {
      TidyIsCanon(s);
    } else if s != "" && Components(s) != [] {
      ComponentsAreClean(s);
      PrintIsCanonical(Absolute(s), Components(s));
    }
  }

  // ------------------------------------------------------------------------------------------
  // The in-place algorithm.
  // ------------------------------------------------------------------------------------------

  /** strstr() for "//" and for "/./": the first index, or the length if there is none. */
  function FirstDoubleSlash(s: string, i: nat): (r: nat)
    requires i <= |s|
    ensures i <= r <= |s| && (r < |s| ==> DoubleSlash(s, r)) && forall j :: i <= j < r ==> !DoubleSlash(s, j)
    decreases |s| - i
  {
    if i == |s| || DoubleSlash(s, i) then i else FirstDoubleSlash(s, i + 1)
  }

  function FirstSlashDotSlash(s: string, i: nat): (r: nat)
    requires i <= |s|
    ensures i <= r <= |s| && (r < |s| ==> SlashDotSlash(s, r)) && forall j :: i <= j < r ==> !SlashDotSlash(s, j)
    decreases |s| - i
  {
    if i == |s| || SlashDotSlash(s, i) then i else FirstSlashDotSlash(s, i + 1)
  }

  /** The buffer holds the NUL-terminated string `s`. */
  ghost predicate Holds(path: array<char>, s: string)
    reads path
  {
    |s| < path.Length && path[..|s|] == s && path[|s|] == '\0' && '\0' !in s
  }

  method MakeCanonical(path: array<char>, n: nat) returns (len: nat)
    requires n < path.Length && Holds(path, path[..n])
    modifies path
    ensures len <= n && Holds(path, path[..len])
    ensures path[..len] == Canon(old(path[..n]))
  {
    ghost var s := path[..n];
    if path[0] == '\0' {
      return 0;
    }
    var src, dst, addSlash := 0, 0, true;
    if !(path[0] == '.' && path[1] == '/') {
      var a, b := FirstDoubleSlash(path[..n], 0), FirstSlashDotSlash(path[..n], 0);
      if a == n && b == n {
        len := StripEnd(path, n);
        return;
      }
      src := if a < b then a else b;
      dst := src;
      assert DoubleSlash(s, src) || SlashDotSlash(s, src);
      CleanPrefix(s, src);
    } else {
      src, addSlash := 1, false;
      DotPrefix(s);
    }
    assert path[..dst] == s[..dst];
    len := Compact(path, n, src, dst, addSlash);
  }

  /** The quick path: only the end may need a change. */
  method StripEnd(path: array<char>, n: nat) returns (len: nat)
    requires 0 < n < path.Length && Holds(path, path[..n])
    requires Tidy(path[..n]) && !StartsWithDotSlash(path[..n])
    modifies path
    ensures len <= n && Holds(path, path[..len])
    ensures path[..len] == Canon(old(path[..n]))
  {
    ghost var s := path[..n];
    len := n;
    if len >= 2 && path[len - 1] == '.' && path[len - 2] == '/' {
      len := len - 1;
      path[len] := '\0';
    }
    if len >= 2 && path[len - 1] == '/' {
      len := len - 1;
      path[len] := '\0';
    }
    StrippedIsCanon(s, len);
  }

  lemma OnlySlashes()
    ensures Components("") == [] && Components("/") == [] && Components(".") == [] && Components("/.") == []
  {
    HeadOfPlain(".");
    assert "/"[1..] == "" && "/."[1..] == "." && "."[1..] == "";
  }

  lemma StrippedIsCanon(s: string, len: nat)
    requires s != "" && Tidy(s) && !StartsWithDotSlash(s)
    requires len == if |s| > 2 && EndsWithSlashDot(s) then |s| - 2
                    else if EndsWithSlashDot(s) || (|s| >= 2 && EndsWithSlash(s)) then |s| - 1 else |s|
    ensures Canon(s) == s[..len]
  {
    OnlySlashes();
    if len == |s| {
      TidyIsCanon(s);
    } else if |s| == 2 && EndsWithSlashDot(s) {
      assert s == "/." && s[..1] == "/";
    } else {
      var t, rest := s[..len], s[len..];
      assert s == t + rest && (rest == "/" || rest == "/.");
      ComponentsAppend(t, rest);
      PrefixIsCanonical(s, len);
      TidyIsCanon(t);
      assert Components(s) == Components(t) && Absolute(s) == Absolute(t);
    }
  }

  /** What comes before a slash in a path that is tidy up to there. */
  lemma PrefixIsCanonical(s: string, k: nat)
    requires 0 < k < |s| && s[k] == '/' && !StartsWithDotSlash(s)
    requires forall i :: 0 <= i < k ==> !DoubleSlash(s, i) && !SlashDotSlash(s, i)
    ensures IsCanonical(s[..k]) && !EndsWithSlash(s[..k]) && s[..k] != "."
  {
    var t := s[..k];
    assert !DoubleSlash(s, k - 1);
    if k >= 2 { assert !SlashDotSlash(s, k - 2); }
    forall i | 0 <= i < |t| ensures !DoubleSlash(t, i) && !SlashDotSlash(t, i) {
      assert !DoubleSlash(s, i) && !SlashDotSlash(s, i);
    }
  }

  lemma HasComponents(t: string)
    requires t != "" && t != "." && IsCanonical(t) && !EndsWithSlash(t)
    ensures Canon(t) == t && Components(t) != []
  {
    TidyIsCanon(t);
  }

  lemma SplitBeforeSlash(s: string, k: nat)
    requires k < |s| && s[k] == '/'
    ensures Components(s) == Components(s[..k]) + Components(s[k..])
  {
    assert s == s[..k] + s[k..];
    ComponentsAppend(s[..k], s[k..]);
  }

  lemma CleanPrefix(s: string, k: nat)
    requires k < |s| && s[k] == '/' && !StartsWithDotSlash(s) && '\0' !in s
    requires forall i :: 0 <= i < k ==> !DoubleSlash(s, i) && !SlashDotSlash(s, i)
    ensures Fit(s, s[..k], false) && Progress(s, s[..k], false, [], false, k, s[..k])
  {
    SplitBeforeSlash(s, k);
    assert s[..k] + Slashed([]) == s[..k];
    if k > 0 {
      PrefixIsCanonical(s, k);
      HasComponents(s[..k]);
    }
  }

  lemma DotPrefix(s: string)
    requires StartsWithDotSlash(s)
    ensures Fit(s, "", true) && Progress(s, "", true, [], false, 1, "")
  {
    assert s == "." + s[1..];
    ComponentsAppend(".", s[1..]);
    OnlySlashes();
  }

  /** The components `done` have been written behind `pre`, or as a relative path of their own. */
  ghost function Emitted(pre: string, relative: bool, done: seq<string>): string {
    if !relative then pre + Slashed(done) else if done == [] then "" else done[0] + Slashed(done[1..])
  }

  /** A slash, or a "." that is a whole component (given that a component starts here). */
  predicate Skippable(s: string, i: nat)
    requires i < |s|
  {
    s[i] == '/' || (s[i] == '.' && (i + 1 == |s| || s[i + 1] == '/'))
  }

  lemma SkipOne(s: string, i: nat)
    requires i < |s| && Skippable(s, i)
    ensures Components(s[i..]) == Components(s[i + 1..])
  {
    var t := s[i..];
    assert t[1..] == s[i + 1..];
    if s[i] == '.' {
      assert t == "." + t[1..];
      HeadAppend(".", t[1..]);
      HeadOfPlain(".");
      assert t[|Head(t)|..] == t[1..];
    }
  }

  lemma {:induction false} SkipAll(s: string, i: nat, j: nat)
    requires i <= j <= |s| && forall k :: i <= k < j ==> Skippable(s, k)
    ensures Components(s[i..]) == Components(s[j..])
    decreases j - i
  {
    if i < j {
      SkipOne(s, i);
      SkipAll(s, i + 1, j);
    }
  }

  lemma NotDot(s: string, i: nat)
    requires i < |s| && !Skippable(s, i)
    ensures s[i] != '/' && Head(s[i..]) != "."
  {
  }

  /** Skip a run of slashes and "." components. */
  method SkipRun(path: array<char>, n: nat, start: nat, ghost s: string) returns (src: nat)
    requires start < |s| == n && '\0' !in s && s[start] == '/' && Unread(path, s, start)
    ensures start < src <= n && (src < n ==> !Skippable(s, src))
    ensures forall i :: start <= i < src ==> Skippable(s, i)
  {
    src := start;
    while path[src] == '/' || (path[src] == '.' && (path[src + 1] == '/' || path[src + 1] == '\0'))
      invariant start <= src <= n && forall i :: start <= i < src ==> Skippable(s, i)
      decreases n - src
    {
      src := src + 1;
    }
  }

  /** Move the component `h` to its place. */
  method CopyComponent(path: array<char>, n: nat, from: nat, to: nat, ghost s: string, ghost h: string)
    returns (src: nat, dst: nat)
    requires to <= from < |s| == n && '\0' !in s && Unread(path, s, from)
    requires from + |h| <= n && h == s[from..from + |h|] && '/' !in h && (from + |h| < n ==> s[from + |h|] == '/')
    modifies path
    ensures src == from + |h| && dst == to + |h| && Unread(path, s, src)
    ensures path[..dst] == old(path[..to]) + h
  {
    src, dst := from, to;
    assert forall i :: 0 <= i < |h| ==> s[from + i] == h[i] && h[i] != '/';
    while path[src] != '/' && path[src] != '\0'
      invariant from <= src <= from + |h| && dst == to + (src - from) && Unread(path, s, src)
      invariant path[..to] == old(path[..to])
      invariant forall i :: 0 <= i < src - from ==> path[to + i] == h[i]
      decreases n - src
    {
      path[dst] := path[src];
      dst, src := dst + 1, src + 1;
    }
  }

  /** The prefix that is kept as it is: none for a path that starts with "./". */
  ghost predicate Fit(s: string, pre: string, relative: bool) {
    && (relative ==> pre == "" && !Absolute(s))
    && (!relative && pre == "" ==> Absolute(s))
    && (pre != "" ==> Canon(pre) == pre && Components(pre) != [] && Absolute(pre) == Absolute(s))
  }

  method Compact(path: array<char>, n: nat, start: nat, to: nat, startSlash: bool) returns (len: nat)
    requires start < n < path.Length && Holds(path, path[..n]) && path[start] == '/'
    requires to <= start && Fit(path[..n], path[..to], !startSlash)
    requires Progress(path[..n], path[..to], !startSlash, [], false, start, path[..to])
    modifies path
    ensures len <= n && Holds(path, path[..len])
    ensures path[..len] == Canon(old(path[..n]))
  {
    ghost var s, pre, done, trailing := path[..n], path[..to], [], false;
    var dst;
    dst, done, trailing := Squeeze(path, n, start, to, startSlash, s, pre);
    FinalForm(s, pre, !startSlash, done, trailing);
    len := Terminate(path, n, dst, s);
  }

  method Squeeze(path: array<char>, n: nat, start: nat, to: nat, startSlash: bool, ghost s: string, ghost pre: string)
    returns (dst: nat, ghost done: seq<string>, ghost trailing: bool)
    requires to <= start < |s| == n && Unread(path, s, start) && '\0' !in s
    requires Progress(s, pre, !startSlash, [], false, start, path[..to])
    modifies path
    ensures dst <= n < path.Length && Progress(s, pre, !startSlash, done, trailing, n, path[..dst])
  {
    var src: nat, addSlash := start, startSlash;
    dst, done, trailing := to, [], false;
    while path[src] != '\0'
      invariant dst <= src && Unread(path, s, src)
      invariant Progress(s, pre, !startSlash, done, trailing, src, path[..dst])
      invariant src < n ==> (addSlash <==> startSlash || done != [])
      decreases n - src
    {
      ghost var before, out, k := src, path[..dst], 0;
      src, dst, k := Round(path, n, src, dst, addSlash, s);
      done, trailing := RoundKeeps(s, pre, !startSlash, done, before, out, k, src, path[..dst]);
      addSlash := true;
    }
  }

  ghost function Written(emitted: string, trailing: bool): string {
    if trailing then emitted + "/" else emitted
  }

  /** What the loop has consumed and written. */
  ghost predicate Progress(s: string, pre: string, relative: bool, done: seq<string>, trailing: bool, src: nat,
                           out: string) {
    && src <= |s| && (src < |s| ==> s[src] == '/')
    && Components(s) == Components(pre) + done + Components(s[src..])
    && out == Written(Emitted(pre, relative, done), trailing) && '\0' !in out
    && (trailing ==> src == |s| && (!relative || done != []))
    && (src == |s| ==> trailing || done != [] || relative)
  }

  /** The part of the buffer that has not been read is unchanged. */
  ghost predicate Unread(path: array<char>, s: string, src: nat)
    reads path
  {
    src <= |s| < path.Length && path[|s|] == '\0' && forall i :: src <= i < |s| ==> path[i] == s[i]
  }

  lemma RoundEnds(s: string, pre: string, relative: bool, done: seq<string>, start: nat, out: string)
    requires start < |s| && Progress(s, pre, relative, done, false, start, out) && Components(s[start..]) == []
    ensures
      var trailing := !relative || done != [];
      Progress(s, pre, relative, done, trailing, |s|, Written(out, trailing))
  {
  }

  lemma Regroup<T>(a: seq<T>, b: seq<T>, c: seq<T>, d: seq<T>)
    ensures a + b + (c + d) == a + (b + c) + d
  {
  }

  lemma HeadAt(s: string, i: nat)
    requires i < |s|
    ensures
      var h := Head(s[i..]);
      i + |h| <= |s| && h == s[i..i + |h|] && '/' !in h && (i + |h| < |s| ==> s[i + |h|] == '/')
  {
    HeadEndsAtSlash(s[i..]);
  }

  lemma ConsumesOne(all: seq<string>, cs: seq<string>, done: seq<string>, s: string, start: nat, src: nat)
    requires start < src < |s| && s[src] != '/' && Head(s[src..]) != "."
    requires Components(s[src..]) == Components(s[start..])
    requires all == cs + done + Components(s[start..])
    ensures
      var h := Head(s[src..]);
      all == cs + (done + [h]) + Components(s[src + |h|..])
  {
    var h := Head(s[src..]);
    var rest := Components(s[src + |h|..]);
    assert s[src..][|h|..] == s[src + |h|..];
    assert Components(s[src..]) == [h] + rest;
    Regroup(cs, done, [h], rest);
  }

  lemma EmitsOne(pre: string, relative: bool, done: seq<string>, h: string)
    ensures Emitted(pre, relative, done + [h]) == Written(Emitted(pre, relative, done), !relative || done != []) + h
  {
    assert Slashed([h]) == "/" + h;
    if !relative {
      SlashedAppend(done, [h]);
    } else if done != [] {
      SlashedAppend(done[1..], [h]);
      assert (done + [h])[1..] == done[1..] + [h];
    }
  }

  lemma RoundCopies(s: string, pre: string, relative: bool, done: seq<string>, start: nat, src: nat, out: string)
    requires start < |s| && '\0' !in s && Progress(s, pre, relative, done, false, start, out)
    requires start < src < |s| && Components(s[src..]) == Components(s[start..])
    requires s[src] != '/' && Head(s[src..]) != "."
    ensures
      var h := Head(s[src..]);
      Progress(s, pre, relative, done + [h], false, src + |h|, Written(out, !relative || done != []) + h)
  {
    ConsumesOne(Components(s), Components(pre), done, s, start, src);
    EmitsOne(pre, relative, done, Head(s[src..]));
    HeadAt(s, src);
  }

  /** One round of the loop adds one component or reaches the end. */
  lemma RoundKeeps(s: string, pre: string, relative: bool, done: seq<string>, start: nat, out: string,
                   k: nat, src: nat, out': string) returns (done': seq<string>, trailing: bool)
    requires start < |s| && '\0' !in s && Progress(s, pre, relative, done, false, start, out)
    requires Ran(s, start, k, !relative || done != [], src, out, out')
    ensures Progress(s, pre, relative, done', trailing, src, out') && (src < |s| ==> done' != [])
  {
    if k < |s| {
      RoundCopies(s, pre, relative, done, start, k, out);
      done', trailing := done + [Head(s[k..])], false;
    } else {
      RoundEnds(s, pre, relative, done, start, out);
      done', trailing := done, !relative || done != [];
    }
  }

  /** A round went from `start` over a run up to `k`, and copied the component there, if any. */
  ghost predicate Ran(s: string, start: nat, k: nat, addSlash: bool, src: nat, out: string, out': string) {
    && start < k <= |s| && Components(s[k..]) == Components(s[start..])
    && if k == |s| then src == k && out' == Written(out, addSlash)
       else
         s[k] != '/' && Head(s[k..]) != "." && src == k + |Head(s[k..])| &&
         out' == Written(out, addSlash) + Head(s[k..])
  }

  method Round(path: array<char>, n: nat, start: nat, to: nat, addSlash: bool, ghost s: string)
    returns (src: nat, dst: nat, ghost k: nat)
    requires to <= start < n == |s| && '\0' !in s && Unread(path, s, start) && s[start] == '/'
    modifies path
    ensures dst <= src <= n && start < src && Unread(path, s, src)
    ensures Ran(s, start, k, addSlash, src, old(path[..to]), path[..dst])
  {
    src := SkipRun(path, n, start, s);
    SkipAll(s, start, src);
    if src < n { NotDot(s, src); }
    dst, k := to, src;
    if addSlash {
      path[dst] := '/';
      dst := dst + 1;
    }
    assert path[..dst] == Written(old(path[..to]), addSlash);
    if src < n {
      HeadAt(s, src);
      src, dst := CopyComponent(path, n, src, dst, s, Head(s[k..]));
    }
  }

  /** After the loop: "." for nothing at all, no slash at the end, and the terminator. */
  method Terminate(path: array<char>, n: nat, to: nat, ghost s: string) returns (dst: nat)
    requires |s| == n < path.Length && 0 < n && to <= n && '\0' !in path[..to]
    requires
      var e := path[..to];
      if e == "" then Canon(s) == "."
      else if |e| > 1 && e[|e| - 1] == '/' then Canon(s) == e[..|e| - 1]
      else Canon(s) == e
    modifies path
    ensures dst <= n && Holds(path, path[..dst]) && path[..dst] == Canon(s)
  {
    dst := to;
    if dst == 0 {
      path[dst] := '.';
      dst := dst + 1;
      assert path[..dst] == ".";
    }
    if dst > 1 && path[dst - 1] == '/' {
      dst := dst - 1;
    }
    path[dst] := '\0';
  }

  lemma FinalForm(s: string, pre: string, relative: bool, done: seq<string>, trailing: bool)
    requires s != "" && Components(s) == Components(pre) + done
    requires Fit(s, pre, relative)
    requires trailing ==> !relative || done != []
    requires trailing || done != [] || relative
    ensures
      var e := Written(Emitted(pre, relative, done), trailing);
      if e == "" then Canon(s) == "."
      else if |e| > 1 && e[|e| - 1] == '/' then Canon(s) == e[..|e| - 1]
      else Canon(s) == e
  {
    var cs := Components(pre);
    if cs + done == [] {
      assert pre == "" && done == [];
    } else {
      EmittedIsPrint(pre, relative, Absolute(s), done);
      ComponentsAreClean(s);
      PrintIsCanonical(Absolute(s), cs + done);
    }
  }

  /** The written components continue the printed prefix. */
  lemma EmittedIsPrint(pre: string, relative: bool, absolute: bool, done: seq<string>)
    requires Components(pre) + done != []
    requires relative ==> pre == "" && !absolute
    requires !relative && pre == "" ==> absolute
    requires pre != "" ==> Canon(pre) == pre && Components(pre) != [] && Absolute(pre) == absolute
    ensures Emitted(pre, relative, done) == Print(absolute, Components(pre) + done)
  {
    var cs := Components(pre);
    if pre == "" {
      assert cs + done == done;
    } else {
      PrintAppend(absolute, cs, done);
    }
  }

  lemma PrintAppend(absolute: bool, cs: seq<string>, done: seq<string>)
    requires cs != []
    ensures Print(absolute, cs + done) == Print(absolute, cs) + Slashed(done)
  {
    if absolute {
      SlashedAppend(cs, done);
    } else {
      assert (cs + done)[1..] == cs[1..] + done;
      SlashedAppend(cs[1..], done);
    }
  }
}

/** Routing by path: a "models" segment followed by a model name selects the backend and is
    removed before the request is checked and forwarded. */
module Routing {
  import opened Wrappers
  import opened GoStrings

  // ---- Paths as segments ------------------------------------------------------------

  /** A "models" segment that routes: a non-empty name follows, and something after it. */
  predicate Routes(parts: seq<string>, i: nat) {
    i + 2 < |parts| && parts[i] == "models" && parts[i + 1] != ""
  }

  /** The first routing segment at or after `i`, or -1. */
  function RouteFrom(parts: seq<string>, i: nat): (r: int)
    ensures r == -1 || (i <= r && Routes(parts, r))
    ensures forall j | i <= j && (r == -1 || j < r) :: !Routes(parts, j)
    decreases |parts| - i
  {
    if i >= |parts| then -1
    else if Routes(parts, i) then i
    else RouteFrom(parts, i + 1)
  }

  function Segments(path: string): seq<string> { Split(TrimPrefix(path, "/"), '/') }

  function ExtractModelName(path: string): string {
    var parts := Segments(path);
    var i := RouteFrom(parts, 0);
    if i < 0 then "" else parts[i + 1]
  }

  /** The text the stripping step searches for. */
  function RouteText(model: string): string { "/models/" + model }

  function StripModelPrefix(path: string, model: string): string { StripText(path, RouteText(model)) }

  /** Cuts the first occurrence of `segment` out, unless the text goes on inside a path segment. */
  function StripText(path: string, segment: string): string {
    var idx := Index(path, segment);
    if idx < 0 then path
    else
      var end := idx + |segment|;
      if end < |path| && path[end] != '/' then path
      else
        var result := path[..idx] + path[end..];
        if result == "" then "/" else if "/" <= result then result else "/" + result
  }

  /** The path with every segment preceded by a slash. */
  function Path(parts: seq<string>): string {
    if parts == [] then "" else "/" + parts[0] + Path(parts[1..])
  }

  predicate SlashFree(parts: seq<string>) { forall part | part in parts :: '/' !in part }

  lemma {:induction false} PathJoins(parts: seq<string>)
    requires parts != []
    ensures Path(parts) == "/" + Join(parts, '/')
  {
    if |parts| > 1 {
      PathJoins(parts[1..]);
    } else {
      assert Path(parts[1..]) == "";
    }
  }

  lemma SegmentsOfPath(path: string)
    requires "/" <= path
    ensures Path(Segments(path)) == path && SlashFree(Segments(path))
  {
    var body := path[1..];
    assert path == "/" + body;
    assert Segments(path) == Split(body, '/');
    SplitJoins(body, '/');
    PathJoins(Split(body, '/'));
  }

  lemma SegmentsOf(parts: seq<string>)
    requires parts != [] && SlashFree(parts)
    ensures Segments(Path(parts)) == parts
  {
    PathJoins(parts);
    assert TrimPrefix("/" + Join(parts, '/'), "/") == Join(parts, '/');
    JoinSplits(parts, '/');
  }

  lemma {:induction false} PathAppends(a: seq<string>, b: seq<string>)
    ensures Path(a + b) == Path(a) + Path(b)
  {
    if a == [] {
      assert a + b == b;
    } else {
      assert (a + b)[1..] == a[1..] + b;
      PathAppends(a[1..], b);
    }
  }

  // ---- Where the routing text first occurs ------------------------------------------

  /** A text that starts with a slash cannot start inside a segment. */
  lemma {:induction false} IndexSkipsSegment(x: string, rest: string, t: string)
    requires '/' !in x && "/" <= t
    ensures var i := Index(rest, t);
            Index(x + rest, t) == if i < 0 then -1 else |x| + i
  {
    if x == "" {
      assert x + rest == rest;
    } else {
      assert (x + rest)[1..] == x[1..] + rest;
      assert (x + rest)[0] == x[0] != '/';
      IndexSkipsSegment(x[1..], rest, t);
    }
  }

  lemma IndexNext(s: string, t: string)
    requires s != "" && !(t <= s)
    ensures Index(s, t) == if Index(s[1..], t) < 0 then -1 else Index(s[1..], t) + 1
  {
  }

  /** The search moves on by whole segments. */
  lemma IndexStep(parts: seq<string>, t: string)
    requires parts != [] && '/' !in parts[0] && "/" <= t && !(t <= Path(parts))
    ensures var i := Index(Path(parts[1..]), t);
            Index(Path(parts), t) == if i < 0 then -1 else 1 + |parts[0]| + i
  {
    hide Index;
    var rest := Path(parts[1..]);
    assert Path(parts) == "/" + parts[0] + rest;
    assert Path(parts)[1..] == parts[0] + rest;
    IndexNext(Path(parts), t);
    IndexSkipsSegment(parts[0], rest, t);
  }

  /** Both texts start with a slash-free name that a slash or the end follows. */
  lemma SameName(x: string, a: string, y: string, b: string)
    requires '/' !in x && '/' !in y && "/" <= a && (b == "" || "/" <= b)
    ensures x + a <= y + b <==> x == y && a <= b
  {
    if x + a <= y + b {
      var s, t := x + a, y + b;
      assert forall i | 0 <= i < |x| :: t[i] == s[i] == x[i] != '/';
      assert t[|x|] == s[|x|] == '/';
      assert forall i | 0 <= i < |y| :: t[i] == y[i] != '/';
      assert b != "" ==> t[|y|] == b[0] == '/';
      assert |x| == |y|;
      assert x == t[..|x|] && y == t[..|y|];
      assert a == s[|x|..] && b == t[|y|..];
    }
  }

  lemma NameStarts(m: string, y: string, b: string)
    requires '/' !in m && '/' !in y && (b == "" || "/" <= b)
    ensures m <= y + b <==> m <= y
  {
    if m <= y + b {
      assert forall i | 0 <= i < |m| :: (y + b)[i] == m[i] != '/';
      assert b != "" ==> (y + b)[|y|] == b[0] == '/';
      assert |m| <= |y|;
    }
  }

  lemma PathTail(parts: seq<string>)
    ensures Path(parts) == "" || "/" <= Path(parts)
  {
  }

  lemma RouteTextAgainst(m: string, x: string, rest: string)
    requires '/' !in m && '/' !in x && (rest == "" || "/" <= rest)
    ensures RouteText(m) <= "/" + x + rest <==> x == "models" && "/" + m <= rest
  {
    var a := "/" + m;
    assert RouteText(m) == "/" + ("models" + a);
    assert "/" + x + rest == "/" + (x + rest);
    SlashPrefix("models" + a, x + rest);
    SameName("models", a, x, rest);
  }

  lemma RouteTextAgainstTwo(m: string, x: string, y: string, more: string)
    requires '/' !in m && '/' !in x && '/' !in y && (more == "" || "/" <= more)
    ensures RouteText(m) <= "/" + x + ("/" + y + more) <==> x == "models" && m <= y
  {
    RouteTextAgainst(m, x, "/" + y + more);
    assert "/" + y + more == "/" + (y + more);
    SlashPrefix(m, y + more);
    NameStarts(m, y, more);
  }

  lemma PathOfOne(parts: seq<string>)
    requires |parts| == 1
    ensures Path(parts) == "/" + parts[0] + ""
  {
    assert Path(parts[1..]) == "";
  }

  lemma PathOfTwo(parts: seq<string>)
    requires |parts| >= 2
    ensures Path(parts) == "/" + parts[0] + ("/" + parts[1] + Path(parts[2..]))
  {
    assert parts[1..][1..] == parts[2..];
  }

  lemma RouteTextMatches(parts: seq<string>, m: string)
    requires SlashFree(parts) && '/' !in m
    ensures RouteText(m) <= Path(parts) <==> |parts| >= 2 && parts[0] == "models" && m <= parts[1]
  {
    if |parts| == 1 {
      PathOfOne(parts);
      RouteTextAgainst(m, parts[0], "");
    } else if |parts| >= 2 {
      PathOfTwo(parts);
      PathTail(parts[2..]);
      RouteTextAgainstTwo(m, parts[0], parts[1], Path(parts[2..]));
    }
  }

  lemma SlashPrefix(a: string, b: string)
    ensures "/" + a <= "/" + b <==> a <= b
  {
    assert ("/" + b)[1..] == b && ("/" + a)[1..] == a;
    if "/" + a <= "/" + b {
      assert ("/" + b)[..1 + |a|][1..] == b[..|a|];
    }
  }

  /** Where the text occurs first, segment by segment. */
  predicate TextAt(parts: seq<string>, m: string, j: nat) {
    j + 1 < |parts| && parts[j] == "models" && m <= parts[j + 1]
  }

  lemma FirstOccurrenceLater(parts: seq<string>, m: string, j: nat)
    requires SlashFree(parts) && '/' !in m && parts != [] && !TextAt(parts, m, 0) && j < |parts|
    requires Index(Path(parts[1..]), RouteText(m)) == if TextAt(parts[1..], m, j) then |Path(parts[1..][..j])| else -1
    ensures Index(Path(parts), RouteText(m)) == if TextAt(parts, m, j + 1) then |Path(parts[..j + 1])| else -1
  {
    hide Index, TextAt;
    RouteTextMatches(parts, m);
    TextAtIs(parts, m, 0);
    TextLater(parts, m, j + 1);
    assert parts[0] in parts;
    IndexStep(parts, RouteText(m));
    assert parts[..j + 1][1..] == parts[1..][..j] && parts[..j + 1][0] == parts[0];
  }

  lemma TextAtIs(parts: seq<string>, m: string, j: nat)
    ensures TextAt(parts, m, j) <==> j + 1 < |parts| && parts[j] == "models" && m <= parts[j + 1]
  {
  }

  lemma TextLater(parts: seq<string>, m: string, k: nat)
    requires parts != [] && k > 0
    ensures TextAt(parts, m, k) <==> TextAt(parts[1..], m, k - 1)
  {
  }

  lemma {:induction false} FirstOccurrence(parts: seq<string>, m: string) returns (j: nat)
    requires SlashFree(parts) && '/' !in m
    ensures forall k | 0 <= k < j :: !TextAt(parts, m, k)
    ensures Index(Path(parts), RouteText(m)) == if TextAt(parts, m, j) then |Path(parts[..j])| else -1
    ensures TextAt(parts, m, j) || j == |parts|
  {
    hide Index, TextAt, Path, RouteText, SlashFree;
    if parts == [] || TextAt(parts, m, 0) {
      j := 0;
      OccursFirst(parts, m);
    } else {
      RestIsSlashFree(parts);
      j := FirstOccurrence(parts[1..], m);
      forall k | 0 < k <= j + 1 ensures TextAt(parts, m, k) <==> TextAt(parts[1..], m, k - 1) {
        TextLater(parts, m, k);
      }
      TextAtIs(parts[1..], m, j);
      FirstOccurrenceLater(parts, m, j);
      j := j + 1;
    }
  }

  lemma RestIsSlashFree(parts: seq<string>)
    requires SlashFree(parts) && parts != []
    ensures SlashFree(parts[1..])
  {
  }

  lemma OccursFirst(parts: seq<string>, m: string)
    requires SlashFree(parts) && '/' !in m && (parts == [] || TextAt(parts, m, 0))
    ensures Index(Path(parts), RouteText(m)) == if TextAt(parts, m, 0) then |Path(parts[..0])| else -1
  {
    RouteTextMatches(parts, m);
    assert parts[..0] == [];
  }

  /** If the first routing segment is `i`, the text occurs first exactly there. */
  lemma RouteTextAt(parts: seq<string>, i: nat)
    requires SlashFree(parts) && Routes(parts, i) && forall j | 0 <= j < i :: !Routes(parts, j)
    ensures Index(Path(parts), RouteText(parts[i + 1])) == |Path(parts[..i])|
  {
    var m := parts[i + 1];
    assert m in parts && TextAt(parts, m, i);
    forall k | 0 <= k < i ensures !TextAt(parts, m, k) {
      assert !Routes(parts, k);
    }
    hide Path, Index, RouteText, Routes;
    var j := FirstOccurrence(parts, m);
  }

  // ---- Which model a path names -----------------------------------------------------

  /** Segment `i` is "models", followed by `m` and by at least one more segment. */
  ghost predicate Named(parts: seq<string>, i: nat, m: string) {
    i + 2 < |parts| && parts[i..i + 2] == ["models", m]
  }

  /** A path with a leading slash names the model `m` if and only if `m` is the name in the first such
      place whose name is not empty. */
  lemma ExtractsIff(parts: seq<string>, m: string)
    requires parts != [] && (forall part | part in parts :: '/' !in part) && m != ""
    ensures ExtractModelName(Path(parts)) == m <==>
              exists i: nat :: Named(parts, i, m) && forall j: nat, n: string | Named(parts, j, n) && j < i :: n == ""
  {
    SegmentsOf(parts);
    var r := RouteFrom(parts, 0);
    if r >= 0 {
      assert Named(parts, r, parts[r + 1]);
      forall j: nat, n: string | Named(parts, j, n) && j < r ensures n == "" {
        NamedRoutes(parts, j, n);
      }
    }
    if i: nat :| Named(parts, i, m) && forall j: nat, n: string | Named(parts, j, n) && j < i :: n == "" {
      NamedRoutes(parts, i, m);
      assert 0 <= r <= i && r == i;
    }
  }

  /** Stripping such a path leaves the slash and the rest. */
  lemma PlainPathStripped(name: string, rest: string)
    ensures StripModelPrefix("/models/" + name + "/" + rest, name) == "/" + rest
  {
    var text, path := RouteText(name), "/models/" + name + "/" + rest;
    assert path == text + ("/" + rest);
    assert text <= path && path[|text|] == '/' && path[|text|..] == "/" + rest;
    assert path[..0] + path[|text|..] == "/" + rest;
  }

  lemma NamedRoutes(parts: seq<string>, i: nat, m: string)
    requires Named(parts, i, m)
    ensures Routes(parts, i) <==> m != ""
    ensures parts[i + 1] == m
  {
    assert parts[i] == parts[i..i + 2][0] && parts[i + 1] == parts[i..i + 2][1];
  }

  /** In plain text: "/models/", a name, a slash and any rest names it; without the last slash nothing
      is named; and the leading slash makes no difference. */
  lemma PlainPathExtracts(name: string, rest: string)
    requires name != "" && '/' !in name
    ensures ExtractModelName("/models/" + name + "/" + rest) == name
    ensures ExtractModelName("/models/" + name) == ""
    ensures rest != "" && rest[0] != '/' ==> ExtractModelName(rest) == ExtractModelName("/" + rest)
  {
    hide Split;
    var path := "/models/" + name + "/" + rest;
    assert path[1..] == "models" + ['/'] + (name + ['/'] + rest);
    SplitStep("models", name + ['/'] + rest, '/');
    SplitStep(name, rest, '/');
    assert Routes(Segments(path), 0);
    var short := "/models/" + name;
    assert short[1..] == "models" + ['/'] + name;
    SplitStep("models", name, '/');
    SplitOne(name, '/');
    assert Segments(short) == ["models", name];
    if rest != "" && rest[0] != '/' {
      assert ("/" + rest)[1..] == rest;
    }
  }

  // ---- Main result ------------------------------------------------------------------

  /** A path that names a model routes at its first routing segment. */
  lemma Routed(path: string)
    requires ExtractModelName(path) != ""
    ensures var parts := Segments(path);
            var i := RouteFrom(parts, 0);
            && path != "" && i >= 0 && i + 2 < |parts| && Routes(parts, i) && ExtractModelName(path) == parts[i + 1]
            && forall j | 0 <= j < i :: !Routes(parts, j)
  {
    assert Split("", '/') == [""];
  }

  /** For every path that starts with a slash: if a model is extracted, stripping it deletes
      exactly the chosen "models" segment and the name, and keeps all others in order. */
  lemma StrippingRemovesTheRoutedSegments(path: string)
    requires "/" <= path && ExtractModelName(path) != ""
    ensures var parts := Segments(path);
            var i := RouteFrom(parts, 0);
            && i >= 0 && i + 2 < |parts|
            && StripModelPrefix(path, ExtractModelName(path)) == Path(parts[..i] + parts[i + 2..])
            && Segments(Path(parts[..i] + parts[i + 2..])) == parts[..i] + parts[i + 2..]
  {
    Routed(path);
    hide *;
    SegmentsOfPath(path);
    StrippingSegments(Segments(path), RouteFrom(Segments(path), 0));
  }

  lemma StrippingSegments(parts: seq<string>, i: nat)
    requires SlashFree(parts) && Routes(parts, i) && forall j | 0 <= j < i :: !Routes(parts, j)
    ensures StripModelPrefix(Path(parts), parts[i + 1]) == Path(parts[..i] + parts[i + 2..])
    ensures Segments(Path(parts[..i] + parts[i + 2..])) == parts[..i] + parts[i + 2..]
  {
    var before, after := parts[..i], parts[i + 2..];
    RouteTextAt(parts, i);
    PathAroundRoute(parts, i);
    StripAt(Path(parts), RouteText(parts[i + 1]), Path(before), Path(after));
    assert "/" <= Path(before) + Path(after);
    PathAppends(before, after);
    KeptSegments(parts, i);
  }

  lemma KeptSegments(parts: seq<string>, i: nat)
    requires SlashFree(parts) && i + 2 < |parts|
    ensures Segments(Path(parts[..i] + parts[i + 2..])) == parts[..i] + parts[i + 2..]
  {
    var kept := parts[..i] + parts[i + 2..];
    assert forall part | part in kept :: part in parts;
    SegmentsOf(kept);
  }

  lemma PathAroundRoute(parts: seq<string>, i: nat)
    requires Routes(parts, i)
    ensures Path(parts) == Path(parts[..i]) + (RouteText(parts[i + 1]) + Path(parts[i + 2..]))
    ensures "/" <= Path(parts[i + 2..]) && (Path(parts[..i]) == "" || "/" <= Path(parts[..i]))
  {
    var route := [parts[i], parts[i + 1]];
    assert parts == parts[..i] + (route + parts[i + 2..]);
    PathAppends(parts[..i], route + parts[i + 2..]);
    PathAppends(route, parts[i + 2..]);
    PathOfRoute(parts[i + 1]);
    PathTail(parts[..i]);
  }

  /** The search text is cut out where it first occurs, if it ends with a segment. */
  lemma StripAt(path: string, segment: string, before: string, after: string)
    requires path == before + (segment + after) && Index(path, segment) == |before|
    requires after == "" || "/" <= after
    ensures StripText(path, segment) ==
            if before + after == "" then "/"
            else if "/" <= before + after then before + after
            else "/" + (before + after)
  {
    hide Index;
    CutOut(path, before, segment, after);
    assert |before| + |segment| < |path| ==> path[|before| + |segment|] == path[|before| + |segment|..][0] == after[0];
  }

  lemma PathOfRoute(m: string)
    ensures Path(["models", m]) == RouteText(m)
  {
    assert ["models", m][1..] == [m] && [m][1..] == [];
    assert Path([m]) == "/" + m;
    assert Path(["models", m]) == "/" + "models" + Path([m]);
  }

  lemma CutOut(whole: string, a: string, b: string, c: string)
    requires whole == a + (b + c)
    ensures whole[..|a|] == a && whole[|a| + |b|..] == c
  {
  }

  // ---- Paths without a leading slash ------------------------------------------------

  lemma PathHead(parts: seq<string>, x: string)
    requires parts != [] && Path(parts) == "/" + x
    ensures x == parts[0] + Path(parts[1..])
  {
    assert Path(parts) == "/" + (parts[0] + Path(parts[1..]));
    assert Path(parts)[1..] == x && Path(parts)[1..] == parts[0] + Path(parts[1..]);
  }

  /** Such a path is its first segment, then the others each after a slash. */
  lemma SlashlessPath(path: string)
    requires path != "" && !("/" <= path)
    ensures var parts := Segments(path);
            path == parts[0] + Path(parts[1..]) && SlashFree(parts) && parts[0] != ""
  {
    var parts := Segments(path);
    assert parts == Split(path, '/');
    SplitJoins(path, '/');
    PathJoins(parts);
    hide Path, Split, Join;
    PathHead(parts, path);
    PathTail(parts[1..]);
  }

  /** A text that goes on inside a segment is not cut out. */
  lemma StripInside(path: string, segment: string, before: string, more: string)
    requires path == before + (segment + more) && Index(path, segment) == |before| && more != "" && more[0] != '/'
    ensures StripText(path, segment) == path
  {
    CutOut(path, before, segment, more);
    assert path[|before| + |segment|] == path[|before| + |segment|..][0];
  }

  /** A path around the pair of segments j and j + 1. */
  lemma PathAroundPair(parts: seq<string>, j: nat)
    requires 0 < j && j + 1 < |parts| && parts[j] == "models"
    ensures Path(parts[1..]) == Path(parts[1..j]) + (RouteText(parts[j + 1]) + Path(parts[j + 2..]))
  {
    var pair := ["models", parts[j + 1]];
    assert parts[1..] == parts[1..j] + (pair + parts[j + 2..]);
    PathAppends(parts[1..j], pair + parts[j + 2..]);
    PathAppends(pair, parts[j + 2..]);
    PathOfRoute(parts[j + 1]);
  }

  /** What stripping makes of a slash-less path whose text first occurs at segment j > 0. */
  lemma StripSlashless(parts: seq<string>, m: string, j: nat)
    requires SlashFree(parts) && '/' !in m && 0 < j && TextAt(parts, m, j) && parts[0] != ""
    requires forall k | 0 < k < j :: !TextAt(parts, m, k)
    ensures var path := parts[0] + Path(parts[1..]);
            StripModelPrefix(path, m) == if parts[j + 1] == m then Path(parts[..j] + parts[j + 2..]) else path
  {
    NoSlashIn(parts, 0);
    NoSlashIn(parts, j + 1);
    TextOfSlashless(parts, m, j);
    SlashlessAroundPair(parts, j);
    hide *;
    if parts[j + 1] == m {
      StripWhole(parts, m, j, parts[0] + Path(parts[1..]));
    } else {
      StripPartly(parts[0] + Path(parts[1..]), parts[0] + Path(parts[1..j]), m, parts[j + 1], Path(parts[j + 2..]));
    }
  }

  lemma NoSlashIn(parts: seq<string>, i: nat)
    requires SlashFree(parts) && i < |parts|
    ensures '/' !in parts[i]
  {
    assert parts[i] in parts;
  }

  lemma SlashlessAroundPair(parts: seq<string>, j: nat)
    requires 0 < j && j + 1 < |parts| && parts[j] == "models"
    ensures parts[0] + Path(parts[1..])
         == parts[0] + Path(parts[1..j]) + (RouteText(parts[j + 1]) + Path(parts[j + 2..]))
  {
    PathAroundPair(parts, j);
    hide *;
    Regrouped(parts[0], Path(parts[1..j]), RouteText(parts[j + 1]) + Path(parts[j + 2..]));
  }

  lemma Regrouped(a: string, b: string, c: string)
    ensures a + (b + c) == a + b + c
  {
  }

  lemma StripWhole(parts: seq<string>, m: string, j: nat, path: string)
    requires 0 < j && j + 1 < |parts| && parts[0] != "" && '/' !in parts[0]
    requires path == parts[0] + Path(parts[1..j]) + (RouteText(m) + Path(parts[j + 2..]))
    requires Index(path, RouteText(m)) == |parts[0] + Path(parts[1..j])|
    ensures StripModelPrefix(path, m) == Path(parts[..j] + parts[j + 2..])
  {
    var before, after := parts[0] + Path(parts[1..j]), Path(parts[j + 2..]);
    PathTail(parts[j + 2..]);
    Rejoined(parts, j);
    hide Path, Index, StripText, RouteText;
    StripAt(path, RouteText(m), before, after);
    assert (before + after)[0] == parts[0][0] != '/';
  }

  lemma StripPartly(path: string, before: string, m: string, x: string, after: string)
    requires path == before + (RouteText(x) + after) && Index(path, RouteText(m)) == |before|
    requires m <= x && x != m && '/' !in x
    ensures StripModelPrefix(path, m) == path
  {
    hide Index, StripText;
    var y := x[|m|..];
    assert x == m + y && y[0] == x[|m|];
    assert RouteText(x) == RouteText(m) + y;
    assert path == before + (RouteText(m) + (y + after));
    StripInside(path, RouteText(m), before, y + after);
  }

  lemma TextOfSlashless(parts: seq<string>, m: string, j: nat)
    requires SlashFree(parts) && '/' !in m && 0 < j && TextAt(parts, m, j)
    requires forall k | 0 < k < j :: !TextAt(parts, m, k)
    ensures Index(parts[0] + Path(parts[1..]), RouteText(m)) == |parts[0] + Path(parts[1..j])|
  {
    var rest := parts[1..];
    assert parts[0] in parts;
    forall k | 0 <= k < |rest| ensures TextAt(rest, m, k) <==> TextAt(parts, m, k + 1) {}
    var first := FirstOccurrence(rest, m);
    assert TextAt(rest, m, j - 1) && first == j - 1;
    assert rest[..j - 1] == parts[1..j];
    IndexSkipsSegment(parts[0], Path(rest), RouteText(m));
  }

  lemma Rejoined(parts: seq<string>, j: nat)
    requires 0 < j && j + 1 < |parts|
    ensures "/" + (parts[0] + Path(parts[1..j]) + Path(parts[j + 2..])) == Path(parts[..j] + parts[j + 2..])
  {
    assert parts[..j][1..] == parts[1..j] && parts[..j][0] == parts[0];
    assert Path(parts[..j]) == "/" + parts[0] + Path(parts[1..j]);
    PathAppends(parts[..j], parts[j + 2..]);
  }

  /** After the first pair, the same two segments again: "models", "models", "models" or "models", m,
      "models", m. */
  predicate Repeats(parts: seq<string>, m: string) {
    var t := if m == "models" then 1 else 2;
    t + 1 < |parts| && parts[t] == "models" && parts[t + 1] == m
  }

  lemma SlashlessFromInside(parts: seq<string>, i: nat)
    requires SlashFree(parts) && parts != [] && parts[0] != "" && Routes(parts, i) && i > 0
    requires forall j | 0 <= j < i :: !Routes(parts, j)
    ensures StripModelPrefix(parts[0] + Path(parts[1..]), parts[i + 1]) == Path(parts[..i] + parts[i + 2..])
  {
    var m := parts[i + 1];
    assert m in parts && TextAt(parts, m, i);
    forall k | 0 < k < i ensures !TextAt(parts, m, k) {
      assert !Routes(parts, k);
    }
    StripSlashless(parts, m, i);
  }

  /** Cutting the pair at j out leaves what cutting the first pair leaves, only if the pairs repeat. */
  lemma SamePairsRepeat(parts: seq<string>, m: string, j: nat)
    requires Routes(parts, 0) && parts[1] == m && 0 < j && TextAt(parts, m, j)
    requires forall k | 0 < k < j :: !TextAt(parts, m, k)
    requires parts[j + 1] == m && parts[..j] + parts[j + 2..] == parts[2..]
    ensures Repeats(parts, m)
  {
    var cut, want := parts[..j] + parts[j + 2..], parts[2..];
    assert cut[0] == parts[0] && want[0] == parts[2];
    if j > 1 {
      assert cut[1] == parts[1] && want[1] == parts[3];
      assert !TextAt(parts, m, 1);
    }
  }

  lemma SamePairsIff(parts: seq<string>, m: string, j: nat)
    requires SlashFree(parts) && Routes(parts, 0) && parts[1] == m && 0 < j && TextAt(parts, m, j)
    requires forall k | 0 < k < j :: !TextAt(parts, m, k)
    ensures (parts[j + 1] == m && Path(parts[..j] + parts[j + 2..]) == Path(parts[2..])) <==> Repeats(parts, m)
  {
    var t := if m == "models" then 1 else 2;
    var cut, want := parts[..j] + parts[j + 2..], parts[2..];
    if parts[j + 1] == m && Path(cut) == Path(want) {
      assert SlashFree(cut) && SlashFree(want) by {
        assert forall part | part in cut + want :: part in parts;
      }
      SegmentsOf(cut);
      SegmentsOf(want);
      SamePairsRepeat(parts, m, j);
    }
    if Repeats(parts, m) {
      assert TextAt(parts, m, t) && j == t;
      assert cut == want;
    }
  }

  lemma SlashlessFromStart(parts: seq<string>)
    requires SlashFree(parts) && Routes(parts, 0)
    ensures StripModelPrefix(parts[0] + Path(parts[1..]), parts[1]) == Path(parts[2..]) <==> Repeats(parts, parts[1])
  {
    hide *;
    StartsApart(parts);
    var m, rest := parts[1], parts[1..];
    RepeatsIsText(parts);
    NoSlashIn(parts, 0);
    NoSlashIn(parts, 1);
    var first := FirstOccurrence(rest, m);
    ShiftedText(parts, m, first);
    if TextAt(rest, m, first) {
      StripSlashless(parts, m, first + 1);
      SamePairsIff(parts, m, first + 1);
    } else {
      NotFound(parts, m);
    }
  }

  lemma StartsApart(parts: seq<string>)
    requires SlashFree(parts) && Routes(parts, 0)
    ensures parts[0] != "" && SlashFree(parts[1..]) && parts[0] + Path(parts[1..]) != Path(parts[2..])
    ensures |parts| > 2
  {
    assert (parts[0] + Path(parts[1..]))[0] == 'm' && Path(parts[2..])[0] == '/';
  }

  lemma RepeatsIsText(parts: seq<string>)
    requires Routes(parts, 0)
    ensures Repeats(parts, parts[1]) ==> exists t :: 0 < t && TextAt(parts, parts[1], t)
  {
    var t := if parts[1] == "models" then 1 else 2;
    assert Repeats(parts, parts[1]) ==> TextAt(parts, parts[1], t);
  }

  lemma ShiftedText(parts: seq<string>, m: string, first: nat)
    requires parts != [] && forall k | 0 <= k < first :: !TextAt(parts[1..], m, k)
    requires TextAt(parts[1..], m, first) || first == |parts[1..]|
    ensures TextAt(parts[1..], m, first) <==> TextAt(parts, m, first + 1)
    ensures forall k | 0 < k < first + 1 :: !TextAt(parts, m, k)
    ensures !TextAt(parts[1..], m, first) ==> forall k | 0 < k :: !TextAt(parts, m, k)
  {
    forall k | 0 < k < |parts| ensures TextAt(parts, m, k) <==> TextAt(parts[1..], m, k - 1) {}
  }

  lemma NotFound(parts: seq<string>, m: string)
    requires parts != [] && '/' !in parts[0] && Index(Path(parts[1..]), RouteText(m)) == -1
    ensures StripModelPrefix(parts[0] + Path(parts[1..]), m) == parts[0] + Path(parts[1..])
  {
    hide Path, Index;
    IndexSkipsSegment(parts[0], Path(parts[1..]), RouteText(m));
  }

  /** For every path that routes: stripping deletes exactly the chosen segments if and only if the path
      starts with a slash, or its first routing segment is not its first segment, or the same pair of
      segments comes again at once. */
  lemma StrippingIsRightIff(path: string)
    requires ExtractModelName(path) != ""
    ensures var parts := Segments(path);
            var i := RouteFrom(parts, 0);
            && i >= 0 && i + 2 < |parts|
            && (StripModelPrefix(path, ExtractModelName(path)) == Path(parts[..i] + parts[i + 2..])
                <==> ("/" <= path || i > 0 || Repeats(parts, parts[i + 1])))
  {
    Routed(path);
    if "/" <= path {
      StrippingRemovesTheRoutedSegments(path);
    } else {
      hide *;
      SlashlessIff(path, RouteFrom(Segments(path), 0));
    }
  }

  lemma SlashlessIff(path: string, i: nat)
    requires path != "" && !("/" <= path) && Routes(Segments(path), i)
    requires forall j | 0 <= j < i :: !Routes(Segments(path), j)
    ensures var parts := Segments(path);
            StripModelPrefix(path, parts[i + 1]) == Path(parts[..i] + parts[i + 2..]) <==>
            (i > 0 || Repeats(parts, parts[i + 1]))
  {
    assert i + 2 < |Segments(path)|;
    hide *;
    SlashlessPath(path);
    SlashlessSegments(Segments(path), i);
  }

  lemma SlashlessSegments(parts: seq<string>, i: nat)
    requires SlashFree(parts) && parts != [] && parts[0] != "" && Routes(parts, i) && i + 2 < |parts|
    requires forall j | 0 <= j < i :: !Routes(parts, j)
    ensures StripModelPrefix(parts[0] + Path(parts[1..]), parts[i + 1]) == Path(parts[..i] + parts[i + 2..])
       <==> (i > 0 || Repeats(parts, parts[i + 1]))
  {
    hide *;
    if i > 0 {
      SlashlessFromInside(parts, i);
    } else {
      SlashlessFromStart(parts);
      assert parts[..0] + parts[2..] == parts[2..];
    }
  }

  /** The two request targets without a leading slash that Go's HTTP server hands on, the asterisk and
      the empty path, route nothing. */
  lemma OtherTargetsRouteNothing()
    ensures ExtractModelName("") == "" && ExtractModelName("*") == ""
  {
    SplitOne("", '/');
    SplitOne("*", '/');
  }
}

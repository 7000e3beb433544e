// Canonical URL keys (internal/urlutil/urlutil.go). A URL is the record that net/url parses it
// into; a host is a name with an optional port, and the name holds no colon.
module Urls {
  import opened Wrappers
  import opened Text

  datatype RawUrl = RawUrl(
    scheme: string, name: string, port: Option<string>, path: string, query: string, fragment: string)

  type Url = u: RawUrl | ':' !in u.name witness RawUrl("", "", None, "", "", "")

  // The URL that prints as the empty string.
  const EMPTY_URL: Url := RawUrl("", "", None, "", "", "")

  // ----- path.Clean -----

  // One pass over the segments: empty and "." segments vanish, ".." removes the segment before it,
  // and is dropped at the root.
  function Reduce(segments: seq<string>, rooted: bool, kept: seq<string>): seq<string> {
    if segments == [] then kept
    else if segments[0] == "" || segments[0] == "." then Reduce(segments[1..], rooted, kept)
    else if segments[0] == ".." then
      if kept != [] && kept[|kept| - 1] != ".." then Reduce(segments[1..], rooted, kept[..|kept| - 1])
      else if rooted then Reduce(segments[1..], rooted, kept)
      else Reduce(segments[1..], rooted, kept + [".."])
    else Reduce(segments[1..], rooted, kept + [segments[0]])
  }

  predicate Rooted(p: string) {
    p != [] && p[0] == '/'
  }

  // path.Clean of the Go library, by its documented rules.
  function Clean(p: string): string {
    var segments := Reduce(Split(p, '/'), Rooted(p), []);
    if Rooted(p) then "/" + Join(segments, '/')
    else if segments == [] then "."
    else Join(segments, '/')
  }

  // Segments that Reduce leaves alone: none is empty, "." or a removable "..".
  predicate Normal(segments: seq<string>, rooted: bool) {
    && (forall i :: 0 <= i < |segments| ==>
          segments[i] != "" && segments[i] != "." && '/' !in segments[i])
    && (rooted ==> forall i :: 0 <= i < |segments| ==> segments[i] != "..")
    && (forall i, j :: 0 <= i < j < |segments| && segments[j] == ".." ==> segments[i] == "..")
  }

  lemma {:induction false} ReduceIsNormal(segments: seq<string>, rooted: bool, kept: seq<string>)
    requires Normal(kept, rooted)
    requires forall i :: 0 <= i < |segments| ==> '/' !in segments[i]
    ensures Normal(Reduce(segments, rooted, kept), rooted)
    decreases |segments|
  {
    if segments == [] {
    } else {
      var rest := segments[1..];
      if segments[0] == "" || segments[0] == "." {
        ReduceIsNormal(rest, rooted, kept);
      } else if segments[0] == ".." {
        if kept != [] && kept[|kept| - 1] != ".." {
          ReduceIsNormal(rest, rooted, kept[..|kept| - 1]);
        } else if rooted {
          ReduceIsNormal(rest, rooted, kept);
        } else {
          AllParents(kept);
          ReduceIsNormal(rest, rooted, kept + [".."]);
        }
      } else {
        ReduceIsNormal(rest, rooted, kept + [segments[0]]);
      }
    }
  }

  lemma AllParents(kept: seq<string>)
    requires Normal(kept, false)
    requires kept == [] || kept[|kept| - 1] == ".."
    ensures forall i :: 0 <= i < |kept| ==> kept[i] == ".."
  {
  }

  lemma {:induction false} ReduceKeepsNormal(segments: seq<string>, rooted: bool, kept: seq<string>)
    requires Normal(kept + segments, rooted)
    ensures Reduce(segments, rooted, kept) == kept + segments
    decreases |segments|
  {
    var all := kept + segments;
    if segments != [] {
      assert all[|kept|] == segments[0];
      assert segments[0] == ".." && kept != [] ==> all[|kept| - 1] == "..";
      assert kept + [segments[0]] + segments[1..] == all;
      ReduceKeepsNormal(segments[1..], rooted, kept + [segments[0]]);
    } else {
      assert all == kept;
    }
  }

  // The segments of a cleaned path.
  function CleanSegments(p: string): seq<string> {
    Reduce(Split(p, '/'), Rooted(p), [])
  }

  lemma CleanSegmentsNormal(p: string)
    ensures Normal(CleanSegments(p), Rooted(p))
  {
    SplitParts(p, '/');
    ReduceIsNormal(Split(p, '/'), Rooted(p), []);
  }

  lemma JoinStarts(segments: seq<string>)
    requires segments != [] && segments[0] != ""
    ensures Join(segments, '/') != [] && Join(segments, '/')[0] == segments[0][0]
  {
  }

  // Re-reading a cleaned path gives back its segments.
  lemma CleanSegmentsAgain(p: string)
    ensures Rooted(Clean(p)) == Rooted(p)
    ensures CleanSegments(Clean(p)) == CleanSegments(p)
  {
    var segments := CleanSegments(p);
    CleanSegmentsNormal(p);
    ReduceKeepsNormal(segments, Rooted(p), []);
    assert [] + segments == segments;
    if segments == [] && Rooted(p) {
      assert Clean(p) == "/";
      assert Split("/", '/') == ["", ""];
    } else if segments == [] {
      SplitNoSeparator(".", '/');
    } else {
      JoinStarts(segments);
      SplitJoin(segments, '/');
      var joined := Join(segments, '/');
      SplitPrefix("", joined, '/');
      assert "" + ['/'] + joined == "/" + joined;
      if Rooted(p) {
        assert ([""] + segments)[1..] == segments;
      }
    }
  }

  // path.Clean is idempotent, on rooted and on relative paths.
  lemma CleanIdempotent(p: string)
    ensures Clean(Clean(p)) == Clean(p)
  {
    CleanSegmentsAgain(p);
  }

  // ----- The rules of path.Clean -----

  lemma {:induction false} ReduceAppend(a: seq<string>, b: seq<string>, rooted: bool, kept: seq<string>)
    ensures Reduce(a + b, rooted, kept) == Reduce(b, rooted, Reduce(a, rooted, kept))
    decreases |a|
  {
    if a == [] {
      assert a + b == b;
    } else {
      assert (a + b)[1..] == a[1..] + b;
      if a[0] == "" || a[0] == "." {
        ReduceAppend(a[1..], b, rooted, kept);
      } else if a[0] == ".." && kept != [] && kept[|kept| - 1] != ".." {
        ReduceAppend(a[1..], b, rooted, kept[..|kept| - 1]);
      } else if a[0] == ".." && rooted {
        ReduceAppend(a[1..], b, rooted, kept);
      } else {
        ReduceAppend(a[1..], b, rooted, kept + [a[0]]);
      }
    }
  }

  // Equal segments make equal clean paths.
  lemma SameClean(p: string, q: string)
    requires Rooted(p) == Rooted(q) && CleanSegments(p) == CleanSegments(q)
    ensures Clean(p) == Clean(q)
  {
  }

  // The segments of p, a middle and q, read one after the other.
  lemma CleanParts(p: string, middle: string, q: string)
    requires middle != ""
    ensures
      var text := p + "/" + middle + "/" + q;
      && Rooted(text) == Rooted(p + "/" + q)
      && CleanSegments(text)
         == Reduce(Split(q, '/'), Rooted(text),
                   Reduce(Split(middle, '/'), Rooted(text), Reduce(Split(p, '/'), Rooted(text), [])))
      && CleanSegments(p + "/" + q)
         == Reduce(Split(q, '/'), Rooted(text), Reduce(Split(p, '/'), Rooted(text), []))
  {
    var text := p + "/" + middle + "/" + q;
    var r := Rooted(text);
    assert text == p + ['/'] + (middle + ['/'] + q) && p + "/" + q == p + ['/'] + q;
    CleanTwo(p, middle + ['/'] + q, r);
    CleanTwo(p, q, r);
    SplitAppend(middle, q, '/');
    ReduceAppend(Split(middle, '/'), Split(q, '/'), r, Reduce(Split(p, '/'), r, []));
  }

  lemma CleanTwo(p: string, q: string, rooted: bool)
    ensures Reduce(Split(p + ['/'] + q, '/'), rooted, [])
         == Reduce(Split(q, '/'), rooted, Reduce(Split(p, '/'), rooted, []))
  {
    SplitAppend(p, q, '/');
    ReduceAppend(Split(p, '/'), Split(q, '/'), rooted, []);
  }

  // A "." segment goes ...
  lemma CleanDot(p: string, q: string)
    ensures Clean(p + "/./" + q) == Clean(p + "/" + q)
  {
    assert p + "/./" + q == p + "/" + "." + "/" + q;
    CleanParts(p, ".", q);
    SplitNoSeparator(".", '/');
    SameClean(p + "/./" + q, p + "/" + q);
  }

  // ... as does a second slash ...
  lemma CleanSlashes(p: string, q: string)
    ensures Clean(p + "//" + q) == Clean(p + "/" + q)
  {
    var r, c := Rooted(p + "//" + q), Split(q, '/');
    assert p + "//" + q == p + ['/'] + (['/'] + q) && p + "/" + q == p + ['/'] + q;
    assert [] + ['/'] + q == ['/'] + q;
    CleanTwo(p, ['/'] + q, r);
    CleanTwo(p, q, r);
    SplitAppend([], q, '/');
    assert ([""] + c)[1..] == c;
    SameClean(p + "//" + q, p + "/" + q);
  }

  predicate Ordinary(x: string) {
    x != "" && x != "." && x != ".." && '/' !in x
  }

  lemma StepBack(x: string, rooted: bool, kept: seq<string>)
    requires Ordinary(x)
    ensures Reduce([x, ".."], rooted, kept) == kept
  {
    assert [x, ".."][1..] == [".."] && [".."][1..] == [];
    assert (kept + [x])[..|kept|] == kept && (kept + [x])[|kept|] == x;
    assert Reduce([".."], rooted, kept + [x]) == Reduce([], rooted, kept);
  }

  // ... and a name with the ".." after it ...
  lemma CleanParent(p: string, x: string, q: string)
    requires Ordinary(x)
    ensures Clean(p + "/" + x + "/../" + q) == Clean(p + "/" + q)
  {
    var middle := x + "/" + "..";
    assert middle == x + ['/'] + "..";
    assert p + "/" + x + "/../" + q == p + "/" + middle + "/" + q;
    CleanParts(p, middle, q);
    SplitAppend(x, "..", '/');
    SplitNoSeparator(x, '/');
    SplitNoSeparator("..", '/');
    var r := Rooted(p + "/" + q);
    var kept := Reduce(Split(p, '/'), r, []);
    StepBack(x, r, kept);
    assert [x] + [".."] == [x, ".."];
    SameClean(p + "/" + x + "/../" + q, p + "/" + q);
  }

  // ... and a ".." at the root.
  lemma CleanRootParent(q: string)
    ensures Clean("/../" + q) == Clean("/" + q)
  {
    assert "/../" + q == "" + "/" + ".." + "/" + q && "/" + q == "" + "/" + q;
    CleanParts("", "..", q);
    SplitNoSeparator("..", '/');
    SameClean("/../" + q, "/" + q);
  }

  // What none of the rules applies to is clean.
  lemma CleanKeeps(segments: seq<string>)
    requires segments != [] && Normal(segments, true)
    ensures Clean("/" + Join(segments, '/')) == "/" + Join(segments, '/')
  {
    var joined := Join(segments, '/');
    assert "/" + joined == "" + ['/'] + joined;
    SplitPrefix("", joined, '/');
    SplitJoin(segments, '/');
    assert ([""] + segments)[1..] == segments;
    ReduceKeepsNormal(segments, true, []);
    assert [] + segments == segments;
  }

  // ----- cleanPath -----

  const INDEX_FILES := ["/index.html", "/index.htm", "/index.php"]

  function TrimSlash(p: string): string {
    if p != [] && p[|p| - 1] == '/' then p[..|p| - 1] else p
  }

  function CleanPath(p: string): string {
    if p == "" then "/"
    else
      var cleaned := if Clean(p) == "." then "/" else Clean(p);
      var kept := if Lower(cleaned) in INDEX_FILES then "/" else cleaned;
      if kept == "/" then kept
      else if TrimSlash(kept) == "" then "/"
      else TrimSlash(kept)
  }

  lemma JoinEnds(segments: seq<string>)
    requires segments != []
    requires forall i :: 0 <= i < |segments| ==> segments[i] != "" && '/' !in segments[i]
    ensures Join(segments, '/') != []
    ensures var joined := Join(segments, '/'); joined[|joined| - 1] != '/'
  {
  }

  // The trailing-slash trim has nothing to do: only "/" ends in a slash after path.Clean.
  lemma TrimSlashIsIdle(p: string)
    ensures Clean(p) != "" && (Clean(p) != "/" ==> TrimSlash(Clean(p)) == Clean(p))
  {
    CleanSegmentsNormal(p);
    if CleanSegments(p) != [] {
      JoinEnds(CleanSegments(p));
    }
  }

  lemma CleanPathCases(p: string)
    ensures CleanPath(p) == "/" || (CleanPath(p) == Clean(p) && Lower(Clean(p)) !in INDEX_FILES && Clean(p) != ".")
  {
    TrimSlashIsIdle(p);
  }

  lemma CleanPathIdempotent(p: string)
    ensures CleanPath(CleanPath(p)) == CleanPath(p)
  {
    CleanPathCases(p);
    TrimSlashIsIdle(p);
    if CleanPath(p) == "/" {
      CleanRoot();
    } else {
      CleanIdempotent(p);
    }
  }

  lemma CleanRoot()
    ensures Clean("/") == "/"
  {
  }

  // A rooted path comes out as "/" or as "/" and normal segments: none is empty, "." or "..".
  lemma CleanPathNormal(p: string)
    requires Rooted(p) || p == ""
    ensures CleanPath(p) == "/" ||
            exists segments :: segments != [] && Normal(segments, true) && CleanPath(p) == "/" + Join(segments, '/')
  {
    CleanPathCases(p);
    if CleanPath(p) != "/" {
      CleanSegmentsNormal(p);
      assert CleanPath(p) == "/" + Join(CleanSegments(p), '/');
    }
  }

  // Such a path stays as it is, unless it names one of the three index files.
  lemma CleanPathKeeps(segments: seq<string>)
    requires segments != [] && Normal(segments, true)
    ensures
      var p := "/" + Join(segments, '/');
      CleanPath(p) == if Lower(p) in ["/index.html", "/index.htm", "/index.php"] then "/" else p
  {
    var p := "/" + Join(segments, '/');
    CleanKeeps(segments);
    JoinStarts(segments);
    TrimSlashIsIdle(p);
  }

  // The root comes from the index files and from paths of which no segment is kept, and from no other.
  lemma CleanPathRootWhen(p: string)
    ensures CleanPath(p) == "/" <==>
            CleanSegments(p) == [] || Lower(Clean(p)) in ["/index.html", "/index.htm", "/index.php"]
  {
    TrimSlashIsIdle(p);
    CleanSegmentsNormal(p);
    var segments := CleanSegments(p);
    if segments != [] {
      JoinStarts(segments);
      JoinEnds(segments);
      assert Clean(p) != ".";
    } else if p == "" {
      assert CleanPath(p) == "/";
    }
  }

  // ----- Canonicalize -----

  // The port that is left once the scheme's default port is dropped.
  function KeptPort(scheme: string, port: Option<string>): Option<string> {
    if Lower(scheme) == "http" && port == Some("80") then None
    else if Lower(scheme) == "https" && port == Some("443") then None
    else port
  }

  // Port digits have no case, so lowering the host lowers its name only.
  function Canonicalize(u: Url, stripQuery: bool): Url {
    RawUrl(Lower(u.scheme), Lower(u.name), KeptPort(u.scheme, u.port), CleanPath(u.path),
           if stripQuery then "" else u.query, "")
  }

  // The port a URL stands for: that of its scheme when it names none.
  function EffectivePort(u: Url): Option<string> {
    if u.port.Some? then u.port
    else if Lower(u.scheme) == "http" then Some("80")
    else if Lower(u.scheme) == "https" then Some("443")
    else None
  }

  // What a key keeps of a URL: the scheme and the host up to case, every port but 80 under http and 443 under
  // https, a clean path but for the index files, and the query unless it is stripped.
  lemma CanonicalizeKeeps(u: Url, stripQuery: bool, segments: seq<string>)
    requires segments != [] && Normal(segments, true) && u.path == "/" + Join(segments, '/')
    ensures
      var key := Canonicalize(u, stripQuery);
      && key.scheme == Lower(u.scheme) && key.name == Lower(u.name) && key.fragment == ""
      && key.query == (if stripQuery then "" else u.query)
      && key.port == (if (Lower(u.scheme), u.port) in [("http", Some("80")), ("https", Some("443"))] then None
                      else u.port)
      && key.path == (if Lower(u.path) in ["/index.html", "/index.htm", "/index.php"] then "/" else u.path)
  {
    CleanPathKeeps(segments);
  }

  // Two URLs have one key exactly when they agree in the scheme and host up to case, in the port they stand
  // for, in the path once cleaned and, unless it is stripped, in the query.
  lemma SameKeyWhen(a: Url, b: Url, stripQuery: bool)
    ensures Canonicalize(a, stripQuery) == Canonicalize(b, stripQuery) <==>
            && Lower(a.scheme) == Lower(b.scheme) && Lower(a.name) == Lower(b.name)
            && EffectivePort(a) == EffectivePort(b) && CleanPath(a.path) == CleanPath(b.path)
            && (stripQuery || a.query == b.query)
  {
  }

  // Canonicalize is idempotent: every key it makes is a fixed point.
  lemma CanonicalizeIdempotent(u: Url, stripQuery: bool)
    ensures Canonicalize(Canonicalize(u, stripQuery), stripQuery) == Canonicalize(u, stripQuery)
  {
    LowerIdempotent(u.scheme);
    LowerIdempotent(u.name);
    CleanPathIdempotent(u.path);
  }
}

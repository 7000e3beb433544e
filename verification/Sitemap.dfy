// The recursive sitemap walk of internal/worker/worker.go over an arbitrary, possibly cyclic graph
// of sitemap files. Fetching and XML decoding are an oracle from locations to responses.
module Sitemap {
  import opened Uniques
  import opened Wrappers
  import opened Text

  // What a location answers: urls and sitemaps are what the body decodes to as a URL set and as a
  // sitemap index, None where decoding fails.
  datatype Response = FetchError | Body(urls: Option<seq<string>>, sitemaps: Option<seq<string>>)

  type Web = string -> Response

  // What a walk leaves behind: the entries returned, whether it failed, the locations marked since
  // the start, the files it fetched through an index, in order, and the files that an index at the last level
  // lists, which are marked but not fetched.
  datatype Walked = Walked(
    urls: seq<string>, failed: bool, seen: set<string>, fetched: seq<string>, cut: seq<string>)

  predicate IsUrlSet(r: Response) {
    r.Body? && r.urls.Some? && r.urls.value != []
  }

  predicate IsIndex(r: Response) {
    !IsUrlSet(r) && r.Body? && r.sitemaps.Some? && r.sitemaps.value != []
  }

  predicate Skipped(loc: string, seen: set<string>) {
    loc == "" || loc in seen
  }

  // ----- The walk as a function -----

  const NOTHING := Walked([], false, {}, [], [])

  // The next location of a URL set after r.
  function Taken(r: Walked, loc: string, room: nat): Walked {
    if |r.urls| >= room || Skipped(loc, r.seen) then r
    else r.(urls := r.urls + [loc], seen := r.seen + {loc})
  }

  // The first `room` new entries of a URL set.
  function Entries(locs: seq<string>, room: nat, seen: set<string>): Walked {
    if locs == [] then NOTHING.(seen := seen)
    else Taken(Entries(locs[..|locs| - 1], room, seen), TrimSpace(locs[|locs| - 1]), room)
  }

  // The walk from one file, `levels` deep, for at most `room` entries.
  function Walk(web: Web, file: string, levels: int, room: int, seen: set<string>): Walked
    decreases Max(levels, 0), 2, 0
  {
    if room <= 0 || levels <= 0 then NOTHING.(seen := seen)
    else if web(file) == FetchError then NOTHING.(failed := true, seen := seen)
    else if IsUrlSet(web(file)) then Entries(web(file).urls.value, room, seen)
    else if IsIndex(web(file)) then WalkIndex(web, web(file).sitemaps.value, levels, room, seen)
    else NOTHING.(seen := seen)
  }

  // The walk of the files an index lists; a file that fails to fetch is passed over.
  function WalkIndex(web: Web, locs: seq<string>, levels: int, room: int, seen: set<string>): Walked
    requires levels > 0
    decreases levels, 1, |locs|
  {
    if locs == [] then NOTHING.(seen := seen)
    else
      var r := WalkIndex(web, locs[..|locs| - 1], levels, room, seen);
      Followed(web, r, TrimSpace(locs[|locs| - 1]), levels, room)
  }

  // The next location of an index after r.
  function Followed(web: Web, r: Walked, loc: string, levels: int, room: int): Walked
    requires levels > 0
    decreases levels, 0, 1
  {
    if |r.urls| >= room || Skipped(loc, r.seen) then r
    else Joined(r, Fetched(web, loc, levels, room - |r.urls|, r.seen))
  }

  // The walk of one new location of an index.
  function Fetched(web: Web, loc: string, levels: int, room: int, seen: set<string>): Walked
    requires levels > 0
    decreases levels, 0, 0
  {
    Joined(Here(loc, levels, seen), Walk(web, loc, levels - 1, room, seen + {loc}))
  }

  // What marking one location of an index comes to, and two walks one after the other.
  function Here(loc: string, levels: int, seen: set<string>): Walked {
    if levels > 1 then NOTHING.(seen := seen + {loc}, fetched := [loc])
    else NOTHING.(seen := seen + {loc}, cut := [loc])
  }

  function Joined(a: Walked, b: Walked): Walked {
    Walked(a.urls + b.urls, false, b.seen, a.fetched + b.fetched, a.cut + b.cut)
  }

  // The walks from the advertised files, which share what they have seen. These files themselves
  // are neither marked nor counted as fetched through an index.
  function WalkAll(web: Web, roots: seq<string>, levels: int, room: int, seen: set<string>): Walked {
    if roots == [] then NOTHING.(seen := seen)
    else
      NextRoot(web, WalkAll(web, roots[..|roots| - 1], levels, room, seen), roots[|roots| - 1], levels, room)
  }

  // The next advertised file after r.
  function NextRoot(web: Web, r: Walked, root: string, levels: int, room: int): Walked {
    if |r.urls| >= room then r else Joined(r, Walk(web, root, levels, room - |r.urls|, r.seen))
  }

  // Once the room is used up nothing is added.
  lemma {:induction false} EntriesFull(locs: seq<string>, n: nat, room: nat, seen: set<string>)
    requires n <= |locs| && |Entries(locs[..n], room, seen).urls| >= room
    ensures Entries(locs, room, seen) == Entries(locs[..n], room, seen)
    decreases |locs|
  {
    if n == |locs| {
      assert locs[..n] == locs;
    } else {
      assert locs[..|locs| - 1][..n] == locs[..n];
      EntriesFull(locs[..|locs| - 1], n, room, seen);
    }
  }

  lemma {:induction false} IndexFull(web: Web, locs: seq<string>, n: nat, levels: int, room: int, seen: set<string>)
    requires levels > 0 && n <= |locs| && |WalkIndex(web, locs[..n], levels, room, seen).urls| >= room
    ensures WalkIndex(web, locs, levels, room, seen) == WalkIndex(web, locs[..n], levels, room, seen)
    decreases |locs|
  {
    if n == |locs| {
      assert locs[..n] == locs;
    } else {
      assert locs[..|locs| - 1][..n] == locs[..n];
      IndexFull(web, locs[..|locs| - 1], n, levels, room, seen);
    }
  }

  lemma {:induction false} RootsFull(web: Web, roots: seq<string>, n: nat, levels: int, room: int, seen: set<string>)
    requires n <= |roots| && |WalkAll(web, roots[..n], levels, room, seen).urls| >= room
    ensures WalkAll(web, roots, levels, room, seen) == WalkAll(web, roots[..n], levels, room, seen)
    decreases |roots|
  {
    if n == |roots| {
      assert roots[..n] == roots;
    } else {
      assert roots[..|roots| - 1][..n] == roots[..n];
      RootsFull(web, roots[..|roots| - 1], n, levels, room, seen);
    }
  }

  // A walk that fails leaves nothing behind.
  lemma FailedIsEmpty(web: Web, file: string, levels: int, room: int, seen: set<string>)
    ensures
      var r := Walk(web, file, levels, room, seen);
      && (r.failed <==> room > 0 && levels > 0 && web(file) == FetchError)
      && (r.failed ==> r.urls == [] && r.seen == seen && r.fetched == [])
  {
    if room > 0 && levels > 0 && web(file) != FetchError {
      if IsUrlSet(web(file)) {
        EntriesAreLeading(web(file).urls.value, room, seen);
      } else if IsIndex(web(file)) {
        IndexNeverFails(web, web(file).sitemaps.value, levels, room, seen);
      }
    }
  }

  lemma {:induction false} IndexNeverFails(web: Web, locs: seq<string>, levels: int, room: int, seen: set<string>)
    requires levels > 0
    ensures !WalkIndex(web, locs, levels, room, seen).failed
    decreases |locs|
  {
    if locs == [] {
    } else {
      IndexNeverFails(web, locs[..|locs| - 1], levels, room, seen);
    }
  }

  // ----- A URL set -----

  // The first `room` of the distinct trimmed locations that are not blank and not marked yet.
  function Leading(locs: seq<string>, room: nat, seen: set<string>): seq<string> {
    First(Fresh(Mapped(TrimSpace, locs), "", seen), room)
  }

  function First(locs: seq<string>, room: nat): seq<string> {
    if |locs| <= room then locs else locs[..room]
  }

  function SetOf(locs: seq<string>): set<string> {
    set loc | loc in locs
  }

  lemma FreshExact(values: seq<string>, blank: string, seen: set<string>)
    ensures forall v :: v in Fresh(values, blank, seen) <==> v in values && v != blank && v !in seen
  {
    FirstOccurrencesExact(values, blank);
    UnseenExact(FirstOccurrences(values, blank), seen);
  }

  lemma LeadingLast(locs: seq<string>, last: string, room: nat, seen: set<string>)
    ensures
      var before, loc := Leading(locs, room, seen), TrimSpace(last);
      Leading(locs + [last], room, seen) ==
      if |before| < room && !Skipped(loc, seen + SetOf(before)) then before + [loc] else before
  {
    var trimmed, loc := Mapped(TrimSpace, locs), TrimSpace(last);
    assert Mapped(TrimSpace, locs + [last]) == trimmed + [loc];
    FreshLast(trimmed, loc, "", seen);
    FreshExact(trimmed, "", seen);
  }

  // A URL set's entries are exactly those, and they alone are marked.
  lemma {:induction false} EntriesAreLeading(locs: seq<string>, room: nat, seen: set<string>)
    ensures
      var entries := Leading(locs, room, seen);
      Entries(locs, room, seen) == Walked(entries, false, seen + SetOf(entries), [], [])
    decreases |locs|
  {
    if locs == [] {
      assert Mapped(TrimSpace, locs) == [] && SetOf([]) == {};
    } else {
      var n := |locs| - 1;
      EntriesAreLeading(locs[..n], room, seen);
      LeadingTaken(locs[..n], locs[n], room, seen);
      assert locs == locs[..n] + [locs[n]];
    }
  }

  lemma LeadingTaken(locs: seq<string>, last: string, room: nat, seen: set<string>)
    ensures
      var before, after := Leading(locs, room, seen), Leading(locs + [last], room, seen);
      Taken(Walked(before, false, seen + SetOf(before), [], []), TrimSpace(last), room)
      == Walked(after, false, seen + SetOf(after), [], [])
  {
    LeadingLast(locs, last, room, seen);
    SetOfMore(Leading(locs, room, seen), TrimSpace(last));
  }

  lemma SetOfMore(locs: seq<string>, loc: string)
    ensures SetOf(locs + [loc]) == SetOf(locs) + {loc}
  {
  }

  // Entries are listed, and when room is left all that is listed is marked.
  lemma EntriesExact(locs: seq<string>, room: nat, seen: set<string>)
    ensures
      var r := Entries(locs, room, seen);
      && (forall u :: u in r.urls ==> u != "" && u !in seen && exists i :: 0 <= i < |locs| && TrimSpace(locs[i]) == u)
      && (|r.urls| < room ==> forall i :: 0 <= i < |locs| ==> TrimSpace(locs[i]) == "" || TrimSpace(locs[i]) in r.seen)
  {
    var trimmed := Mapped(TrimSpace, locs);
    EntriesAreLeading(locs, room, seen);
    FreshExact(trimmed, "", seen);
    forall u | u in Leading(locs, room, seen)
      ensures u in Fresh(trimmed, "", seen)
    {
    }
    forall i | 0 <= i < |locs|
      ensures TrimSpace(locs[i]) in trimmed
    {
      assert trimmed[i] == TrimSpace(locs[i]);
    }
  }

  // ----- The walk as the worker runs it -----

  class Walker {
    const web: Web
    var seen: set<string>
    ghost var fetched: seq<string>

    constructor (web: Web)
      ensures this.web == web && seen == {} && fetched == []
    {
      this.web := web;
      seen := {};
      fetched := [];
    }

    // fetchSitemapURLs
    method FetchSitemapUrls(file: string, depth: int, maxDepth: int, room: int)
      returns (urls: seq<string>, failed: bool)
      modifies this
      ensures var r := Walk(web, file, maxDepth - depth + 1, room, old(seen));
              && urls == r.urls && failed == r.failed && seen == r.seen && fetched == old(fetched) + r.fetched
      ensures room <= 0 || depth > maxDepth ==> urls == [] && !failed && seen == old(seen)
      ensures room > 0 && depth <= maxDepth ==> (failed <==> web(file) == FetchError)
      ensures room > 0 && depth <= maxDepth && web(file).Body? && web(file).urls.GetOr([]) != [] ==>
                urls == Leading(web(file).urls.value, room, old(seen)) && seen == old(seen) + SetOf(urls)
      ensures room > 0 && depth <= maxDepth && web(file).Body? && web(file).urls.GetOr([]) == []
              && web(file).sitemaps.GetOr([]) != [] ==>
                var r := WalkIndex(web, web(file).sitemaps.value, maxDepth - depth + 1, room, old(seen));
                urls == r.urls && seen == r.seen && fetched == old(fetched) + r.fetched
      decreases Max(maxDepth - depth + 1, 0), 2, 0
    {
      FailedIsEmpty(web, file, maxDepth - depth + 1, room, seen);
      if room <= 0 || depth > maxDepth {
        return [], false;
      }
      var response := web(file);
      if response == FetchError {
        return [], true;
      }
      if response.urls.Some? && response.urls.value != [] {
        urls := TakeEntries(response.urls.value, room);
        return urls, false;
      }
      if response.sitemaps.Some? && response.sitemaps.value != [] {
        urls := FollowIndex(response.sitemaps.value, depth, maxDepth, room);
        return urls, false;
      }
      return [], false;
    }

    // The loop over a URL set.
    method TakeEntries(locs: seq<string>, room: nat) returns (out: seq<string>)
      requires room > 0
      modifies this`seen
      ensures var r := Entries(locs, room, old(seen)); out == r.urls && seen == r.seen && r.fetched == []
      ensures out == Leading(locs, room, old(seen)) && seen == old(seen) + SetOf(out)
    {
      out := [];
      EntriesAreLeading(locs, room, seen);
      for i := 0 to |locs|
        invariant |out| < room
        invariant var r := Entries(locs[..i], room, old(seen)); out == r.urls && seen == r.seen
      {
        var loc := TrimSpace(locs[i]);
        assert locs[..i + 1][..i] == locs[..i];
        if Skipped(loc, seen) {
          continue;
        }
        seen := seen + {loc};
        out := out + [loc];
        if |out| >= room {
          EntriesFull(locs, i + 1, room, old(seen));
          return;
        }
      }
      assert locs[..|locs|] == locs;
    }

    // The loop over a sitemap index.
    method FollowIndex(locs: seq<string>, depth: int, maxDepth: int, room: nat) returns (collected: seq<string>)
      requires room > 0 && depth <= maxDepth
      modifies this
      ensures var r := WalkIndex(web, locs, maxDepth - depth + 1, room, old(seen));
              collected == r.urls && seen == r.seen && fetched == old(fetched) + r.fetched
      decreases Max(maxDepth - depth + 1, 0), 1, 0
    {
      collected := [];
      ghost var levels := maxDepth - depth + 1;
      ghost var r := WalkIndex(web, [], levels, room, seen);
      for i := 0 to |locs|
        invariant |collected| < room && r == WalkIndex(web, locs[..i], levels, room, old(seen))
        invariant collected == r.urls && seen == r.seen && fetched == old(fetched) + r.fetched
      {
        var loc := TrimSpace(locs[i]);
        assert locs[..i + 1][..i] == locs[..i];
        ghost var before := r;
        r := Followed(web, r, loc, levels, room);
        if Skipped(loc, seen) {
          assert r == before;
          continue;
        }
        ghost var more := Fetched(web, loc, levels, room - |collected|, seen);
        assert r == Joined(before, more);
        var urls := FollowOne(loc, depth, maxDepth, room - |collected|);
        assert fetched == old(fetched) + (before.fetched + more.fetched);
        collected := collected + urls;
        if |collected| >= room {
          IndexFull(web, locs, i + 1, levels, room, old(seen));
          return;
        }
      }
      assert locs[..|locs|] == locs;
    }

    // One new location of an index: a file that fails to fetch is passed over.
    method FollowOne(loc: string, depth: int, maxDepth: int, room: nat) returns (urls: seq<string>)
      requires room > 0 && depth <= maxDepth
      modifies this
      ensures
        var r := Fetched(web, loc, maxDepth - depth + 1, room, old(seen));
        urls == r.urls && seen == r.seen && fetched == old(fetched) + r.fetched
      decreases Max(maxDepth - depth + 1, 0), 0, 0
    {
      FailedIsEmpty(web, loc, maxDepth - depth, room, seen + {loc});
      seen := seen + {loc};
      fetched := fetched + if maxDepth - depth + 1 > 1 then [loc] else [];
      var failed;
      urls, failed := FetchSitemapUrls(loc, depth + 1, maxDepth, room);
      if failed {
        urls := [];
      }
    }

    // The loop of discoverSitemapLinks over the advertised sitemaps.
    method Discover(roots: seq<string>, urlLimit: int, maxNested: int) returns (raw: seq<string>)
      requires seen == {} && fetched == []
      modifies this
      ensures var r := WalkAll(web, roots, Levels(maxNested), Limit(urlLimit), {});
              raw == r.urls && seen == r.seen && fetched == r.fetched
    {
      raw := [];
      var limit, maxDepth := Limit(urlLimit), Levels(maxNested);
      ghost var r := WalkAll(web, [], maxDepth, limit, {});
      for i := 0 to |roots|
        invariant |raw| < limit && r == WalkAll(web, roots[..i], maxDepth, limit, {})
        invariant raw == r.urls && seen == r.seen && fetched == r.fetched
      {
        assert roots[..i + 1][..i] == roots[..i];
        r := NextRoot(web, r, roots[i], maxDepth, limit);
        var urls := FollowRoot(roots[i], maxDepth, limit - |raw|);
        raw := raw + urls;
        if |raw| >= limit {
          RootsFull(web, roots, i + 1, maxDepth, limit, {});
          return;
        }
      }
      assert roots[..|roots|] == roots;
    }

    // One advertised sitemap: a file that fails to fetch is passed over.
    method FollowRoot(root: string, maxDepth: int, room: nat) returns (urls: seq<string>)
      modifies this
      ensures var file := Walk(web, root, maxDepth, room, old(seen));
              urls == file.urls && seen == file.seen && fetched == old(fetched) + file.fetched
    {
      FailedIsEmpty(web, root, maxDepth, room, seen);
      var failed;
      urls, failed := FetchSitemapUrls(root, 1, maxDepth, room);
      if failed {
        urls := [];
      }
    }
  }

  // sitemap_url_limit and sitemap_max_nested fall back to 1000 and 1.
  function Limit(urlLimit: int): (limit: nat)
    ensures limit > 0 && (urlLimit > 0 ==> limit == urlLimit) && (urlLimit <= 0 ==> limit == 1000)
  {
    if urlLimit <= 0 then 1000 else urlLimit
  }

  function Levels(maxNested: int): (levels: nat)
    ensures levels > 0 && (maxNested > 0 ==> levels == maxNested) && (maxNested <= 0 ==> levels == 1)
  {
    if maxNested <= 0 then 1 else maxNested
  }

  // ----- No entry twice, no file twice, never too many -----

  // What a walk that started with `seen` may leave behind: new entries within the room, none twice;
  // new files fetched, none twice; no location both an entry and a file; all of them marked.
  ghost predicate Thrifty(r: Walked, room: int, seen: set<string>) {
    && |r.urls| <= Max(room, 0) && seen <= r.seen
    && Distinct(r.urls) && Distinct(r.fetched)
    && (forall u :: u in r.urls ==> u !in r.fetched)
    && (forall u :: u in r.urls || u in r.fetched ==> u != "" && u !in seen && u in r.seen)
  }

  lemma DistinctTogether<T>(a: seq<T>, b: seq<T>)
    requires Distinct(a) && Distinct(b) && forall x :: x in a ==> x !in b
    ensures Distinct(a + b)
  {
    forall i, j | 0 <= i < j < |a + b|
      ensures (a + b)[i] != (a + b)[j]
    {
      if i < |a| <= j {
        assert a[i] in a && b[j - |a|] in b;
      }
    }
  }

  // Two walks one after the other.
  lemma ThriftyTogether(first: Walked, second: Walked, room: int, seen: set<string>)
    requires Thrifty(first, room, seen) && Thrifty(second, room - |first.urls|, first.seen)
    requires |first.urls| <= room
    ensures Thrifty(Joined(first, second), room, seen)
  {
    DistinctTogether(first.urls, second.urls);
    DistinctTogether(first.fetched, second.fetched);
  }

  lemma {:induction false} EntriesThrifty(locs: seq<string>, room: nat, seen: set<string>)
    ensures Thrifty(Entries(locs, room, seen), room, seen)
    decreases |locs|
  {
    if locs == [] {
    } else {
      EntriesThrifty(locs[..|locs| - 1], room, seen);
    }
  }

  lemma {:induction false} WalkThrifty(web: Web, file: string, levels: int, room: int, seen: set<string>)
    ensures Thrifty(Walk(web, file, levels, room, seen), room, seen)
    decreases Max(levels, 0), 2, 0
  {
    if room > 0 && levels > 0 && web(file) != FetchError {
      if IsUrlSet(web(file)) {
        EntriesThrifty(web(file).urls.value, room, seen);
      } else if IsIndex(web(file)) {
        IndexThrifty(web, web(file).sitemaps.value, levels, room, seen);
      }
    }
  }

  lemma {:induction false} IndexThrifty(web: Web, locs: seq<string>, levels: int, room: int, seen: set<string>)
    requires levels > 0
    ensures Thrifty(WalkIndex(web, locs, levels, room, seen), room, seen)
    decreases levels, 1, |locs|
  {
    if locs == [] {
    } else {
      var r := WalkIndex(web, locs[..|locs| - 1], levels, room, seen);
      IndexThrifty(web, locs[..|locs| - 1], levels, room, seen);
      FollowedThrifty(web, r, TrimSpace(locs[|locs| - 1]), levels, room, seen);
    }
  }

  lemma {:induction false} FollowedThrifty(
      web: Web, r: Walked, loc: string, levels: int, room: int, seen: set<string>)
    requires levels > 0 && Thrifty(r, room, seen)
    ensures Thrifty(Followed(web, r, loc, levels, room), room, seen)
    decreases levels, 0, 0
  {
    if |r.urls| < room && !Skipped(loc, r.seen) {
      var left, here := room - |r.urls|, Here(loc, levels, r.seen);
      WalkThrifty(web, loc, levels - 1, left, r.seen + {loc});
      ThriftyTogether(here, Walk(web, loc, levels - 1, left, r.seen + {loc}), left, r.seen);
      ThriftyTogether(r, Joined(here, Walk(web, loc, levels - 1, left, r.seen + {loc})), room, seen);
    }
  }

  // ----- Only leaves within reach -----

  // The locations a file lists.
  function Listed(r: Response): seq<string> {
    if IsUrlSet(r) then r.urls.value else if IsIndex(r) then r.sitemaps.value else []
  }

  ghost predicate Lists(r: Response, loc: string) {
    loc != "" && exists i :: 0 <= i < |Listed(r)| && TrimSpace(Listed(r)[i]) == loc
  }

  // u is an entry of a URL set that `file` leads to through at most levels - 1 indexes.
  ghost predicate LeafWithin(web: Web, file: string, u: string, levels: int)
    decreases levels
  {
    levels > 0
    && if IsUrlSet(web(file)) then Lists(web(file), u)
       else exists next: string :: Lists(web(file), next) && LeafWithin(web, next, u, levels - 1)
  }

  lemma {:induction false} WalkFindsLeaves(
      web: Web, file: string, levels: int, room: int, seen: set<string>, u: string)
    requires u in Walk(web, file, levels, room, seen).urls
    ensures LeafWithin(web, file, u, levels)
    decreases Max(levels, 0), 2, 0
  {
    if IsUrlSet(web(file)) {
      var locs := web(file).urls.value;
      EntriesExact(locs, room, seen);
      var i :| 0 <= i < |locs| && TrimSpace(locs[i]) == u;
      ListsAt(web(file), i);
    } else {
      var locs := web(file).sitemaps.value;
      IndexFindsLeaves(web, locs, levels, room, seen, u);
      var i :| 0 <= i < |locs| && TrimSpace(locs[i]) != "" && LeafWithin(web, TrimSpace(locs[i]), u, levels - 1);
      ListsAt(web(file), i);
    }
  }

  lemma ListsAt(r: Response, i: nat)
    requires i < |Listed(r)| && TrimSpace(Listed(r)[i]) != ""
    ensures Lists(r, TrimSpace(Listed(r)[i]))
  {
  }

  lemma {:induction false} IndexFindsLeaves(
      web: Web, locs: seq<string>, levels: int, room: int, seen: set<string>, u: string)
    requires levels > 0 && u in WalkIndex(web, locs, levels, room, seen).urls
    ensures exists i :: 0 <= i < |locs| && TrimSpace(locs[i]) != ""
                        && LeafWithin(web, TrimSpace(locs[i]), u, levels - 1)
    decreases levels, 1, |locs|
  {
    var n := |locs| - 1;
    var r, loc := WalkIndex(web, locs[..n], levels, room, seen), TrimSpace(locs[n]);
    if u in r.urls {
      IndexFindsLeaves(web, locs[..n], levels, room, seen, u);
      var i :| 0 <= i < n && TrimSpace(locs[..n][i]) != "" && LeafWithin(web, TrimSpace(locs[..n][i]), u, levels - 1);
      assert locs[i] == locs[..n][i];
    } else {
      FollowedUrls(web, r, loc, levels, room);
      WalkFindsLeaves(web, loc, levels - 1, room - |r.urls|, r.seen + {loc}, u);
    }
  }

  lemma FollowedUrls(web: Web, r: Walked, loc: string, levels: int, room: int)
    requires levels > 0
    ensures
      var file := Walk(web, loc, levels - 1, room - |r.urls|, r.seen + {loc});
      forall u :: u in Followed(web, r, loc, levels, room).urls ==> u in r.urls || u in file.urls
  {
  }

  // ----- Nothing listed is overlooked, short of the limit -----

  // All a file lists is marked.
  ghost predicate Covered(web: Web, file: string, seen: set<string>) {
    forall loc :: Lists(web(file), loc) ==> loc in seen
  }

  ghost predicate AllCovered(web: Web, files: seq<string>, seen: set<string>) {
    forall f :: f in files ==> Covered(web, f, seen)
  }

  ghost predicate AllMarked(locs: seq<string>, seen: set<string>) {
    forall i :: 0 <= i < |locs| ==> TrimSpace(locs[i]) == "" || TrimSpace(locs[i]) in seen
  }

  lemma StillCovered(web: Web, files: seq<string>, seen: set<string>, more: set<string>)
    requires seen <= more && AllCovered(web, files, seen)
    ensures AllCovered(web, files, more)
  {
    forall f | f in files
      ensures Covered(web, f, more)
    {
      assert Covered(web, f, seen);
    }
  }

  lemma {:induction false} WalkCovers(web: Web, file: string, levels: int, room: int, seen: set<string>)
    requires levels > 0 && |Walk(web, file, levels, room, seen).urls| < room
    ensures var r := Walk(web, file, levels, room, seen);
            Covered(web, file, r.seen) && AllCovered(web, r.fetched, r.seen)
    decreases levels, 2, 0
  {
    if web(file) != FetchError {
      if IsUrlSet(web(file)) {
        EntriesExact(web(file).urls.value, room, seen);
        EntriesAreLeading(web(file).urls.value, room, seen);
      } else if IsIndex(web(file)) {
        IndexCovers(web, web(file).sitemaps.value, levels, room, seen);
      }
    }
  }

  lemma {:induction false} IndexCovers(web: Web, locs: seq<string>, levels: int, room: int, seen: set<string>)
    requires levels > 0 && |WalkIndex(web, locs, levels, room, seen).urls| < room
    ensures var r := WalkIndex(web, locs, levels, room, seen);
            AllCovered(web, r.fetched, r.seen) && AllMarked(locs, r.seen)
    decreases levels, 1, |locs|
  {
    if locs == [] {
    } else {
      var n := |locs| - 1;
      IndexCovers(web, locs[..n], levels, room, seen);
      FollowedCovers(web, WalkIndex(web, locs[..n], levels, room, seen), locs[..n], locs[n], levels, room);
      assert locs == locs[..n] + [locs[n]];
    }
  }

  lemma {:induction false} FollowedCovers(
      web: Web, r: Walked, locs: seq<string>, last: string, levels: int, room: int)
    requires levels > 0 && AllCovered(web, r.fetched, r.seen) && AllMarked(locs, r.seen)
    requires |Followed(web, r, TrimSpace(last), levels, room).urls| < room
    ensures var next := Followed(web, r, TrimSpace(last), levels, room);
            AllCovered(web, next.fetched, next.seen) && AllMarked(locs + [last], next.seen)
    decreases levels, 0, 0
  {
    var loc := TrimSpace(last);
    if |r.urls| < room && !Skipped(loc, r.seen) {
      var file := Walk(web, loc, levels - 1, room - |r.urls|, r.seen + {loc});
      WalkThrifty(web, loc, levels - 1, room - |r.urls|, r.seen + {loc});
      StillCovered(web, r.fetched, r.seen, file.seen);
      if levels > 1 {
        WalkCovers(web, loc, levels - 1, room - |r.urls|, r.seen + {loc});
      }
    }
  }

  // ----- What becomes of each location -----

  // Every location marked since the start is an entry, a file fetched or one cut off.
  ghost predicate Accounts(r: Walked, seen: set<string>) {
    r.seen == seen + SetOf(r.urls) + SetOf(r.fetched) + SetOf(r.cut)
  }

  lemma SetsTogether(a: seq<string>, b: seq<string>)
    ensures SetOf(a + b) == SetOf(a) + SetOf(b)
  {
  }

  lemma AccountsTogether(first: Walked, second: Walked, seen: set<string>)
    requires Accounts(first, seen) && Accounts(second, first.seen)
    ensures Accounts(Joined(first, second), seen)
  {
    SetsTogether(first.urls, second.urls);
    SetsTogether(first.fetched, second.fetched);
    SetsTogether(first.cut, second.cut);
  }

  lemma {:induction false} WalkAccounts(web: Web, file: string, levels: int, room: int, seen: set<string>)
    ensures Accounts(Walk(web, file, levels, room, seen), seen)
    decreases Max(levels, 0), 2, 0
  {
    assert SetOf([]) == {};
    if room > 0 && levels > 0 && web(file) != FetchError {
      if IsUrlSet(web(file)) {
        EntriesAreLeading(web(file).urls.value, room, seen);
      } else if IsIndex(web(file)) {
        IndexAccounts(web, web(file).sitemaps.value, levels, room, seen);
      }
    }
  }

  lemma {:induction false} IndexAccounts(web: Web, locs: seq<string>, levels: int, room: int, seen: set<string>)
    requires levels > 0
    ensures Accounts(WalkIndex(web, locs, levels, room, seen), seen)
    decreases levels, 1, |locs|
  {
    if locs == [] {
      assert SetOf([]) == {};
    } else {
      var r := WalkIndex(web, locs[..|locs| - 1], levels, room, seen);
      IndexAccounts(web, locs[..|locs| - 1], levels, room, seen);
      FollowedAccounts(web, r, TrimSpace(locs[|locs| - 1]), levels, room, seen);
    }
  }

  lemma {:induction false} FollowedAccounts(
      web: Web, r: Walked, loc: string, levels: int, room: int, seen: set<string>)
    requires levels > 0 && Accounts(r, seen)
    ensures Accounts(Followed(web, r, loc, levels, room), seen)
    decreases levels, 0, 0
  {
    if |r.urls| < room && !Skipped(loc, r.seen) {
      var here, file := Here(loc, levels, r.seen), Walk(web, loc, levels - 1, room - |r.urls|, r.seen + {loc});
      WalkAccounts(web, loc, levels - 1, room - |r.urls|, r.seen + {loc});
      HereAccounts(loc, levels, r.seen);
      AccountsTogether(here, file, r.seen);
      AccountsTogether(r, Joined(here, file), seen);
    }
  }

  lemma HereAccounts(loc: string, levels: int, seen: set<string>)
    ensures Accounts(Here(loc, levels, seen), seen)
  {
    assert SetOf([loc]) == {loc} && SetOf([]) == {};
  }

  // `loc` is listed by the last of a chain of `depth` indexes that begins with `file`; here and below, a chain
  // that goes on from a list of locations.
  ghost predicate IndexedAt(web: Web, file: string, loc: string, depth: int)
    decreases depth, 2
  {
    IsIndex(web(file)) && ListedAt(web, web(file).sitemaps.value, loc, depth)
  }

  ghost predicate ListedAt(web: Web, locs: seq<string>, loc: string, depth: int)
    decreases depth, 1
  {
    exists i :: 0 <= i < |locs| && TrimSpace(locs[i]) != "" && LeadsTo(web, TrimSpace(locs[i]), loc, depth)
  }

  ghost predicate LeadsTo(web: Web, start: string, loc: string, depth: int)
    decreases depth, 0
  {
    depth >= 1 && if depth == 1 then start == loc else IndexedAt(web, start, loc, depth - 1)
  }

  // ... a chain of fewer than `levels` indexes.
  ghost predicate IndexedWithin(web: Web, file: string, loc: string, levels: int) {
    exists depth :: depth < levels && IndexedAt(web, file, loc, depth)
  }

  ghost predicate ListedWithin(web: Web, locs: seq<string>, loc: string, levels: int) {
    exists depth :: depth < levels && ListedAt(web, locs, loc, depth)
  }

  // The last location leads one level further down.
  lemma ListedLast(web: Web, locs: seq<string>, loc: string, depth: int)
    requires locs != [] && TrimSpace(locs[|locs| - 1]) != "" && IndexedAt(web, TrimSpace(locs[|locs| - 1]), loc, depth)
    ensures ListedAt(web, locs, loc, depth + 1)
  {
    var start := TrimSpace(locs[|locs| - 1]);
    var next := web(start).sitemaps.value;
    var i :| 0 <= i < |next| && TrimSpace(next[i]) != "" && LeadsTo(web, TrimSpace(next[i]), loc, depth);
    assert LeadsTo(web, start, loc, depth + 1);
  }

  // A file fetched is listed by an index above the last level, and one cut off by an index at that level.
  ghost predicate Reached(web: Web, file: string, levels: int, r: Walked) {
    && (forall f :: f in r.fetched ==> IndexedWithin(web, file, f, levels))
    && (forall f :: f in r.cut ==> IndexedAt(web, file, f, levels))
  }

  ghost predicate ReachedFrom(web: Web, locs: seq<string>, levels: int, r: Walked) {
    && (forall f :: f in r.fetched ==> ListedWithin(web, locs, f, levels))
    && (forall f :: f in r.cut ==> ListedAt(web, locs, f, levels))
  }

  lemma {:induction false} WalkReaches(web: Web, file: string, levels: int, room: int, seen: set<string>)
    ensures Reached(web, file, levels, Walk(web, file, levels, room, seen))
    decreases Max(levels, 0), 2, 0
  {
    var r := Walk(web, file, levels, room, seen);
    if room > 0 && levels > 0 && web(file) != FetchError {
      if IsUrlSet(web(file)) {
        EntriesAreLeading(web(file).urls.value, room, seen);
      } else if IsIndex(web(file)) {
        IndexReaches(web, web(file).sitemaps.value, levels, room, seen);
        FromIndex(web, file, levels, r);
      }
    }
  }

  lemma FromIndex(web: Web, file: string, levels: int, r: Walked)
    requires IsIndex(web(file)) && ReachedFrom(web, web(file).sitemaps.value, levels, r)
    ensures Reached(web, file, levels, r)
  {
    forall f | f in r.fetched
      ensures IndexedWithin(web, file, f, levels)
    {
      assert ListedWithin(web, web(file).sitemaps.value, f, levels);
      var depth :| depth < levels && ListedAt(web, web(file).sitemaps.value, f, depth);
      assert IndexedAt(web, file, f, depth);
    }
  }

  lemma {:induction false} IndexReaches(web: Web, locs: seq<string>, levels: int, room: int, seen: set<string>)
    requires levels > 0
    ensures ReachedFrom(web, locs, levels, WalkIndex(web, locs, levels, room, seen))
    decreases levels, 1, |locs|
  {
    if locs == [] {
    } else {
      var n := |locs| - 1;
      IndexReaches(web, locs[..n], levels, room, seen);
      MoreListed(web, locs[..n], locs[n], levels, WalkIndex(web, locs[..n], levels, room, seen));
      assert locs == locs[..n] + [locs[n]];
      FollowedReaches(web, WalkIndex(web, locs[..n], levels, room, seen), locs, levels, room);
    }
  }

  lemma {:induction false} FollowedReaches(web: Web, r: Walked, locs: seq<string>, levels: int, room: int)
    requires levels > 0 && locs != [] && ReachedFrom(web, locs, levels, r)
    ensures ReachedFrom(web, locs, levels, Followed(web, r, TrimSpace(locs[|locs| - 1]), levels, room))
    decreases levels, 0, 0
  {
    var loc := TrimSpace(locs[|locs| - 1]);
    if |r.urls| < room && !Skipped(loc, r.seen) {
      var here, file := Here(loc, levels, r.seen), Walk(web, loc, levels - 1, room - |r.urls|, r.seen + {loc});
      WalkReaches(web, loc, levels - 1, room - |r.urls|, r.seen + {loc});
      FileReached(web, locs, levels, file);
      HereReached(web, locs, levels, r.seen);
      JoinedReached(web, locs, levels, here, file);
      JoinedReached(web, locs, levels, r, Joined(here, file));
      assert Followed(web, r, loc, levels, room) == Joined(r, Joined(here, file));
    }
  }

  lemma JoinedReached(web: Web, locs: seq<string>, levels: int, a: Walked, b: Walked)
    requires ReachedFrom(web, locs, levels, a) && ReachedFrom(web, locs, levels, b)
    ensures ReachedFrom(web, locs, levels, Joined(a, b))
  {
  }

  lemma MoreListed(web: Web, locs: seq<string>, last: string, levels: int, r: Walked)
    requires ReachedFrom(web, locs, levels, r)
    ensures ReachedFrom(web, locs + [last], levels, r)
  {
    forall f, depth | ListedAt(web, locs, f, depth)
      ensures ListedAt(web, locs + [last], f, depth)
    {
      var i :| 0 <= i < |locs| && TrimSpace(locs[i]) != "" && LeadsTo(web, TrimSpace(locs[i]), f, depth);
      assert (locs + [last])[i] == locs[i];
    }
    forall f | f in r.fetched
      ensures ListedWithin(web, locs + [last], f, levels)
    {
      assert ListedWithin(web, locs, f, levels);
      var depth :| depth < levels && ListedAt(web, locs, f, depth);
    }
  }

  lemma FileReached(web: Web, locs: seq<string>, levels: int, r: Walked)
    requires locs != [] && TrimSpace(locs[|locs| - 1]) != ""
    requires Reached(web, TrimSpace(locs[|locs| - 1]), levels - 1, r)
    ensures ReachedFrom(web, locs, levels, r)
  {
    forall f | f in r.fetched
      ensures ListedWithin(web, locs, f, levels)
    {
      assert IndexedWithin(web, TrimSpace(locs[|locs| - 1]), f, levels - 1);
      var depth :| depth < levels - 1 && IndexedAt(web, TrimSpace(locs[|locs| - 1]), f, depth);
      ListedLast(web, locs, f, depth);
    }
    forall f | f in r.cut
      ensures ListedAt(web, locs, f, levels)
    {
      ListedLast(web, locs, f, levels - 1);
    }
  }

  lemma HereReached(web: Web, locs: seq<string>, levels: int, seen: set<string>)
    requires locs != [] && TrimSpace(locs[|locs| - 1]) != "" && levels > 0
    ensures ReachedFrom(web, locs, levels, Here(TrimSpace(locs[|locs| - 1]), levels, seen))
  {
    var loc := TrimSpace(locs[|locs| - 1]);
    assert LeadsTo(web, loc, loc, 1);
    assert ListedAt(web, locs, loc, 1);
  }

  // ----- All advertised sitemaps together -----

  ghost predicate ReachedAny(web: Web, roots: seq<string>, levels: int, r: Walked) {
    && (forall f :: f in r.fetched ==> exists i :: 0 <= i < |roots| && IndexedWithin(web, roots[i], f, levels))
    && (forall f :: f in r.cut ==> exists i :: 0 <= i < |roots| && IndexedAt(web, roots[i], f, levels))
  }

  lemma MoreReached(web: Web, roots: seq<string>, last: string, levels: int, r: Walked, file: Walked)
    requires ReachedAny(web, roots, levels, r) && Reached(web, last, levels, file)
    ensures ReachedAny(web, roots + [last], levels, r) && ReachedAny(web, roots + [last], levels, Joined(r, file))
  {
    var more := roots + [last];
    assert more[|roots|] == last;
    forall f | f in r.fetched
      ensures exists i :: 0 <= i < |more| && IndexedWithin(web, more[i], f, levels)
    {
      var i :| 0 <= i < |roots| && IndexedWithin(web, roots[i], f, levels);
      assert IndexedWithin(web, more[i], f, levels);
    }
    forall f | f in r.cut
      ensures exists i :: 0 <= i < |more| && IndexedAt(web, more[i], f, levels)
    {
      var i :| 0 <= i < |roots| && IndexedAt(web, roots[i], f, levels);
      assert IndexedAt(web, more[i], f, levels);
    }
  }

  // NOTHING IS LOST. Every location marked is an entry, a file fetched through an index above the last level of
  // some advertised file, or one cut off at its last level; and nothing else is.
  lemma {:induction false} WalkAllAccounts(web: Web, roots: seq<string>, levels: int, room: int, seen: set<string>)
    ensures
      var r := WalkAll(web, roots, levels, room, seen);
      Accounts(r, seen) && ReachedAny(web, roots, levels, r)
    decreases |roots|
  {
    if roots == [] {
      assert SetOf([]) == {};
    } else {
      var n := |roots| - 1;
      var r := WalkAll(web, roots[..n], levels, room, seen);
      WalkAllAccounts(web, roots[..n], levels, room, seen);
      RootAccounts(web, roots[n], levels, room, r, seen);
      RootReaches(web, roots[..n], roots[n], levels, room, r);
      assert roots == roots[..n] + [roots[n]];
    }
  }

  lemma RootAccounts(web: Web, root: string, levels: int, room: int, r: Walked, seen: set<string>)
    requires Accounts(r, seen)
    ensures Accounts(NextRoot(web, r, root, levels, room), seen)
  {
    WalkAccounts(web, root, levels, room - |r.urls|, r.seen);
    AccountsTogether(r, Walk(web, root, levels, room - |r.urls|, r.seen), seen);
  }

  lemma RootReaches(web: Web, roots: seq<string>, last: string, levels: int, room: int, r: Walked)
    requires ReachedAny(web, roots, levels, r)
    ensures ReachedAny(web, roots + [last], levels, NextRoot(web, r, last, levels, room))
  {
    WalkReaches(web, last, levels, room - |r.urls|, r.seen);
    MoreReached(web, roots, last, levels, r, Walk(web, last, levels, room - |r.urls|, r.seen));
  }

  // Each entry is a leaf of some root.
  ghost predicate LeavesOnly(web: Web, roots: seq<string>, levels: int, urls: seq<string>) {
    forall u :: u in urls ==> exists i :: 0 <= i < |roots| && LeafWithin(web, roots[i], u, levels)
  }

  lemma MoreLeaves(web: Web, roots: seq<string>, last: string, levels: int, room: int, r: Walked)
    requires LeavesOnly(web, roots, levels, r.urls)
    ensures LeavesOnly(web, roots + [last], levels, r.urls)
    ensures LeavesOnly(web, roots + [last], levels, r.urls + Walk(web, last, levels, room, r.seen).urls)
  {
    var more := roots + [last];
    assert more[|roots|] == last;
    forall u | u in r.urls
      ensures exists i :: 0 <= i < |more| && LeafWithin(web, more[i], u, levels)
    {
      var i :| 0 <= i < |roots| && LeafWithin(web, roots[i], u, levels);
      assert LeafWithin(web, more[i], u, levels);
    }
    forall u | u in Walk(web, last, levels, room, r.seen).urls
      ensures LeafWithin(web, more[|roots|], u, levels)
    {
      WalkFindsLeaves(web, last, levels, room, r.seen, u);
    }
  }

  // THE SITEMAP WALK. On any graph, from any list of advertised files: at most `room` entries, none
  // twice; no file is fetched twice through indexes, whichever advertised file led to it; each entry
  // is a leaf within `levels` levels of an advertised file; and when the room is not used up, all
  // that the fetched files list has been looked at.
  lemma {:induction false} WalkAllSound(web: Web, roots: seq<string>, levels: int, room: int, seen: set<string>)
    requires levels > 0
    ensures
      var r := WalkAll(web, roots, levels, room, seen);
      && Thrifty(r, room, seen) && LeavesOnly(web, roots, levels, r.urls)
      && (|r.urls| < room ==> AllCovered(web, roots, r.seen) && AllCovered(web, r.fetched, r.seen))
    decreases |roots|
  {
    if roots == [] {
    } else {
      var n := |roots| - 1;
      var r, all := WalkAll(web, roots[..n], levels, room, seen), WalkAll(web, roots, levels, room, seen);
      WalkAllSound(web, roots[..n], levels, room, seen);
      MoreLeaves(web, roots[..n], roots[n], levels, room - |r.urls|, r);
      assert roots == roots[..n] + [roots[n]];
      if |r.urls| < room {
        var file := Walk(web, roots[n], levels, room - |r.urls|, r.seen);
        WalkThrifty(web, roots[n], levels, room - |r.urls|, r.seen);
        ThriftyTogether(r, file, room, seen);
        if |all.urls| < room {
          WalkCovers(web, roots[n], levels, room - |r.urls|, r.seen);
          StillCovered(web, roots[..n], r.seen, file.seen);
          StillCovered(web, r.fetched, r.seen, file.seen);
        }
      }
    }
  }

  // u is no sitemap file.
  predicate IsPage(web: Web, u: string) {
    !IsUrlSet(web(u)) && !IsIndex(web(u))
  }

  // ALL LEAVES. Where pages are no sitemap files, a walk that neither uses up its room nor cuts anything off
  // finds every entry that the advertised files lead to, however deep: it is returned, unless it was marked
  // at the start or is listed as a sitemap file as well.
  lemma AllLeavesFound(web: Web, roots: seq<string>, levels: int, room: int, seen: set<string>, u: string, depth: int)
    requires levels > 0 && exists i :: 0 <= i < |roots| && LeafWithin(web, roots[i], u, depth)
    requires
      var r := WalkAll(web, roots, levels, room, seen);
      |r.urls| < room && r.cut == [] && forall x :: x in r.urls || x in seen ==> IsPage(web, x)
    ensures var r := WalkAll(web, roots, levels, room, seen); u in r.urls || u in r.fetched || u in seen
  {
    var r := WalkAll(web, roots, levels, room, seen);
    WalkAllSound(web, roots, levels, room, seen);
    WalkAllAccounts(web, roots, levels, room, seen);
    var i :| 0 <= i < |roots| && LeafWithin(web, roots[i], u, depth);
    LeafFound(web, roots, r, seen, roots[i], u, depth);
  }

  lemma {:induction false} LeafFound(
      web: Web, roots: seq<string>, r: Walked, seen: set<string>, file: string, u: string, depth: int)
    requires Accounts(r, seen) && r.cut == [] && forall x :: x in r.urls || x in seen ==> IsPage(web, x)
    requires AllCovered(web, roots, r.seen) && AllCovered(web, r.fetched, r.seen)
    requires (file in roots || file in r.fetched) && LeafWithin(web, file, u, depth)
    ensures u in r.urls || u in r.fetched || u in seen
    decreases depth
  {
    assert Covered(web, file, r.seen);
    if IsUrlSet(web(file)) {
      assert u in r.seen;
    } else {
      var next: string :| Lists(web(file), next) && LeafWithin(web, next, u, depth - 1);
      assert next in r.seen && !IsPage(web, next);
      LeafFound(web, roots, r, seen, next, u, depth - 1);
    }
  }
}

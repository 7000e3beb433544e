// The crawl frontier of internal/worker/worker.go: which links of a page are followed, in what
// order, and how many become tasks. Links are parsed and resolved URLs; None is a blank or
// unparsable one.
module Frontier {
  import opened Uniques
  import opened Wrappers
  import opened Text
  import opened Urls
  import opened Tables

  datatype CrawlConfig = CrawlConfig(
    stripQuery: bool, allowedSchemes: seq<string>, blockExtensions: seq<string>, dedupeCache: bool)

  // ----- Filtering -----

  predicate IsAllowedScheme(scheme: string, allowed: seq<string>) {
    scheme != "" && exists i :: 0 <= i < |allowed| && Lower(scheme) == Lower(allowed[i])
  }

  // path.Ext
  function Ext(path: string): string {
    if path == "" || path[|path| - 1] == '/' then ""
    else if path[|path| - 1] == '.' then "."
    else if Ext(path[..|path| - 1]) == "" then "" else Ext(path[..|path| - 1]) + [path[|path| - 1]]
  }

  predicate IsBlockedExt(ext: string, blocked: seq<string>) {
    ext != "" && exists i :: 0 <= i < |blocked| && ext == Lower(blocked[i])
  }

  predicate SameHostOrSubdomain(baseHost: string, targetHost: string) {
    baseHost != "" && targetHost != "" && (baseHost == targetHost || HasSuffix(targetHost, "." + baseHost))
  }

  // The host of a page as the filter compares it: lower case, default port dropped, other port kept.
  function BaseHost(u: Url): string {
    match KeptPort(u.scheme, u.port)
    case None => Lower(u.name)
    case Some(port) => Lower(u.name + ":" + port)
  }

  predicate Follows(base: Url, u: Url, sameDomain: bool, cfg: CrawlConfig) {
    && IsAllowedScheme(u.scheme, cfg.allowedSchemes)
    && (sameDomain ==> SameHostOrSubdomain(BaseHost(base), Lower(u.name)))
    && !IsBlockedExt(Lower(Ext(u.path)), cfg.blockExtensions)
  }

  // The key of one link, or nothing when the link is not followed.
  function LinkKeys(base: Url, raw: Option<Url>, sameDomain: bool, cfg: CrawlConfig): seq<Url> {
    if raw.Some? && Follows(base, raw.value, sameDomain, cfg) then [Canonicalize(raw.value, cfg.stripQuery)] else []
  }

  function FilteredLinks(base: Url, links: seq<Option<Url>>, sameDomain: bool, cfg: CrawlConfig): seq<Url> {
    if links == [] then []
    else
      FilteredLinks(base, links[..|links| - 1], sameDomain, cfg)
      + LinkKeys(base, links[|links| - 1], sameDomain, cfg)
  }

  method FilterLinks(base: Url, links: seq<Option<Url>>, sameDomain: bool, cfg: CrawlConfig) returns (out: seq<Url>)
    ensures out == FilteredLinks(base, links, sameDomain, cfg)
  {
    out := [];
    for i := 0 to |links|
      invariant out == FilteredLinks(base, links[..i], sameDomain, cfg)
    {
      assert links[..i + 1][..i] == links[..i];
      if links[i] == None {
        continue;
      }
      var u := links[i].value;
      if !IsAllowedScheme(u.scheme, cfg.allowedSchemes) {
        continue;
      }
      var host := u.(port := KeptPort(u.scheme, u.port));
      if sameDomain && !SameHostOrSubdomain(BaseHost(base), Lower(host.name)) {
        continue;
      }
      var stripped := host.(query := if cfg.stripQuery then "" else host.query, fragment := "");
      if IsBlockedExt(Lower(Ext(stripped.path)), cfg.blockExtensions) {
        continue;
      }
      out := out + [Canonicalize(stripped, cfg.stripQuery)];
    }
    assert links[..|links|] == links;
  }

  // A key is listed exactly when some followed link has it.
  lemma {:induction false} FilteredLinksExact(
      base: Url, links: seq<Option<Url>>, sameDomain: bool, cfg: CrawlConfig, key: Url)
    ensures key in FilteredLinks(base, links, sameDomain, cfg) <==>
            exists i :: 0 <= i < |links| && links[i].Some? && Follows(base, links[i].value, sameDomain, cfg)
                        && key == Canonicalize(links[i].value, cfg.stripQuery)
  {
    if links == [] {
    } else {
      FilteredLinksExact(base, links[..|links| - 1], sameDomain, cfg, key);
      assert forall i :: 0 <= i < |links| - 1 ==> links[..|links| - 1][i] == links[i];
    }
  }

  // Every key the filter makes is a fixed point of Canonicalize.
  lemma FilteredLinksCanonical(base: Url, links: seq<Option<Url>>, sameDomain: bool, cfg: CrawlConfig)
    ensures forall k :: k in FilteredLinks(base, links, sameDomain, cfg) ==> Canonicalize(k, cfg.stripQuery) == k
  {
    forall k | k in FilteredLinks(base, links, sameDomain, cfg)
      ensures Canonicalize(k, cfg.stripQuery) == k
    {
      FilteredLinksExact(base, links, sameDomain, cfg, k);
      var i :| 0 <= i < |links| && links[i].Some? && k == Canonicalize(links[i].value, cfg.stripQuery);
      CanonicalizeIdempotent(links[i].value, cfg.stripQuery);
    }
  }

  // ----- Staying inside a host -----

  lemma SubdomainTransitive(a: string, b: string, c: string)
    requires SameHostOrSubdomain(a, b) && SameHostOrSubdomain(b, c)
    ensures SameHostOrSubdomain(a, c)
  {
  }

  // A page is inside a start URL's site.
  predicate Inside(start: Url, u: Url) {
    u == start || SameHostOrSubdomain(Lower(start.name), Lower(u.name))
  }

  lemma LowerKeepsColon(s: string)
    ensures ':' in Lower(s) <==> ':' in s
  {
  }

  lemma SuffixCharacters(s: string, suffix: string, c: char)
    requires HasSuffix(s, suffix) && c in suffix
    ensures c in s
  {
  }

  // A page on a non-default port leads nowhere: its base host holds a colon and no host name does.
  lemma PortLeadsNowhere(page: Url, u: Url)
    requires KeptPort(page.scheme, page.port).Some?
    ensures !SameHostOrSubdomain(BaseHost(page), Lower(u.name))
  {
    var text := page.name + ":" + KeptPort(page.scheme, page.port).value;
    assert text[|page.name|] == ':';
    LowerKeepsColon(text);
    LowerKeepsColon(u.name);
    if HasSuffix(Lower(u.name), "." + BaseHost(page)) {
      SuffixCharacters(Lower(u.name), "." + BaseHost(page), ':');
    }
  }

  // The labels of the start's host end those of any page inside its site.
  lemma InsideLabels(start: Url, u: Url)
    requires Inside(start, u)
    ensures LabelsEnd(Lower(start.name), Lower(u.name))
  {
    if u != start {
      LabelsWhen(Lower(start.name), Lower(u.name));
    }
  }

  // One hop keeps to the start's site although it is judged against the parent page only.
  lemma HopStaysInside(start: Url, page: Url, u: Url, cfg: CrawlConfig)
    requires Inside(start, page) && Follows(page, u, true, cfg)
    ensures Inside(start, Canonicalize(u, cfg.stripQuery))
  {
    if KeptPort(page.scheme, page.port).Some? {
      PortLeadsNowhere(page, u);
    } else {
      LowerIdempotent(u.name);
      if page != start {
        SubdomainTransitive(Lower(start.name), Lower(page.name), Lower(u.name));
      }
    }
  }

  // ----- What is followed -----

  // HOSTS. The test holds of a host and itself and of whatever ends in a dot and the base host ...
  lemma SubdomainWhen(base: string, target: string)
    ensures SameHostOrSubdomain(base, target) <==>
            base != "" && (target == base || exists sub: string :: target == sub + "." + base)
  {
    if HasSuffix(target, "." + base) {
      var sub := target[..|target| - |base| - 1];
      assert target == sub + "." + base;
    }
    if sub: string :| target == sub + "." + base {
      assert target[|target| - |base| - 1..] == "." + base;
    }
  }

  // The labels of the base host end those of the other.
  predicate LabelsEnd(base: string, target: string) {
    var short, long := Split(base, '.'), Split(target, '.');
    |short| <= |long| && long[|long| - |short|..] == short
  }

  // ... that is, exactly when its labels end those of the other.
  lemma LabelsWhen(base: string, target: string)
    ensures SameHostOrSubdomain(base, target) <==> base != "" && LabelsEnd(base, target)
  {
    var short, long := Split(base, '.'), Split(target, '.');
    SubdomainWhen(base, target);
    if sub: string :| target == sub + "." + base {
      assert target == sub + ['.'] + base;
      SplitAppend(sub, base, '.');
    }
    if base != "" && |short| <= |long| && long[|long| - |short|..] == short {
      LabelsJoin(target, |long| - |short|);
      JoinSplit(base, '.');
    }
  }

  // A host is its first k labels, a dot and the rest.
  lemma LabelsJoin(host: string, k: nat)
    requires k < |Split(host, '.')|
    ensures var rest := Join(Split(host, '.')[k..], '.');
            if k == 0 then host == rest else exists sub: string :: host == sub + "." + rest
  {
    var labels := Split(host, '.');
    JoinSplit(host, '.');
    JoinAppend(labels[..k], labels[k..]);
    assert labels[..k] + labels[k..] == labels;
    assert labels[..0] == [];
  }

  lemma {:induction false} JoinAppend(a: seq<string>, b: seq<string>)
    requires b != []
    ensures Join(a + b, '.') == if a == [] then Join(b, '.') else Join(a, '.') + "." + Join(b, '.')
    decreases |a|
  {
    if a == [] {
      assert a + b == b;
    } else {
      JoinAppend(a[1..], b);
      assert (a + b)[1..] == a[1..] + b;
    }
  }

  // EXTENSIONS. The extension of a path is its end from the last dot on, if no slash follows that dot.
  lemma {:induction false} ExtExact(path: string, stem: string, end: string)
    requires path == stem + "." + end && '.' !in end && '/' !in end
    ensures Ext(path) == "." + end
    decreases |end|
  {
    if end == "" {
      assert path[|path| - 1] == '.';
    } else {
      var n := |end| - 1;
      ExtExact(path[..|path| - 1], stem, end[..n]);
      assert end[n] in end && path[|path| - 1] == end[n];
    }
  }

  // A path with an extension has such a dot.
  lemma {:induction false} ExtSplits(path: string) returns (stem: string, end: string)
    requires Ext(path) != ""
    ensures path == stem + "." + end && '.' !in end && '/' !in end
    decreases |path|
  {
    var n := |path| - 1;
    assert path == path[..n] + [path[n]];
    if path[n] == '.' {
      stem, end := path[..n], "";
    } else {
      stem, end := ExtSplits(path[..n]);
      end := end + [path[n]];
    }
  }

  // FOLLOWED LINKS. A link is followed exactly when its scheme is an allowed one up to case; under same_domain
  // the page is on its scheme's default port and the labels of its host end those of the link's; and the
  // path does not end, up to case, in a blocked extension.
  lemma FollowsWhen(base: Url, u: Url, sameDomain: bool, cfg: CrawlConfig)
    ensures
      Follows(base, u, sameDomain, cfg) <==>
      && u.scheme != ""
      && (exists i :: 0 <= i < |cfg.allowedSchemes| && Lower(cfg.allowedSchemes[i]) == Lower(u.scheme))
      && (sameDomain ==>
            && (base.port.None? || (Lower(base.scheme), base.port) in [("http", Some("80")), ("https", Some("443"))])
            && base.name != "" && LabelsEnd(Lower(base.name), Lower(u.name)))
      && !exists i, stem: string, end: string ::
           0 <= i < |cfg.blockExtensions| && u.path == stem + "." + end && '.' !in end && '/' !in end
           && Lower("." + end) == Lower(cfg.blockExtensions[i])
  {
    HostWhen(base, u);
    BlockedWhen(u.path, cfg.blockExtensions);
  }

  lemma HostWhen(base: Url, u: Url)
    ensures
      SameHostOrSubdomain(BaseHost(base), Lower(u.name)) <==>
      && (base.port.None? || (Lower(base.scheme), base.port) in [("http", Some("80")), ("https", Some("443"))])
      && base.name != "" && LabelsEnd(Lower(base.name), Lower(u.name))
  {
    if KeptPort(base.scheme, base.port).Some? {
      PortLeadsNowhere(base, u);
    } else {
      LabelsWhen(Lower(base.name), Lower(u.name));
    }
  }

  lemma BlockedWhen(path: string, blocked: seq<string>)
    ensures IsBlockedExt(Lower(Ext(path)), blocked) <==>
            exists i, stem: string, end: string ::
              0 <= i < |blocked| && path == stem + "." + end && '.' !in end && '/' !in end
              && Lower("." + end) == Lower(blocked[i])
  {
    if i, stem: string, end: string :|
         0 <= i < |blocked| && path == stem + "." + end && '.' !in end && '/' !in end
         && Lower("." + end) == Lower(blocked[i]) {
      ExtExact(path, stem, end);
    }
    if IsBlockedExt(Lower(Ext(path)), blocked) {
      var stem, end := ExtSplits(path);
      ExtExact(path, stem, end);
    }
  }

  // The filter works link by link.
  lemma {:induction false} FilteredLinksAppend(
      base: Url, a: seq<Option<Url>>, b: seq<Option<Url>>, sameDomain: bool, cfg: CrawlConfig)
    ensures FilteredLinks(base, a + b, sameDomain, cfg)
         == FilteredLinks(base, a, sameDomain, cfg) + FilteredLinks(base, b, sameDomain, cfg)
    decreases |b|
  {
    if b == [] {
      assert a + b == a;
    } else {
      var n := |b| - 1;
      FilteredLinksAppend(base, a, b[..n], sameDomain, cfg);
      assert (a + b)[..|a + b| - 1] == a + b[..n] && (a + b)[|a + b| - 1] == b[n];
    }
  }

  // ----- Order-preserving dedupe -----

  method UniqueStrings(values: seq<Url>) returns (out: seq<Url>)
    ensures out == FirstOccurrences(values, EMPTY_URL)
  {
    if values == [] {
      return values;
    }
    out := [];
    var seen: set<Url> := {};
    for i := 0 to |values|
      invariant forall v :: v in seen <==> v in values[..i] && v != EMPTY_URL
      invariant out == FirstOccurrences(values[..i], EMPTY_URL)
    {
      assert values[..i + 1][..i] == values[..i];
      assert values[..i + 1] == values[..i] + [values[i]];
      if values[i] == EMPTY_URL {
        continue;
      }
      if values[i] in seen {
        continue;
      }
      seen := seen + {values[i]};
      out := out + [values[i]];
    }
    assert values[..|values|] == values;
  }

  // The links of `extra` that are new after `existing`, appended in order.
  function Appended(existing: seq<Url>, extra: seq<Url>): seq<Url> {
    if extra == [] then existing
    else
      var n := |extra| - 1;
      var before := Appended(existing, extra[..n]);
      if extra[n] == EMPTY_URL || extra[n] in before then before else before + [extra[n]]
  }

  method AppendUniqueLinks(existing: seq<Url>, extra: seq<Url>) returns (out: seq<Url>)
    ensures out == Appended(existing, extra)
  {
    out := existing;
    if extra == [] {
      return;
    }
    var seen: set<Url> := {};
    for i := 0 to |existing|
      invariant forall v :: v in seen <==> v in existing[..i]
    {
      assert existing[..i + 1] == existing[..i] + [existing[i]];
      seen := seen + {existing[i]};
    }
    for i := 0 to |extra|
      invariant forall v :: v in seen <==> v in out
      invariant out == Appended(existing, extra[..i])
    {
      assert extra[..i + 1][..i] == extra[..i];
      if extra[i] == EMPTY_URL {
        continue;
      }
      if extra[i] in seen {
        continue;
      }
      out := out + [extra[i]];
      seen := seen + {extra[i]};
    }
    assert extra[..|extra|] == extra;
  }

  lemma {:induction false} AppendedMembers(existing: seq<Url>, extra: seq<Url>)
    ensures forall v :: v in Appended(existing, extra) <==> v in existing || (v in extra && v != EMPTY_URL)
  {
    if extra == [] {
    } else {
      var n := |extra| - 1;
      AppendedMembers(existing, extra[..n]);
      assert extra == extra[..n] + [extra[n]];
    }
  }

  lemma OneMoreUnique(all: seq<Url>, before: seq<Url>, y: Url)
    requires FirstOccurrences(before, EMPTY_URL) == FirstOccurrences(all, EMPTY_URL)
    requires y != EMPTY_URL ==> (y in before <==> y in all)
    ensures FirstOccurrences(if y == EMPTY_URL || y in before then before else before + [y], EMPTY_URL)
         == FirstOccurrences(all + [y], EMPTY_URL)
  {
    FirstOccurrencesLast(all, y, EMPTY_URL);
    FirstOccurrencesLast(before, y, EMPTY_URL);
  }

  // Appending without repeats and then deduping is deduping the plain concatenation.
  lemma {:induction false} AppendedThenUnique(existing: seq<Url>, extra: seq<Url>)
    ensures FirstOccurrences(Appended(existing, extra), EMPTY_URL) == FirstOccurrences(existing + extra, EMPTY_URL)
  {
    if extra == [] {
      assert existing + extra == existing;
    } else {
      var n := |extra| - 1;
      AppendedThenUnique(existing, extra[..n]);
      AppendedMembers(existing, extra[..n]);
      OneMoreUnique(existing + extra[..n], Appended(existing, extra[..n]), extra[n]);
      assert existing + extra == existing + extra[..n] + [extra[n]];
    }
  }

  // The list collectLinks promises: filtered page links, then filtered sitemap links, each once.
  function CollectedLinks(
      base: Url, page: seq<Option<Url>>, sitemap: seq<Option<Url>>, sameDomain: bool, cfg: CrawlConfig): seq<Url> {
    FirstOccurrences(
      FilteredLinks(base, page, sameDomain, cfg) + FilteredLinks(base, sitemap, sameDomain, cfg), EMPTY_URL)
  }

  // `sitemap` is what the sitemap walk returned; it is consulted on the start page only.
  method CollectLinks(
      task: Task, page: seq<Option<Url>>, includeSitemaps: bool, sitemap: seq<Option<Url>>, sameDomain: bool,
      cfg: CrawlConfig) returns (links: seq<Url>)
    ensures links == CollectedLinks(
              task.requested, page, if includeSitemaps && task.depth == 0 then sitemap else [], sameDomain, cfg)
  {
    links := FilterLinks(task.requested, page, sameDomain, cfg);
    var filtered := links;
    if includeSitemaps && task.depth == 0 {
      var extra := FilterLinks(task.requested, sitemap, sameDomain, cfg);
      links := AppendUniqueLinks(links, extra);
      AppendedThenUnique(filtered, extra);
    } else {
      assert filtered + [] == filtered;
    }
    links := UniqueStrings(links);
  }

  lemma CollectedLinksExact(
      base: Url, page: seq<Option<Url>>, sitemap: seq<Option<Url>>, sameDomain: bool, cfg: CrawlConfig)
    ensures var links := CollectedLinks(base, page, sitemap, sameDomain, cfg);
            && Distinct(links)
            && (forall k :: k in links ==> Canonicalize(k, cfg.stripQuery) == k && k != EMPTY_URL)
  {
    FirstOccurrencesExact(
      FilteredLinks(base, page, sameDomain, cfg) + FilteredLinks(base, sitemap, sameDomain, cfg), EMPTY_URL);
    FilteredLinksCanonical(base, page, sameDomain, cfg);
    FilteredLinksCanonical(base, sitemap, sameDomain, cfg);
  }

  // Every followed link of the page or the sitemap is collected, and no other; a URL that prints as nothing
  // never is.
  lemma CollectedWhen(
      base: Url, page: seq<Option<Url>>, sitemap: seq<Option<Url>>, sameDomain: bool, cfg: CrawlConfig, key: Url)
    ensures key in CollectedLinks(base, page, sitemap, sameDomain, cfg) <==>
            key != EMPTY_URL && exists u: Url ::
              (Some(u) in page || Some(u) in sitemap) && Follows(base, u, sameDomain, cfg)
              && key == Canonicalize(u, cfg.stripQuery)
  {
    FirstOccurrencesExact(
      FilteredLinks(base, page, sameDomain, cfg) + FilteredLinks(base, sitemap, sameDomain, cfg), EMPTY_URL);
    FilteredLinksExact(base, page, sameDomain, cfg, key);
    FilteredLinksExact(base, sitemap, sameDomain, cfg, key);
    if i :| 0 <= i < |page| && page[i].Some? && Follows(base, page[i].value, sameDomain, cfg)
            && key == Canonicalize(page[i].value, cfg.stripQuery) {
      assert Some(page[i].value) in page;
    }
    if i :| 0 <= i < |sitemap| && sitemap[i].Some? && Follows(base, sitemap[i].value, sameDomain, cfg)
            && key == Canonicalize(sitemap[i].value, cfg.stripQuery) {
      assert Some(sitemap[i].value) in sitemap;
    }
  }

  // Under same_domain every collected link, sitemap links included, is inside the start's site.
  lemma CollectedLinksInside(
      start: Url, base: Url, page: seq<Option<Url>>, sitemap: seq<Option<Url>>, cfg: CrawlConfig)
    requires Inside(start, base)
    ensures forall k :: k in CollectedLinks(base, page, sitemap, true, cfg) ==> Inside(start, k)
  {
    var first, second := FilteredLinks(base, page, true, cfg), FilteredLinks(base, sitemap, true, cfg);
    FirstOccurrencesExact(first + second, EMPTY_URL);
    forall k | k in CollectedLinks(base, page, sitemap, true, cfg)
      ensures Inside(start, k)
    {
      FilteredLinksExact(base, page, true, cfg, k);
      FilteredLinksExact(base, sitemap, true, cfg, k);
      assert k in first || k in second;
      var links := if k in first then page else sitemap;
      var i :| 0 <= i < |links| && links[i].Some? && Follows(base, links[i].value, true, cfg)
               && k == Canonicalize(links[i].value, cfg.stripQuery);
      HopStaysInside(start, base, links[i].value, cfg);
    }
  }

  // ----- Planning tasks -----

  function AsTasks(links: seq<Url>, depth: int): (tasks: seq<NewTask>)
    ensures |tasks| == |links|
  {
    seq(|links|, i requires 0 <= i < |links| => NewTask(links[i], links[i], depth))
  }

  // How many of n tasks fit under max_tasks when the job has `count` rows; 0 or less means no cap.
  function Fitting(maxTasks: int, count: int, n: nat): (k: nat)
    ensures k <= n
  {
    if maxTasks <= 0 || n <= maxTasks - count then n
    else if maxTasks - count <= 0 then 0
    else maxTasks - count
  }

  function PlannedTasks(
      cfg: CrawlConfig, maxTasks: int, links: seq<Url>, seen: set<Url>, depth: int, count: int): seq<NewTask> {
    var unique := FirstOccurrences(links, EMPTY_URL);
    var unseen := if cfg.dedupeCache then Unseen(unique, seen) else unique;
    AsTasks(unseen[..Fitting(maxTasks, count, |unseen|)], depth)
  }

  // The plan is the longest prefix of the new links that the cap leaves room for.
  lemma PlannedTasksLongest(
      cfg: CrawlConfig, maxTasks: int, links: seq<Url>, seen: set<Url>, depth: int, count: nat)
    ensures
      var plan := PlannedTasks(cfg, maxTasks, links, seen, depth, count);
      var unique := FirstOccurrences(links, EMPTY_URL);
      var unseen := if cfg.dedupeCache then Unseen(unique, seen) else unique;
      && |plan| <= |unseen|
      && (forall i :: 0 <= i < |plan| ==> plan[i] == NewTask(unseen[i], unseen[i], depth) && unseen[i] in links)
      && (maxTasks > 0 && plan != [] ==> count + |plan| <= maxTasks)
      && (|plan| < |unseen| ==> maxTasks > 0 && count + |plan| >= maxTasks)
  {
    var unique := FirstOccurrences(links, EMPTY_URL);
    FirstOccurrencesExact(links, EMPTY_URL);
    UnseenExact(unique, seen);
    var unseen := if cfg.dedupeCache then Unseen(unique, seen) else unique;
    assert forall i :: 0 <= i < |unseen| ==> unseen[i] in unique;
  }

  // What buildLinkTasks asks the store; None is a database error.
  datatype Planner = Planner(hasSeen: Url -> Option<bool>, taskCount: Option<int>)

  // Some link's dedupe lookup fails.
  ghost predicate LookupFails(planner: Planner, links: seq<Url>) {
    exists i :: 0 <= i < |links| && planner.hasSeen(links[i]) == None
  }

  ghost function SeenLinks(planner: Planner, links: seq<Url>): set<Url> {
    set u | u in links && planner.hasSeen(u) == Some(true)
  }

  // The links left once dedupe has been asked about each of them, or None when a lookup fails.
  ghost function NewLinks(planner: Planner, links: seq<Url>, cfg: CrawlConfig): Option<seq<Url>> {
    if !cfg.dedupeCache then Some(links)
    else if LookupFails(planner, links) then None
    else Some(Unseen(links, SeenLinks(planner, links)))
  }

  method SkipSeen(planner: Planner, unique: seq<Url>, cfg: CrawlConfig) returns (kept: Option<seq<Url>>)
    ensures kept == NewLinks(planner, unique, cfg)
  {
    var out: seq<Url> := [];
    ghost var seen := SeenLinks(planner, unique);
    for i := 0 to |unique|
      invariant out == if cfg.dedupeCache then Unseen(unique[..i], seen) else unique[..i]
      invariant cfg.dedupeCache ==> forall k :: 0 <= k < i ==> planner.hasSeen(unique[k]) != None
    {
      assert unique[..i + 1] == unique[..i] + [unique[i]];
      UnseenLast(unique[..i], unique[i], seen);
      if cfg.dedupeCache {
        var answer := planner.hasSeen(unique[i]);
        if answer == None {
          return None;
        }
        if answer.value {
          continue;
        }
      }
      out := out + [unique[i]];
    }
    assert unique[..|unique|] == unique;
    kept := Some(out);
  }

  // None is the error return: a failed lookup, or a failed count when some link is left and a cap is
  // set. Otherwise the plan is PlannedTasks for the links seen and the count read.
  method BuildLinkTasks(planner: Planner, links: seq<Url>, depth: int, maxTasks: int, cfg: CrawlConfig)
    returns (plan: Option<seq<NewTask>>)
    ensures
      var unique := FirstOccurrences(links, EMPTY_URL);
      var left := NewLinks(planner, unique, cfg);
      plan ==
      if left == None || (left.value != [] && maxTasks > 0 && planner.taskCount == None) then None
      else
        Some(PlannedTasks(cfg, maxTasks, links, SeenLinks(planner, unique), depth, planner.taskCount.GetOr(0)))
  {
    if links == [] {
      return Some([]);
    }
    var unique := UniqueStrings(links);
    var left := SkipSeen(planner, unique, cfg);
    if left == None {
      return None;
    }
    var kept := left.value;
    ghost var room := Fitting(maxTasks, planner.taskCount.GetOr(0), |kept|);
    ghost var target := kept[..room];
    if kept == [] {
      return Some([]);
    }
    if maxTasks > 0 {
      if planner.taskCount == None {
        return None;
      }
      var remaining := maxTasks - planner.taskCount.value;
      if remaining <= 0 {
        return Some([]);
      }
      if |kept| > remaining {
        kept := kept[..remaining];
      }
    }
    assert kept == target;
    plan := Some(AsTasks(kept, depth));
  }
}

// Cursor paging and the export loop of internal/server/routes.go over the list queries of
// internal/store/store.go, sorted by id.
module Export {
  import opened Text
  import opened Tables

  datatype Row<T> = Row(id: Serial, value: T)

  // ----- The listing -----

  // orderDir: anything but "desc", in any case, sorts ascending.
  predicate Descending(sort: string) {
    Lower(sort) == "desc"
  }

  // "desc" in any mixture of cases, and nothing else.
  lemma DescendsWhen(sort: string)
    ensures Descending(sort) <==>
            && |sort| == 4 && (sort[0] == 'd' || sort[0] == 'D') && (sort[1] == 'e' || sort[1] == 'E')
            && (sort[2] == 's' || sort[2] == 'S') && (sort[3] == 'c' || sort[3] == 'C')
  {
    if Descending(sort) {
      assert |Lower(sort)| == |sort| && forall i :: 0 <= i < |sort| ==> "desc"[i] == LowerChar(sort[i]);
    }
    if |sort| == 4 && (sort[0] == 'd' || sort[0] == 'D') && (sort[1] == 'e' || sort[1] == 'E')
       && (sort[2] == 's' || sort[2] == 'S') && (sort[3] == 'c' || sort[3] == 'C') {
      assert Lower(sort) == "desc";
    }
  }

  // The rows with ids below n, in id order.
  function InOrder<T>(rows: map<Serial, T>, n: Serial): seq<Row<T>> {
    if n == 1 then [] else InOrder(rows, n - 1) + if n - 1 in rows then [Row(n - 1, rows[n - 1])] else []
  }

  function Reversed<T>(s: seq<T>): (r: seq<T>)
    ensures |r| == |s| && forall i :: 0 <= i < |s| ==> r[i] == s[|s| - 1 - i]
  {
    seq(|s|, i requires 0 <= i < |s| => s[|s| - 1 - i])
  }

  // SELECT ... ORDER BY id
  function Listing<T>(rows: map<Serial, T>, next: Serial, desc: bool): seq<Row<T>> {
    if desc then Reversed(InOrder(rows, next)) else InOrder(rows, next)
  }

  predicate Precedes(a: int, b: int, desc: bool) {
    if desc then b < a else a < b
  }

  ghost predicate Sorted<T>(rows: seq<Row<T>>, desc: bool) {
    forall i, k :: 0 <= i < k < |rows| ==> Precedes(rows[i].id, rows[k].id, desc)
  }

  lemma {:induction false} InOrderExact<T>(rows: map<Serial, T>, n: Serial)
    ensures Sorted(InOrder(rows, n), false)
    ensures forall i :: 0 <= i < |InOrder(rows, n)| ==>
              var r := InOrder(rows, n)[i]; r.id < n && r.id in rows && r.value == rows[r.id]
    ensures forall id: Serial :: id < n && id in rows ==> Row(id, rows[id]) in InOrder(rows, n)
  {
    if n > 1 {
      InOrderExact(rows, n - 1);
    }
  }

  // A listing holds exactly the table's rows, each once, in id order.
  lemma ListingExact<T>(rows: map<Serial, T>, next: Serial, desc: bool)
    requires forall id :: id in rows ==> id < next
    ensures Sorted(Listing(rows, next, desc), desc)
    ensures forall r :: r in Listing(rows, next, desc) <==> r.id in rows && r.value == rows[r.id]
  {
    InOrderExact(rows, next);
    var up, list := InOrder(rows, next), Listing(rows, next, desc);
    forall r: Row<T>
      ensures r in list <==> r.id in rows && r.value == rows[r.id]
    {
      if r.id in rows && r.value == rows[r.id] {
        assert r in up;
        var i :| 0 <= i < |up| && up[i] == r;
        assert list[if desc then |up| - 1 - i else i] == r;
      }
      if r in list {
        var i :| 0 <= i < |list| && list[i] == r;
        assert up[if desc then |up| - 1 - i else i] == r;
      }
    }
  }

  // Rows added under new, larger ids come last.
  lemma {:induction false} InOrderGrows<T>(rows: map<Serial, T>, n: Serial, more: map<Serial, T>, m: Serial)
    requires n <= m
    requires forall id: Serial :: id < n ==> (id in rows <==> id in more) && (id in rows ==> rows[id] == more[id])
    ensures InOrder(rows, n) <= InOrder(more, m)
    ensures n == m ==> InOrder(rows, n) == InOrder(more, m)
    decreases m
  {
    if n < m {
      InOrderGrows(rows, n, more, m - 1);
    } else if n > 1 {
      InOrderGrows(rows, n - 1, more, n - 1);
    }
  }

  function JobDocuments(t: Tables, j: JobId): map<Serial, Document> {
    map id | id in t.documents && t.documents[id].job == j :: t.documents[id]
  }

  function JobMapped(t: Tables, j: JobId): map<Serial, MappedUrl> {
    map id | id in t.mapped && t.mapped[id].job == j :: t.mapped[id]
  }

  // InsertDocument and InsertMappedBatch leave a job's ascending listing as it is or make it longer at the end.
  lemma InsertsGrowListings(t: Tables, j: JobId, d: Document, entries: seq<MappedUrl>)
    requires forall id :: id in t.mapped ==> id < t.nextMapped
    ensures InOrder(JobDocuments(t, j), t.nextDocument)
         <= InOrder(JobDocuments(InsertDocument(t, d), j), InsertDocument(t, d).nextDocument)
    ensures InOrder(JobMapped(t, j), t.nextMapped)
         <= InOrder(JobMapped(InsertMappedBatch(t, entries), j), InsertMappedBatch(t, entries).nextMapped)
  {
    InOrderGrows(JobDocuments(t, j), t.nextDocument, JobDocuments(InsertDocument(t, d), j), t.nextDocument + 1);
    InsertMappedBatchAdds(t, entries);
    var after := InsertMappedBatch(t, entries);
    InOrderGrows(JobMapped(t, j), t.nextMapped, JobMapped(after, j), after.nextMapped);
  }

  // ----- One page -----

  // WHERE id > cursor, or id < cursor when descending; a cursor of 0 asks for the first page.
  function After<T>(list: seq<Row<T>>, cursor: nat, desc: bool): seq<Row<T>> {
    if cursor == 0 || list == [] then list
    else if Precedes(cursor, list[0].id, desc) then [list[0]] + After(list[1..], cursor, desc)
    else After(list[1..], cursor, desc)
  }

  // ListDocuments or ListDocumentsAfter, ListMapped or ListMappedAfter.
  function Page<T>(list: seq<Row<T>>, limit: nat, cursor: nat, desc: bool): seq<Row<T>> {
    var rest := After(list, cursor, desc);
    if |rest| <= limit then rest else rest[..limit]
  }

  // A page is full unless fewer rows are left, and it has the next ones.
  lemma PageExact<T>(list: seq<Row<T>>, limit: nat, cursor: nat, desc: bool)
    ensures
      var page, rest := Page(list, limit, cursor, desc), After(list, cursor, desc);
      |page| <= limit && page <= rest && (|page| < limit ==> page == rest)
  {
  }

  function LastId<T>(rows: seq<Row<T>>, default: nat): nat {
    if rows == [] then default else rows[|rows| - 1].id
  }

  lemma {:induction false} AfterAll<T>(list: seq<Row<T>>, cursor: nat, desc: bool)
    requires forall i :: 0 <= i < |list| ==> Precedes(cursor, list[i].id, desc)
    ensures After(list, cursor, desc) == list
    decreases |list|
  {
    if list == [] {
    } else {
      AfterAll(list[1..], cursor, desc);
    }
  }

  // The cursor precedes the rows from k on, and those only.
  ghost predicate Cuts<T>(list: seq<Row<T>>, cursor: nat, desc: bool, k: nat) {
    k <= |list| && forall i :: 0 <= i < |list| ==> (Precedes(cursor, list[i].id, desc) <==> k <= i)
  }

  lemma CutsOnce<T>(list: seq<Row<T>>, cursor: nat, desc: bool, k: nat, l: nat)
    requires Cuts(list, cursor, desc, k) && Cuts(list, cursor, desc, l)
    ensures k == l
  {
    var i := if k < l then k else l;
    assert i == |list| || (Precedes(cursor, list[i].id, desc) <==> l <= i);
  }

  // After keeps a suffix of a sorted list: all that the cursor precedes.
  lemma {:induction false} AfterIsSuffix<T>(list: seq<Row<T>>, cursor: nat, desc: bool) returns (k: nat)
    requires Sorted(list, desc)
    ensures k <= |list| && After(list, cursor, desc) == list[k..] && (cursor == 0 ==> k == 0)
    ensures cursor > 0 ==> Cuts(list, cursor, desc, k)
    decreases |list|
  {
    if cursor == 0 || list == [] {
      k := 0;
    } else if Precedes(cursor, list[0].id, desc) {
      AfterAll(list, cursor, desc);
      k := 0;
    } else {
      k := AfterIsSuffix(list[1..], cursor, desc);
      k := k + 1;
      assert list[1..][k - 1..] == list[k..];
      assert forall i :: 1 <= i < |list| ==> list[i] == list[1..][i - 1];
    }
  }

  // What is left after a cursor: exactly the table's rows beyond it, each once, in order.
  lemma RemainingExact<T>(rows: map<Serial, T>, next: Serial, cursor: nat, desc: bool)
    requires forall id :: id in rows ==> id < next
    ensures var rest := After(Listing(rows, next, desc), cursor, desc);
            && Sorted(rest, desc)
            && forall r :: r in rest <==>
                 r.id in rows && r.value == rows[r.id] && (cursor == 0 || Precedes(cursor, r.id, desc))
  {
    var list := Listing(rows, next, desc);
    ListingExact(rows, next, desc);
    var k := AfterIsSuffix(list, cursor, desc);
    forall r: Row<T>
      ensures r in list[k..] <==> r in list && (cursor == 0 || Precedes(cursor, r.id, desc))
    {
      if r in list {
        var i :| 0 <= i < |list| && list[i] == r;
        if k <= i {
          assert list[k..][i - k] == r;
        }
      }
    }
  }

  // Continuing from the last row shown skips exactly what has been shown.
  lemma AfterContinues<T>(list: seq<Row<T>>, after: nat, desc: bool, shown: nat)
    requires Sorted(list, desc) && 0 < shown <= |After(list, after, desc)|
    ensures After(list, After(list, after, desc)[shown - 1].id, desc) == After(list, after, desc)[shown..]
  {
    var rest := After(list, after, desc);
    var k := AfterIsSuffix(list, after, desc);
    var cursor := rest[shown - 1].id;
    var l := AfterIsSuffix(list, cursor, desc);
    assert list[k + shown - 1] == rest[shown - 1];
    assert Cuts(list, cursor, desc, k + shown);
    CutsOnce(list, cursor, desc, k + shown, l);
    assert list[k..][shown..] == list[k + shown..];
  }

  // ----- Chaining single pages by the returned cursor -----

  // What a client gets that asks for page after page until one is empty.
  function Chain<T>(list: seq<Row<T>>, limit: nat, cursor: nat, desc: bool, pages: nat): seq<Row<T>>
    decreases pages
  {
    var page := Page(list, limit, cursor, desc);
    if page == [] || pages == 0 then [] else page + Chain(list, limit, LastId(page, cursor), desc, pages - 1)
  }

  // The chained pages are the full listing, in order, once each.
  lemma {:induction false} ChainIsListing<T>(list: seq<Row<T>>, limit: nat, cursor: nat, desc: bool, pages: nat)
    requires Sorted(list, desc) && limit >= 1 && |After(list, cursor, desc)| <= pages
    ensures Chain(list, limit, cursor, desc, pages) == After(list, cursor, desc)
    decreases pages
  {
    var page, rest := Page(list, limit, cursor, desc), After(list, cursor, desc);
    if page == [] {
    } else {
      AfterContinues(list, cursor, desc, |page|);
      assert page == rest[..|page|];
      assert LastId(page, cursor) == rest[|page| - 1].id;
      ChainIsListing(list, limit, LastId(page, cursor), desc, pages - 1);
    }
  }

  // ----- The export loop -----

  // A row that a cursor has not passed.
  predicate Beyond(cursor: nat, id: int, desc: bool) {
    cursor == 0 || Precedes(cursor, id, desc)
  }

  // The listings that the queries find, one after the other; the last stands for all later ones.
  ghost predicate AreViews<T>(views: seq<seq<Row<T>>>, desc: bool) {
    views != [] && forall k :: 0 <= k < |views| ==> Sorted(views[k], desc)
  }

  // Each view has the rows of the ones before, and new ones after them: an ascending listing to which rows
  // are added.
  ghost predicate Grows<T>(views: seq<seq<Row<T>>>) {
    forall k, l :: 0 <= k <= l < |views| ==> views[k] <= views[l]
  }

  ghost predicate EndsIn<T>(list: seq<Row<T>>, tail: seq<Row<T>>) {
    |tail| <= |list| && list[|list| - |tail|..] == tail
  }

  // The new rows come first: a descending listing to which rows are added.
  ghost predicate GrowsInFront<T>(views: seq<seq<Row<T>>>) {
    forall k :: 0 <= k < |views| ==> EndsIn(views[k], views[0])
  }

  // Row r is there at every query and beyond the cursor the export starts from.
  ghost predicate Lasting<T(!new)>(views: seq<seq<Row<T>>>, after: nat, desc: bool, r: Row<T>) {
    Beyond(after, r.id, desc) && forall k :: 0 <= k < |views| ==> r in views[k]
  }

  // What holds of the rows written so far, whatever changes meanwhile: they are in order, hence none twice,
  // each was there at some query, and no lasting row has been passed over.
  ghost predicate Written<T(!new)>(
      views: seq<seq<Row<T>>>, after: nat, desc: bool, out: seq<Row<T>>, cursor: nat)
  {
    && Sorted(out, desc) && cursor == LastId(out, after)
    && (forall r :: r in out ==> Beyond(after, r.id, desc) && exists k :: 0 <= k < |views| && r in views[k])
    && (forall r :: Lasting(views, after, desc, r) ==> r in out || Beyond(cursor, r.id, desc))
  }

  lemma AfterMembers<T(!new)>(list: seq<Row<T>>, cursor: nat, desc: bool)
    requires Sorted(list, desc)
    ensures Sorted(After(list, cursor, desc), desc)
    ensures forall r :: r in After(list, cursor, desc) <==> r in list && Beyond(cursor, r.id, desc)
  {
    var k := AfterIsSuffix(list, cursor, desc);
    var rest := list[k..];
    forall r: Row<T>
      ensures r in rest <==> r in list && Beyond(cursor, r.id, desc)
    {
      if r in list {
        var i :| 0 <= i < |list| && list[i] == r;
        if k <= i {
          assert rest[i - k] == r;
        }
      }
    }
  }

  // A page of a sorted list: its rows, and the rows after its last one.
  lemma PagePasses<T(!new)>(list: seq<Row<T>>, limit: nat, cursor: nat, desc: bool)
    requires Sorted(list, desc) && limit >= 1
    ensures var page := Page(list, limit, cursor, desc);
            && Sorted(page, desc)
            && (forall r :: r in page ==> r in list && Beyond(cursor, r.id, desc))
            && (forall r :: r in list && Beyond(cursor, r.id, desc) ==>
                  r in page || (page != [] && Beyond(LastId(page, cursor), r.id, desc)))
  {
    var rest, page := After(list, cursor, desc), Page(list, limit, cursor, desc);
    AfterMembers(list, cursor, desc);
    assert forall i :: 0 <= i < |page| ==> page[i] == rest[i];
    forall r | r in rest
      ensures r in page || (page != [] && Beyond(LastId(page, cursor), r.id, desc))
    {
      var i :| 0 <= i < |rest| && rest[i] == r;
      if i < |page| {
        assert page[i] == r;
      }
    }
  }

  lemma PageIsWritten<T(!new)>(
      views: seq<seq<Row<T>>>, after: nat, desc: bool, out: seq<Row<T>>, cursor: nat, query: nat, page: seq<Row<T>>)
    requires AreViews(views, desc) && query < |views| && Written(views, after, desc, out, cursor) && page != []
    requires Sorted(page, desc)
    requires forall r :: r in page ==> r in views[query] && Beyond(cursor, r.id, desc)
    requires forall r :: r in views[query] && Beyond(cursor, r.id, desc) ==>
               r in page || Beyond(LastId(page, cursor), r.id, desc)
    ensures Written(views, after, desc, out + page, LastId(page, cursor))
  {
    var all := out + page;
    forall i, k | 0 <= i < k < |all|
      ensures Precedes(all[i].id, all[k].id, desc)
    {
      if i < |out| <= k {
        assert page[k - |out|] in page;
        assert i == |out| - 1 || Precedes(out[i].id, out[|out| - 1].id, desc);
      }
    }
    forall r | r in all
      ensures Beyond(after, r.id, desc) && exists k :: 0 <= k < |views| && r in views[k]
    {
      if r in page {
        assert r in views[query];
        assert out == [] || out[|out| - 1] in out;
      }
    }
    forall r | Lasting(views, after, desc, r)
      ensures r in all || Beyond(LastId(page, cursor), r.id, desc)
    {
      assert r in views[query];
    }
  }

  // Nothing is left to write for a lasting row once a query finds nothing.
  lemma LastingAreWritten<T(!new)>(
      views: seq<seq<Row<T>>>, after: nat, desc: bool, out: seq<Row<T>>, cursor: nat, query: nat)
    requires AreViews(views, desc) && query < |views| && Written(views, after, desc, out, cursor)
    requires After(views[query], cursor, desc) == []
    ensures forall r :: Lasting(views, after, desc, r) ==> r in out
  {
    AfterMembers(views[query], cursor, desc);
    forall r | Lasting(views, after, desc, r)
      ensures r in out
    {
      assert r in views[query] && r !in After(views[query], cursor, desc);
    }
  }

  // The rows written are a start of what a listing has after `after`.
  ghost predicate Opens<T>(out: seq<Row<T>>, list: seq<Row<T>>, after: nat, desc: bool) {
    out <= After(list, after, desc)
  }

  // The next query starts where the rows written end.
  lemma Continues<T>(list: seq<Row<T>>, after: nat, desc: bool, out: seq<Row<T>>, cursor: nat)
    requires Sorted(list, desc) && Opens(out, list, after, desc) && cursor == LastId(out, after)
    ensures After(list, cursor, desc) == After(list, after, desc)[|out|..]
  {
    if out != [] {
      AfterContinues(list, after, desc, |out|);
    }
  }

  lemma PageOpens<T>(list: seq<Row<T>>, limit: nat, after: nat, desc: bool, out: seq<Row<T>>, cursor: nat)
    requires Sorted(list, desc) && Opens(out, list, after, desc) && cursor == LastId(out, after)
    ensures Opens(out + Page(list, limit, cursor, desc), list, after, desc)
  {
    Continues(list, after, desc, out, cursor);
  }

  lemma AfterGrows<T>(list: seq<Row<T>>, longer: seq<Row<T>>, cursor: nat, desc: bool)
    requires Sorted(longer, desc) && list <= longer
    ensures After(list, cursor, desc) <= After(longer, cursor, desc)
  {
    var k := AfterIsSuffix(list, cursor, desc);
    var l := AfterIsSuffix(longer, cursor, desc);
    assert forall i :: 0 <= i < |list| ==> longer[i] == list[i];
    if cursor > 0 {
      var cut := if l <= |list| then l else |list|;
      assert Cuts(list, cursor, desc, cut);
      CutsOnce(list, cursor, desc, k, cut);
    }
  }

  // A cursor inside a listing's old rows does not see the ones added in front.
  lemma AfterInside<T>(list: seq<Row<T>>, longer: seq<Row<T>>, desc: bool, i: nat)
    requires Sorted(longer, desc) && EndsIn(longer, list) && i < |list|
    ensures After(longer, list[i].id, desc) == After(list, list[i].id, desc)
  {
    var more, cursor := |longer| - |list|, list[i].id;
    assert forall k :: 0 <= k < |list| ==> longer[more + k] == list[k];
    assert Sorted(list, desc);
    var k := AfterIsSuffix(list, cursor, desc);
    var l := AfterIsSuffix(longer, cursor, desc);
    assert Cuts(list, cursor, desc, i + 1) && Cuts(longer, cursor, desc, more + i + 1);
    CutsOnce(list, cursor, desc, k, i + 1);
    CutsOnce(longer, cursor, desc, l, more + i + 1);
    assert longer[more..][i + 1..] == longer[more + i + 1..];
  }

  // What query `query` finds next is what view 0 has next.
  lemma SameRest<T>(
      views: seq<seq<Row<T>>>, query: nat, after: nat, desc: bool, out: seq<Row<T>>, cursor: nat)
    requires AreViews(views, desc) && GrowsInFront(views) && query < |views|
    requires Opens(out, views[0], after, desc) && cursor == LastId(out, after) && (out == [] ==> query == 0)
    ensures After(views[query], cursor, desc) == After(views[0], cursor, desc)
  {
    if out != [] {
      var k := AfterIsSuffix(views[0], after, desc);
      var i := k + |out| - 1;
      assert views[0][i] == After(views[0], after, desc)[|out| - 1];
      AfterInside(views[0], views[query], desc, i);
    }
  }

  // When a query finds nothing.
  lemma Ends<T(!new)>(
      views: seq<seq<Row<T>>>, query: nat, after: nat, desc: bool, out: seq<Row<T>>, cursor: nat)
    requires AreViews(views, desc) && query < |views| && Written(views, after, desc, out, cursor)
    requires After(views[query], cursor, desc) == []
    ensures forall r :: Lasting(views, after, desc, r) ==> r in out
    ensures Grows(views) && Opens(out, views[query], after, desc) ==>
              out == After(views[query], after, desc) && After(views[0], after, desc) <= out
    ensures Opens(out, views[0], after, desc) && After(views[0], cursor, desc) == [] ==>
              out == After(views[0], after, desc)
  {
    LastingAreWritten(views, after, desc, out, cursor, query);
    if Grows(views) && Opens(out, views[query], after, desc) {
      Continues(views[query], after, desc, out, cursor);
      AfterGrows(views[0], views[query], after, desc);
    }
    if Opens(out, views[0], after, desc) {
      Continues(views[0], after, desc, out, cursor);
    }
  }

  // Where the export stands at query `query`.
  ghost predicate Underway<T(!new)>(
      views: seq<seq<Row<T>>>, query: nat, after: nat, desc: bool, out: seq<Row<T>>, cursor: nat)
  {
    && query < |views| && Written(views, after, desc, out, cursor)
    && (Grows(views) ==> Opens(out, views[query], after, desc))
    && (GrowsInFront(views) ==> Opens(out, views[0], after, desc) && (out == [] ==> query == 0))
  }

  lemma PageUnderway<T(!new)>(
      views: seq<seq<Row<T>>>, query: nat, limit: nat, after: nat, desc: bool, out: seq<Row<T>>, cursor: nat)
    requires AreViews(views, desc) && Underway(views, query, after, desc, out, cursor) && limit >= 1
    requires Page(views[query], limit, cursor, desc) != []
    ensures
      var page := Page(views[query], limit, cursor, desc);
      Underway(views, query, after, desc, out + page, LastId(page, cursor))
  {
    var page := Page(views[query], limit, cursor, desc);
    PagePasses(views[query], limit, cursor, desc);
    PageIsWritten(views, after, desc, out, cursor, query, page);
    if Grows(views) {
      PageOpens(views[query], limit, after, desc, out, cursor);
    }
    if GrowsInFront(views) {
      SameRest(views, query, after, desc, out, cursor);
      PageOpens(views[0], limit, after, desc, out, cursor);
    }
  }

  lemma QueryUnderway<T(!new)>(
      views: seq<seq<Row<T>>>, query: nat, after: nat, desc: bool, out: seq<Row<T>>, cursor: nat)
    requires AreViews(views, desc) && Underway(views, query, after, desc, out, cursor)
    requires query + 1 < |views| && out != []
    ensures Underway(views, query + 1, after, desc, out, cursor)
  {
    if Grows(views) {
      AfterGrows(views[query], views[query + 1], after, desc);
    }
  }

  // What a finished export promises: no lasting row is missing; when rows are only added, an ascending export
  // is the whole listing as some query found it, the first one's rows included, and a descending export is
  // the listing as the first query found it.
  ghost predicate Complete<T(!new)>(views: seq<seq<Row<T>>>, after: nat, desc: bool, out: seq<Row<T>>)
    requires views != []
  {
    && (forall r :: Lasting(views, after, desc, r) ==> r in out)
    && (Grows(views) ==>
          (exists k :: 0 <= k < |views| && out == After(views[k], after, desc)) && After(views[0], after, desc) <= out)
    && (GrowsInFront(views) ==> out == After(views[0], after, desc))
  }

  lemma EndsComplete<T(!new)>(
      views: seq<seq<Row<T>>>, query: nat, after: nat, desc: bool, out: seq<Row<T>>, cursor: nat)
    requires AreViews(views, desc) && Underway(views, query, after, desc, out, cursor)
    requires After(views[query], cursor, desc) == []
    ensures Complete(views, after, desc, out)
  {
    Ends(views, query, after, desc, out, cursor);
    if GrowsInFront(views) {
      SameRest(views, query, after, desc, out, cursor);
    }
  }

  function Left<T>(list: seq<Row<T>>, cursor: nat, desc: bool): nat {
    |After(list, cursor, desc)|
  }

  lemma PageLeaves<T>(list: seq<Row<T>>, limit: nat, cursor: nat, desc: bool)
    requires Sorted(list, desc) && limit >= 1 && Page(list, limit, cursor, desc) != []
    ensures Left(list, LastId(Page(list, limit, cursor, desc), cursor), desc) < Left(list, cursor, desc)
  {
    AfterContinues(list, cursor, desc, |Page(list, limit, cursor, desc)|);
  }

  ghost predicate Finished<T(!new)>(views: seq<seq<Row<T>>>, after: nat, desc: bool, out: seq<Row<T>>)
    requires views != []
  {
    Written(views, after, desc, out, LastId(out, after)) && Complete(views, after, desc, out)
  }

  // What is still to be written from query `query` on.
  function Exported<T>(views: seq<seq<Row<T>>>, query: nat, limit: nat, cursor: nat, desc: bool): seq<Row<T>>
    requires AreViews(views, desc) && query < |views| && limit >= 1
    decreases |views| - query, Left(views[query], cursor, desc)
  {
    var page := Page(views[query], limit, cursor, desc);
    if page == [] then []
    else
      PageLeaves(views[query], limit, cursor, desc);
      page + Exported(views, NextQuery(views, query), limit, LastId(page, cursor), desc)
  }

  // The query after query `query`, the last view standing for all later ones.
  function NextQuery<T>(views: seq<seq<Row<T>>>, query: nat): nat {
    if query + 1 < |views| then query + 1 else query
  }

  lemma RoundExports<T>(
      views: seq<seq<Row<T>>>, query: nat, limit: nat, cursor: nat, desc: bool, before: seq<Row<T>>)
    requires AreViews(views, desc) && query < |views| && limit >= 1
    ensures
      var page := Page(views[query], limit, cursor, desc);
      if page == [] then before + Exported(views, query, limit, cursor, desc) == before
      else before + page + Exported(views, NextQuery(views, query), limit, LastId(page, cursor), desc)
           == before + Exported(views, query, limit, cursor, desc)
  {
    var page := Page(views[query], limit, cursor, desc);
    if page != [] {
      var rest := Exported(views, NextQuery(views, query), limit, LastId(page, cursor), desc);
      assert before + (page + rest) == before + page + rest;
    }
  }

  lemma RoundUnderway<T(!new)>(
      views: seq<seq<Row<T>>>, query: nat, limit: nat, after: nat, desc: bool, out: seq<Row<T>>, cursor: nat)
    requires AreViews(views, desc) && limit >= 1 && Underway(views, query, after, desc, out, cursor)
    requires Page(views[query], limit, cursor, desc) != []
    ensures
      var page := Page(views[query], limit, cursor, desc);
      Underway(views, NextQuery(views, query), after, desc, out + page, LastId(page, cursor))
  {
    var page := Page(views[query], limit, cursor, desc);
    PageUnderway(views, query, limit, after, desc, out, cursor);
    if query + 1 < |views| {
      QueryUnderway(views, query, after, desc, out + page, LastId(page, cursor));
    }
  }

  lemma {:induction false} ExportedFrom<T(!new)>(
      views: seq<seq<Row<T>>>, query: nat, limit: nat, after: nat, desc: bool, out: seq<Row<T>>, cursor: nat)
    requires AreViews(views, desc) && limit >= 1 && Underway(views, query, after, desc, out, cursor)
    ensures Finished(views, after, desc, out + Exported(views, query, limit, cursor, desc))
    decreases |views| - query, Left(views[query], cursor, desc)
  {
    var page := Page(views[query], limit, cursor, desc);
    RoundExports(views, query, limit, cursor, desc, out);
    if page == [] {
      EndsComplete(views, query, after, desc, out, cursor);
    } else {
      PageLeaves(views[query], limit, cursor, desc);
      RoundUnderway(views, query, limit, after, desc, out, cursor);
      ExportedFrom(views, NextQuery(views, query), limit, after, desc, out + page, LastId(page, cursor));
    }
  }

  // THE EXPORT, whatever happens to the table between its queries: what it writes is in order without
  // repeats, every row was there at some query, and every row that was there at all of them and beyond
  // `after` is written.
  lemma ExportedIsComplete<T(!new)>(views: seq<seq<Row<T>>>, limit: nat, after: nat, desc: bool)
    requires AreViews(views, desc) && limit >= 1
    ensures Finished(views, after, desc, Exported(views, 0, limit, after, desc))
  {
    var none: seq<Row<T>> := [];
    ExportedFrom(views, 0, limit, after, desc, none, after);
    assert none + Exported(views, 0, limit, after, desc) == Exported(views, 0, limit, after, desc);
  }

  // The rows of one page are written one by one.
  method WriteRows<T>(rows: seq<Row<T>>, before: seq<Row<T>>, from: nat) returns (out: seq<Row<T>>, cursor: nat)
    ensures out == before + rows && cursor == LastId(rows, from)
  {
    out, cursor := before, from;
    for i := 0 to |rows|
      invariant out == before + rows[..i] && cursor == LastId(rows[..i], from)
    {
      assert rows[..i + 1] == rows[..i] + [rows[i]];
      out := out + [rows[i]];
      cursor := rows[i].id;
    }
    assert rows[..|rows|] == rows;
  }

  // The loop of the export route: with `all` it ends and has written the export, without it one page.
  method ExportRows<T>(views: seq<seq<Row<T>>>, limit: nat, after: nat, sort: string, all: bool)
    returns (out: seq<Row<T>>, cursor: nat)
    requires AreViews(views, Descending(sort)) && limit >= 1
    ensures cursor == LastId(out, after)
    ensures out == if all then Exported(views, 0, limit, after, Descending(sort))
                   else Page(views[0], limit, after, Descending(sort))
    ensures !all ==>
              var rest := After(views[0], after, Descending(sort));
              out == if |rest| <= limit then rest else rest[..limit]
  {
    var desc := Descending(sort);
    out := [];
    cursor := after;
    var query := 0;
    ghost var whole := Exported(views, 0, limit, after, desc);
    assert out + whole == whole;
    while true
      invariant query < |views| && cursor == LastId(out, after)
      invariant out + Exported(views, query, limit, cursor, desc) == whole
      invariant !all ==> query == 0 && out == []
      decreases |views| - query, Left(views[query], cursor, desc)
    {
      var rows := Page(views[query], limit, cursor, desc);
      RoundExports(views, query, limit, cursor, desc, out);
      if |rows| == 0 {
        break;
      }
      PageLeaves(views[query], limit, cursor, desc);
      out, cursor := WriteRows(rows, out, cursor);
      if !all {
        break;
      }
      query := NextQuery(views, query);
    }
  }
}

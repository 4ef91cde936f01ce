/** The public store listing: keyset pages of twenty and what following the cursor reads. */
module Pagination {
  import opened Text
  import opened Stores

  const PAGE_LIMIT: nat := 20

  /** The stores table by id; the zero id is below every real one. */
  type Table = t: map<nat, Store> | 0 !in t witness map[]

  predicate Matches(s: Store, ward: Option<int>) {
    s.fields.status == Approved && (ward == None || ward == Some(s.fields.ward))
  }

  /** The ids the listing query selects after a cursor. */
  function Selected(t: Table, ward: Option<int>, cursor: nat): set<nat> {
    set id | id in t && Matches(t[id], ward) && id > cursor
  }

  ghost predicate Ascending(s: seq<nat>) {
    forall i, j :: 0 <= i < j < |s| ==> s[i] < s[j]
  }

  /** `s` lists exactly the ids of `ids`, in order. */
  ghost predicate Lists(s: seq<nat>, ids: set<nat>) {
    Ascending(s) && forall id :: id in s <==> id in ids
  }

  lemma {:induction false} OneListing(a: seq<nat>, b: seq<nat>, ids: set<nat>)
    requires Lists(a, ids) && Lists(b, ids)
    ensures a == b
  {
    assert b != [] ==> b[0] in a;
    if a != [] {
      assert a[0] in b && b != [];
      assert b[0] in a;
      assert a[0] == b[0];
      var rest := ids - {a[0]};
      forall id
        ensures id in a[1..] <==> id in rest
        ensures id in b[1..] <==> id in rest
      {
        assert id in a <==> id == a[0] || id in a[1..];
        assert id in b <==> id == b[0] || id in b[1..];
      }
      OneListing(a[1..], b[1..], rest);
    }
  }

  predicate IsLeast(m: nat, ids: set<nat>) {
    m in ids && forall x :: x in ids ==> m <= x
  }

  lemma {:induction false} LeastExists(ids: set<nat>)
    requires ids != {}
    ensures exists m :: IsLeast(m, ids)
  {
    var x :| x in ids;
    if ids == {x} {
      assert IsLeast(x, ids);
    } else {
      LeastExists(ids - {x});
      var m :| IsLeast(m, ids - {x});
      var least := if x < m then x else m;
      forall y | y in ids
        ensures least <= y
      {
        assert y == x || y in ids - {x};
      }
      assert IsLeast(least, ids);
    }
  }

  /** ORDER BY id. */
  function Sorted(ids: set<nat>): (s: seq<nat>)
    ensures Lists(s, ids) && |s| == |ids|
  {
    if ids == {} then []
    else
      LeastExists(ids);
      var m :| IsLeast(m, ids);
      var rest := Sorted(ids - {m});
      assert forall i :: 0 <= i < |rest| ==> rest[i] in ids - {m};
      [m] + rest
  }

  /** What one request for the page after `cursor` answers. */
  ghost predicate IsPage(t: Table, ward: Option<int>, cursor: nat, page: seq<nat>, next: Option<nat>) {
    var all := Selected(t, ward, cursor);
    && Ascending(page)
    && (forall id :: id in page ==> id in all)
    && (next == None ==> |page| == |all| <= PAGE_LIMIT && Lists(page, all))
    && (next.Some? ==>
          && |page| == PAGE_LIMIT < |all|
          && next.value == page[PAGE_LIMIT - 1]
          && forall id :: id in all && id <= next.value ==> id in page)
  }

  function FirstPage(all: seq<nat>): seq<nat> { if |all| > PAGE_LIMIT then all[..PAGE_LIMIT] else all }

  function CursorAfter(all: seq<nat>): Option<nat> {
    if |all| > PAGE_LIMIT then Some(all[PAGE_LIMIT - 1]) else None
  }

  method ListStores(t: Table, ward: Option<int>, cursor: nat) returns (page: seq<nat>, next: Option<nat>)
    ensures IsPage(t, ward, cursor, page, next)
  {
    var all := Sorted(Selected(t, ward, cursor));
    page, next := TakePage(all);
    PageOfSorted(t, ward, cursor, all);
  }

  method TakePage(all: seq<nat>) returns (page: seq<nat>, next: Option<nat>)
    ensures page == FirstPage(all) && next == CursorAfter(all)
  {
    // LIMIT asks for one row more than a page to learn whether another page exists.
    var rows := if |all| <= PAGE_LIMIT + 1 then all else all[..PAGE_LIMIT + 1];
    next := None;
    if |rows| > PAGE_LIMIT {
      next := Some(rows[PAGE_LIMIT - 1]);
      rows := rows[..PAGE_LIMIT];
    }
    page := [];
    for i := 0 to |rows|
      invariant page == rows[..i]
    {
      page := page + [rows[i]];
    }
    assert rows[..|rows|] == rows;
  }

  lemma PageOfSorted(t: Table, ward: Option<int>, cursor: nat, all: seq<nat>)
    requires Lists(all, Selected(t, ward, cursor)) && |all| == |Selected(t, ward, cursor)|
    ensures IsPage(t, ward, cursor, FirstPage(all), CursorAfter(all))
  {
    if |all| > PAGE_LIMIT {
      var page := all[..PAGE_LIMIT];
      forall id | id in Selected(t, ward, cursor) && id <= all[PAGE_LIMIT - 1]
        ensures id in page
      {
        assert id in all;
        var k :| 0 <= k < |all| && all[k] == id;
        assert k < PAGE_LIMIT;
        assert page[k] == id;
      }
      assert forall id :: id in page ==> id in all;
    }
  }

  /** One answered request of a walk: the table it was answered from and the answer. */
  datatype Visit = Visit(table: Table, page: seq<nat>, next: Option<nat>)

  /** Each request passes the cursor the previous answer returned; a walk that
      goes on does so because there was one. The table may change in between. */
  ghost predicate Walk(ward: Option<int>, start: nat, visits: seq<Visit>)
    decreases visits
  {
    visits != [] ==>
      && IsPage(visits[0].table, ward, start, visits[0].page, visits[0].next)
      && (|visits| > 1 ==> visits[0].next.Some? && Walk(ward, visits[0].next.value, visits[1..]))
  }

  ghost predicate Completed(visits: seq<Visit>) {
    visits != [] && visits[|visits| - 1].next == None
  }

  function Read(visits: seq<Visit>): seq<nat> {
    if visits == [] then [] else visits[0].page + Read(visits[1..])
  }

  lemma PageAscends(t: Table, ward: Option<int>, cursor: nat, page: seq<nat>, next: Option<nat>)
    requires IsPage(t, ward, cursor, page, next)
    ensures Ascending(page)
    ensures forall id :: id in page ==> id > cursor && id in t && Matches(t[id], ward)
    ensures next.Some? ==> next.value > cursor && forall id :: id in page ==> id <= next.value
  {
    if next.Some? {
      assert next.value in page;
      forall id | id in page
        ensures id <= next.value
      {
        var i :| 0 <= i < |page| && page[i] == id;
      }
    }
  }

  lemma AscendingJoins(a: seq<nat>, b: seq<nat>, mid: nat)
    requires Ascending(a) && Ascending(b)
    requires forall id :: id in a ==> id <= mid
    requires forall id :: id in b ==> id > mid
    ensures Ascending(a + b)
  {
    forall i, j | 0 <= i < j < |a + b|
      ensures (a + b)[i] < (a + b)[j]
    {
      if i < |a| { assert a[i] in a; }
      if j >= |a| { assert b[j - |a|] in b; }
    }
  }

  lemma ReadOne(visits: seq<Visit>)
    requires |visits| == 1
    ensures Read(visits) == visits[0].page
  {
    assert visits[1..] == [];
  }

  /** Ids only go up along a walk, so nothing is read twice, however the table changes
      between pages. */
  lemma {:induction false} WalkAscends(ward: Option<int>, start: nat, visits: seq<Visit>)
    requires Walk(ward, start, visits)
    ensures Ascending(Read(visits))
    ensures forall id :: id in Read(visits) ==> id > start
    decreases |visits|
  {
    if visits != [] {
      var v := visits[0];
      PageAscends(v.table, ward, start, v.page, v.next);
      if |visits| > 1 {
        WalkAscends(ward, v.next.value, visits[1..]);
        AscendingJoins(v.page, Read(visits[1..]), v.next.value);
      } else {
        ReadOne(visits);
      }
    }
  }

  ghost predicate ReadFrom(ward: Option<int>, visits: seq<Visit>, id: nat) {
    exists k :: 0 <= k < |visits| && id in visits[k].table && Matches(visits[k].table[id], ward)
  }

  /** Every store read was listed from a table in which it matched. */
  lemma {:induction false} WalkReadsOnlyMatches(ward: Option<int>, start: nat, visits: seq<Visit>, id: nat)
    requires Walk(ward, start, visits) && id in Read(visits)
    ensures ReadFrom(ward, visits, id)
    decreases |visits|
  {
    var v := visits[0];
    PageAscends(v.table, ward, start, v.page, v.next);
    if id !in v.page {
      if |visits| == 1 { ReadOne(visits); }
      WalkReadsOnlyMatches(ward, v.next.value, visits[1..], id);
      var k :| 0 <= k < |visits[1..]| && id in visits[1..][k].table && Matches(visits[1..][k].table[id], ward);
      assert visits[1..][k] == visits[k + 1];
    }
  }

  /** A completed walk reads every store that matched throughout; with
      WalkAscends, exactly once. */
  lemma {:induction false} CompletedWalkMissesNothing(ward: Option<int>, start: nat, visits: seq<Visit>, id: nat)
    requires Walk(ward, start, visits) && Completed(visits)
    requires id > start
    requires forall k :: 0 <= k < |visits| ==> id in visits[k].table && Matches(visits[k].table[id], ward)
    ensures id in Read(visits)
    decreases |visits|
  {
    var v := visits[0];
    assert id in Selected(v.table, ward, start);
    if id !in v.page {
      assert v.next.Some? && |visits| > 1;
      assert id > v.next.value;
      forall k | 0 <= k < |visits[1..]|
        ensures id in visits[1..][k].table && Matches(visits[1..][k].table[id], ward)
      {
        assert visits[1..][k] == visits[k + 1];
      }
      CompletedWalkMissesNothing(ward, v.next.value, visits[1..], id);
    }
  }

  /** max(1, ceil(n / PAGE_LIMIT)). */
  function PageCount(n: nat): nat {
    if n == 0 then 1 else (n + PAGE_LIMIT - 1) / PAGE_LIMIT
  }

  function IdSet(s: seq<nat>): set<nat> { set x | x in s }

  lemma RemoveRead(all: set<nat>, page: seq<nat>)
    requires Ascending(page) && forall id :: id in page ==> id in all
    ensures |all - IdSet(page)| == |all| - |page|
  {
    CardinalityOfAscending(page);
    assert all == IdSet(page) + (all - IdSet(page)) && IdSet(page) !! (all - IdSet(page));
  }

  lemma PageSplits(t: Table, ward: Option<int>, start: nat, page: seq<nat>, cursor: nat)
    requires IsPage(t, ward, start, page, Some(cursor))
    ensures Selected(t, ward, cursor) == Selected(t, ward, start) - IdSet(page)
    ensures |Selected(t, ward, cursor)| == |Selected(t, ward, start)| - PAGE_LIMIT
  {
    PageAscends(t, ward, start, page, Some(cursor));
    assert Selected(t, ward, cursor) == Selected(t, ward, start) - IdSet(page);
    RemoveRead(Selected(t, ward, start), page);
  }

  lemma {:induction false} CardinalityOfAscending(s: seq<nat>)
    requires Ascending(s)
    ensures |IdSet(s)| == |s|
  {
    if s != [] {
      CardinalityOfAscending(s[1..]);
      assert s == [s[0]] + s[1..];
      assert IdSet(s) == {s[0]} + IdSet(s[1..]);
      assert {s[0]} !! IdSet(s[1..]);
    }
  }

  /** On a table that does not change, the walk ends after exactly
      max(1, ceil(n / PAGE_LIMIT)) pages, which concatenate to the whole filtered
      listing in id order. */
  lemma {:induction false} FixedTableWalk(t: Table, ward: Option<int>, start: nat, visits: seq<Visit>)
    requires Walk(ward, start, visits)
    requires forall k :: 0 <= k < |visits| ==> visits[k].table == t
    ensures |visits| <= PageCount(|Selected(t, ward, start)|)
    ensures Completed(visits) <==> |visits| == PageCount(|Selected(t, ward, start)|)
    ensures Completed(visits) ==> Lists(Read(visits), Selected(t, ward, start))
    decreases |visits|
  {
    if visits != [] {
      var v, all := visits[0], Selected(t, ward, start);
      if v.next.Some? {
        PageSplits(t, ward, start, v.page, v.next.value);
        if |visits| > 1 {
          FixedTableWalk(t, ward, v.next.value, visits[1..]);
          assert Completed(visits[1..]) <==> Completed(visits);
          if Completed(visits) {
            WalkAscends(ward, start, visits);
            forall id
              ensures id in Read(visits) <==> id in all
            {
              assert id in Read(visits) <==> id in v.page || id in Read(visits[1..]);
            }
          }
        }
      } else {
        assert visits[1..] == [];
        assert Read(visits) == v.page;
      }
    }
  }

  /** A walk from the start on this very table. */
  ghost predicate WalksOn(t: Table, ward: Option<int>, visits: seq<Visit>) {
    Walk(ward, 0, visits) && forall k :: 0 <= k < |visits| ==> visits[k].table == t
  }

  lemma WalkGoesOn(t: Table, ward: Option<int>, visits: seq<Visit>, v: Visit)
    requires WalksOn(t, ward, visits) && NextCursor(0, visits).Some? && v.table == t
    requires IsPage(t, ward, NextCursor(0, visits).value, v.page, v.next)
    ensures WalksOn(t, ward, visits + [v]) && Read(visits + [v]) == Read(visits) + v.page
    ensures |visits| < PageCount(|Selected(t, ward, 0)|)
  {
    WalkExtends(ward, 0, visits, v);
    ReadExtends(visits, v);
    FixedTableWalk(t, ward, 0, visits + [v]);
  }

  /** A client that follows the cursor from the start until there is none. */
  method ReadAll(t: Table, ward: Option<int>) returns (stores: seq<nat>, pages: nat)
    ensures Lists(stores, Selected(t, ward, 0))
    ensures pages == PageCount(|Selected(t, ward, 0)|)
  {
    ghost var visits := [];
    var cursor := Some(0);
    stores, pages := [], 0;
    while cursor.Some?
      invariant pages == |visits| && stores == Read(visits)
      invariant WalksOn(t, ward, visits)
      invariant cursor == NextCursor(0, visits)
      decreases PageCount(|Selected(t, ward, 0)|) - pages
    {
      var page, next := ListStores(t, ward, cursor.value);
      ghost var v := Visit(t, page, next);
      WalkGoesOn(t, ward, visits, v);
      visits := visits + [v];
      stores, pages, cursor := stores + page, pages + 1, next;
    }
    FixedTableWalk(t, ward, 0, visits);
  }

  /** In plain words: what is listed is every approved store, of the ward if one is given, each
      once and by rising id, on full pages of twenty but for the last. */
  lemma ListingInPlainWords(t: Table, ward: Option<int>, stores: seq<nat>, pages: nat)
    requires Lists(stores, Selected(t, ward, 0)) && pages == PageCount(|Selected(t, ward, 0)|)
    ensures forall id :: id in stores <==>
      id in t && t[id].fields.status == Approved && (ward == None || ward.value == t[id].fields.ward)
    ensures forall i, j :: 0 <= i < j < |stores| ==> stores[i] < stores[j]
    ensures |stores| <= 20 * pages && pages >= 1 && (pages > 1 ==> 20 * (pages - 1) < |stores|)
  {
    OneListing(stores, Sorted(Selected(t, ward, 0)), Selected(t, ward, 0));
  }

  lemma {:induction false} ReadExtends(visits: seq<Visit>, v: Visit)
    ensures Read(visits + [v]) == Read(visits) + v.page
  {
    if visits == [] {
      ReadOne([v]);
      assert [] + [v] == [v];
    } else {
      ReadExtends(visits[1..], v);
      assert (visits + [v])[1..] == visits[1..] + [v];
    }
  }

  function NextCursor(start: nat, visits: seq<Visit>): Option<nat> {
    if visits == [] then Some(start) else visits[|visits| - 1].next
  }

  /** The first request of a walk and the rest of it. */
  lemma WalkOf(ward: Option<int>, start: nat, v: Visit, rest: seq<Visit>)
    requires IsPage(v.table, ward, start, v.page, v.next)
    requires rest != [] ==> v.next.Some? && Walk(ward, v.next.value, rest)
    ensures Walk(ward, start, [v] + rest)
  {
    assert ([v] + rest)[1..] == rest;
  }

  lemma {:induction false} WalkExtends(ward: Option<int>, start: nat, visits: seq<Visit>, v: Visit)
    requires Walk(ward, start, visits) && NextCursor(start, visits).Some?
    requires IsPage(v.table, ward, NextCursor(start, visits).value, v.page, v.next)
    ensures Walk(ward, start, visits + [v])
    decreases |visits|
  {
    if visits == [] {
      WalkOf(ward, start, v, []);
      assert [] + [v] == [v] + [];
    } else {
      var rest := visits[1..];
      if rest != [] {
        WalkExtends(ward, visits[0].next.value, rest, v);
      } else {
        WalkOf(ward, visits[0].next.value, v, []);
        assert rest + [v] == [v] + [];
      }
      WalkOf(ward, start, visits[0], rest + [v]);
      assert visits + [v] == [visits[0]] + (rest + [v]);
    }
  }
}

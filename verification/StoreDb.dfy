/** The stores and menu_items tables, updated in place by the generated statements. */
module StoreDb {
  import opened Text
  import opened Stores
  import opened Lifecycle
  import Drafts

  /** What one row went through: the inserted columns and the statements since. */
  datatype History = History(first: Fields, events: seq<Event>)

  datatype MenuItem = MenuItem(storeId: nat, name: string, sortOrder: nat)

  predicate Increasing(rows: seq<Row>) {
    forall i, j :: 0 <= i < j < |rows| ==> rows[i].id < rows[j].id
  }

  /** UPDATE ... WHERE id = `id` AND <guard>: the row it names steps, the others stay. */
  function Updated(rows: seq<Row>, id: nat, e: Event): (r: seq<Row>)
    ensures |r| == |rows|
  {
    seq(|rows|, i requires 0 <= i < |rows| =>
      if rows[i].id == id then Row(id, Step(rows[i].store, e)) else rows[i])
  }

  /** Some row is named `id` and passes the guard, so the statement affects it. */
  predicate Affects(rows: seq<Row>, id: nat, op: Op) {
    exists i :: 0 <= i < |rows| && rows[i].id == id && Guard(op, rows[i].store)
  }

  /** Submitting, approving and rejecting report an affected row exactly when one changes. */
  lemma AffectedMeansChanged(rows: seq<Row>, id: nat, e: Event)
    requires Increasing(rows) && (e.op.Submit? || e.op.Approve? || e.op.Reject?)
    ensures Affects(rows, id, e.op) <==> Updated(rows, id, e) != rows
  {
    if i :| 0 <= i < |rows| && rows[i].id == id && Guard(e.op, rows[i].store) {
      assert Updated(rows, id, e)[i].store.fields.status != rows[i].store.fields.status;
    } else {
      assert Updated(rows, id, e) == rows;
    }
  }

  predicate Missing(r: Row) {
    r.store.fields.latitude == 0.0 && r.store.fields.longitude == 0.0 && r.store.fields.address != ""
  }

  /** The geocode queue in creation order. */
  function MissingCoords(rows: seq<Row>): (q: seq<Row>)
    ensures forall r :: r in q <==> r in rows && Missing(r)
  {
    if rows == [] then []
    else
      var q := MissingCoords(rows[..|rows| - 1]);
      if Missing(rows[|rows| - 1]) then q + [rows[|rows| - 1]] else q
  }

  predicate SameNameWard(lower: char -> char, r: Row, name: string, ward: int) {
    Lower(lower, r.store.fields.name) == Lower(lower, name) && r.store.fields.ward == ward
  }

  predicate Taken(lower: char -> char, rows: seq<Row>, name: string, ward: int) {
    exists i :: 0 <= i < |rows| && SameNameWard(lower, rows[i], name, ward)
  }

  /** The positions of the stores of that name in that ward. */
  function NameWardRows(lower: char -> char, rows: seq<Row>, name: string, ward: int): set<nat> {
    set i | 0 <= i < |rows| && SameNameWard(lower, rows[i], name, ward)
  }

  lemma OneMoreRow(lower: char -> char, rows: seq<Row>, n: nat, name: string, ward: int)
    requires n < |rows|
    ensures |NameWardRows(lower, rows[..n + 1], name, ward)| ==
      |NameWardRows(lower, rows[..n], name, ward)| + if SameNameWard(lower, rows[n], name, ward) then 1 else 0
  {
    var before := NameWardRows(lower, rows[..n], name, ward);
    assert NameWardRows(lower, rows[..n + 1], name, ward) ==
      before + if SameNameWard(lower, rows[n], name, ward) then {n} else {};
    assert n !in before;
  }

  lemma CountedIsTaken(lower: char -> char, rows: seq<Row>, name: string, ward: int)
    ensures |NameWardRows(lower, rows, name, ward)| > 0 <==> Taken(lower, rows, name, ward)
  {
    if i :| 0 <= i < |rows| && SameNameWard(lower, rows[i], name, ward) {
      assert i in NameWardRows(lower, rows, name, ward);
    } else {
      assert NameWardRows(lower, rows, name, ward) == {};
    }
  }

  /** One more event in a row's history. */
  lemma StepsOn(first: Store, events: seq<Event>, e: Event)
    ensures Replay(first, events + [e]) == Step(Replay(first, events), e)
    ensures ReasonsGiven(events) && (e.op.Reject? ==> e.op.reason != "") ==> ReasonsGiven(events + [e])
  {
    assert (events + [e])[..|events|] == events;
  }

  lemma NamesOneRow(rows: seq<Row>, i: nat, e: Event)
    requires Increasing(rows) && i < |rows|
    ensures Updated(rows, rows[i].id, e) == rows[i := Row(rows[i].id, Step(rows[i].store, e))]
    ensures forall k :: 0 <= k < |rows| && k != i ==> rows[k].id != rows[i].id
  {
    forall k | 0 <= k < |rows| && k != i
      ensures rows[k].id != rows[i].id
    {
      if k < i { assert rows[k].id < rows[i].id; } else { assert rows[i].id < rows[k].id; }
    }
  }

  class StoreTable {
    var rows: seq<Row>
    var items: seq<MenuItem>
    ghost var past: map<nat, History>

    /** Every row is what its own history made of it. */
    ghost predicate Valid()
      reads this
    {
      && Increasing(rows)
      && forall i :: 0 <= i < |rows| ==>
           && rows[i].id in past
           && ReasonsGiven(past[rows[i].id].events)
           && rows[i].store == Replay(Inserted(past[rows[i].id].first), past[rows[i].id].events)
    }

    constructor ()
      ensures Valid() && rows == [] && items == []
    {
      rows, items, past := [], [], map[];
    }

    method Locate(id: nat) returns (i: nat)
      ensures i <= |rows|
      ensures i < |rows| ==> rows[i].id == id
      ensures i == |rows| ==> forall k :: 0 <= k < |rows| ==> rows[k].id != id
    {
      i := 0;
      while i < |rows|
        invariant i <= |rows|
        invariant forall k :: 0 <= k < i ==> rows[k].id != id
      {
        if rows[i].id == id { return; }
        i := i + 1;
      }
    }

    /** Stores the new version of row i and records the statement in its history. */
    method Write(i: nat, store: Store, ghost e: Event)
      requires Valid() && i < |rows|
      requires Guard(e.op, rows[i].store) && store == Effect(e.op, rows[i].store, e.at)
      requires e.op.Reject? ==> e.op.reason != ""
      modifies this`rows, this`past
      ensures Valid()
      ensures rows == Updated(old(rows), old(rows)[i].id, e)
      ensures past ==
        old(past)[old(rows)[i].id := History(old(past)[old(rows)[i].id].first, old(past)[old(rows)[i].id].events + [e])]
    {
      ghost var id, h := rows[i].id, past[rows[i].id];
      StepsOn(Inserted(h.first), h.events, e);
      NamesOneRow(rows, i, e);
      rows := rows[i := Row(rows[i].id, store)];
      past := past[id := History(h.first, h.events + [e])];
    }

    /** INSERT of every operator-writable column. */
    method CreateStoreFull(f: Fields) returns (id: nat)
      requires Valid()
      modifies this`rows, this`past
      ensures Valid()
      ensures rows == Drafts.Append(old(rows), f) && id == rows[|rows| - 1].id
      ensures past == old(past)[id := History(f, [])]
    {
      id := if rows == [] then 0 else rows[|rows| - 1].id + 1;
      rows := rows + [Row(id, Store(f, None, None))];
      past := past[id := History(f, [])];
    }

    method CreateMenuItem(storeId: nat, name: string, sortOrder: nat)
      modifies this`items
      ensures items == old(items) + [MenuItem(storeId, name, sortOrder)]
    {
      items := items + [MenuItem(storeId, name, sortOrder)];
    }

    method SubmitStore(id: nat, now: int) returns (affected: bool)
      requires Valid()
      modifies this`rows, this`past
      ensures Valid() && rows == Updated(old(rows), id, Event(Submit, now))
      ensures affected == Affects(old(rows), id, Submit)
    {
      var i := Locate(id);
      affected := i < |rows| && (rows[i].store.fields.status == Draft || rows[i].store.fields.status == Rejected);
      if affected {
        var s := rows[i].store;
        Write(i, Store(s.fields.(status := Pending), None, s.approvedAt), Event(Submit, now));
      }
    }

    method ApproveStore(id: nat, now: int) returns (affected: bool)
      requires Valid()
      modifies this`rows, this`past
      ensures Valid() && rows == Updated(old(rows), id, Event(Approve, now))
      ensures affected == Affects(old(rows), id, Approve)
    {
      var i := Locate(id);
      affected := i < |rows| && (rows[i].store.fields.status == Draft || rows[i].store.fields.status == Pending);
      if affected {
        var s := rows[i].store;
        Write(i, Store(s.fields.(status := Approved), None, Some(now)), Event(Approve, now));
      }
    }

    method RejectStore(id: nat, reason: string, now: int) returns (affected: bool)
      requires Valid() && reason != ""
      modifies this`rows, this`past
      ensures Valid() && rows == Updated(old(rows), id, Event(Reject(reason), now))
      ensures affected == Affects(old(rows), id, Reject(reason))
    {
      var i := Locate(id);
      affected := i < |rows| && rows[i].store.fields.status == Pending;
      if affected {
        var s := rows[i].store;
        Write(i, Store(s.fields.(status := Rejected), Some(reason), s.approvedAt), Event(Reject(reason), now));
      }
    }

    method UpdateStoreProfile(id: nat, p: Profile, now: int) returns (affected: bool)
      requires Valid()
      modifies this`rows, this`past
      ensures Valid() && rows == Updated(old(rows), id, Event(EditProfile(p), now))
      ensures affected == Affects(old(rows), id, EditProfile(p))
    {
      var i := Locate(id);
      affected := i < |rows|;
      if affected {
        var s := rows[i].store;
        Write(i, s.(fields := WithProfile(s.fields, p)), Event(EditProfile(p), now));
      }
    }

    method UpdateStoreFull(id: nat, f: Fields, now: int) returns (affected: bool)
      requires Valid()
      modifies this`rows, this`past
      ensures Valid() && rows == Updated(old(rows), id, Event(EditFull(f), now))
      ensures affected == Affects(old(rows), id, EditFull(f))
    {
      var i := Locate(id);
      affected := i < |rows|;
      if affected {
        var s := rows[i].store;
        var stamp := None;
        if f.status == Approved {
          stamp := if s.approvedAt.Some? then s.approvedAt else Some(now);
        }
        Write(i, Store(f, s.rejection, stamp), Event(EditFull(f), now));
      }
    }

    method UpdateStoreCoords(id: nat, lat: real, lng: real, now: int) returns (affected: bool)
      requires Valid()
      modifies this`rows, this`past
      ensures Valid() && rows == Updated(old(rows), id, Event(SetCoords(lat, lng), now))
      ensures affected == Affects(old(rows), id, SetCoords(lat, lng))
    {
      var i := Locate(id);
      affected := i < |rows|;
      if affected {
        var s := rows[i].store;
        Write(i, s.(fields := s.fields.(latitude := lat, longitude := lng)), Event(SetCoords(lat, lng), now));
      }
    }

    method CountStoresByNameWard(lower: char -> char, name: string, ward: int) returns (n: nat)
      ensures n == |NameWardRows(lower, rows, name, ward)|
      ensures n > 0 <==> Taken(lower, rows, name, ward)
    {
      n := 0;
      for i := 0 to |rows|
        invariant n == |NameWardRows(lower, rows[..i], name, ward)|
      {
        OneMoreRow(lower, rows, i, name, ward);
        if SameNameWard(lower, rows[i], name, ward) {
          n := n + 1;
        }
      }
      assert rows[..|rows|] == rows;
      CountedIsTaken(lower, rows, name, ward);
    }

    method ListStoresMissingCoords(limit: nat) returns (queue: seq<Row>)
      ensures var q := MissingCoords(rows); queue == if |q| <= limit then q else q[..limit]
    {
      queue := [];
      var i := 0;
      while i < |rows| && |queue| < limit
        invariant i <= |rows|
        invariant queue == MissingCoords(rows[..i]) && |queue| <= limit
      {
        assert rows[..i + 1][..i] == rows[..i];
        if rows[i].store.fields.latitude == 0.0 && rows[i].store.fields.longitude == 0.0
           && rows[i].store.fields.address != "" {
          queue := queue + [rows[i]];
        }
        i := i + 1;
      }
      assert rows[..|rows|] == rows;
      MissingPrefix(rows, i);
    }

    /** The discovery transaction when no other writer interleaves with it. */
    method CreateDiscoveryDraft(lower: char -> char, arg: Fields) returns (row: Row, created: bool)
      requires Valid()
      modifies this`rows, this`past
      ensures Valid()
      ensures rows == Drafts.Save(lower, old(rows), arg)
      ensures created <==> !Drafts.Refused(lower, old(rows), arg)
      ensures row in rows && Drafts.Duplicate(lower, row.store.fields, arg)
      ensures created ==> row.store.fields == Drafts.DraftOf(arg) && row == rows[|rows| - 1]
      ensures created <==> forall i :: 0 <= i < |old(rows)| ==>
        var there := old(rows)[i].store.fields;
        && there.sourceUrl != arg.sourceUrl
        && (there.ward == arg.ward ==>
              && Lower(lower, BTrim(there.name)) != Lower(lower, TrimSpace(arg.name))
              && (BTrim(there.address) == ""
                  || Lower(lower, BTrim(there.address)) != Lower(lower, TrimSpace(arg.address))))
      ensures created ==>
        && |rows| == |old(rows)| + 1 && rows[..|old(rows)|] == old(rows)
        && row.store.rejection == None && row.store.approvedAt == None
        && row.store.fields == arg.(status := Draft, gfStatus := OnRequest, gfOriented := false)
      ensures !created ==> rows == old(rows)
    {
      var i := 0;
      while i < |rows|
        invariant i <= |rows|
        invariant forall k :: 0 <= k < i ==> !Drafts.Duplicate(lower, rows[k].store.fields, arg)
      {
        if Drafts.Duplicate(lower, rows[i].store.fields, arg) {
          return rows[i], false;
        }
        i := i + 1;
      }
      var f := arg.(status := Draft, gfStatus := OnRequest, gfOriented := false);
      var id := CreateStoreFull(f);
      return rows[|rows| - 1], true;
    }
  }

  lemma {:induction false} MissingPrefix(rows: seq<Row>, i: nat)
    requires i <= |rows|
    ensures MissingCoords(rows[..i]) <= MissingCoords(rows)
    ensures |MissingCoords(rows[..i])| <= i
  {
    if i == |rows| {
      assert rows[..i] == rows;
      if i > 0 {
        MissingPrefix(rows[..i - 1], i - 1);
        assert rows[..i - 1][..i - 1] == rows[..i - 1];
      }
    } else {
      MissingPrefix(rows[..|rows| - 1], i);
      assert rows[..|rows| - 1][..i] == rows[..i];
    }
  }

  /** Whatever was done to the table, every row obeys the approval-stamp and
      rejection-reason rules of its own history. */
  lemma EveryRowKeepsTheRules(t: StoreTable, i: nat)
    requires t.Valid() && i < |t.rows|
    ensures var s, h := t.rows[i].store, t.past[t.rows[i].id];
      && (s.approvedAt.Some? ==> s.fields.status == Approved)
      && (h.first.status != Approved ==> (s.approvedAt.Some? <==> s.fields.status == Approved))
      && (s.rejection.Some? <==> exists k: nat :: StandingRejection(Inserted(h.first), h.events, k))
  {
    var h := t.past[t.rows[i].id];
    StampExactlyWhen(h.first, h.events);
    ReasonIffStandingRejection(h.first, h.events);
  }
}

/** What each record of an import leads to, told from its cells and the tables it meets. */
module ImportRows {
  import opened Text
  import opened Stores
  import opened Import
  import opened ImportRuns
  import StoreDb

  // ----- cells, wards and item lists -----

  /** The cell is the trimmed text under the last column of that name, empty if there is none. */
  lemma CellMeans(lower: char -> char, header: seq<string>, cells: seq<string>, name: string)
    ensures forall k: nat :: LastNamed(lower, header, name, k) && k < |cells| ==>
      Cell(Columns(lower, header), cells, name) == TrimSpace(cells[k])
    ensures (forall k: nat :: LastNamed(lower, header, name, k) ==> k >= |cells|) ==>
      Cell(Columns(lower, header), cells, name) == ""
  {
    LastColumnWins(lower, header, name);
    forall k: nat | LastNamed(lower, header, name, k)
      ensures name in Columns(lower, header) && k == Columns(lower, header)[name]
    {
    }
  }

  /** The last ward of the list known by that key. */
  predicate LastKnown(lower: char -> char, wards: seq<Ward>, key: string, i: nat) {
    i < |wards| && KnownBy(lower, wards[i], key) && forall j :: i < j < |wards| ==> !KnownBy(lower, wards[j], key)
  }

  lemma SameLastKnown(lower: char -> char, wards: seq<Ward>, key: string, i: nat)
    requires wards != [] && !KnownBy(lower, wards[|wards| - 1], key)
    ensures LastKnown(lower, wards, key, i) <==> LastKnown(lower, wards[..|wards| - 1], key, i)
  {
    var init := wards[..|wards| - 1];
    assert forall j :: 0 <= j < |init| ==> init[j] == wards[j];
  }

  lemma {:induction false} KeyMeans(lower: char -> char, wards: seq<Ward>, key: string)
    ensures var ids := WardIds(lower, wards);
      && (key in ids <==> exists i: nat :: LastKnown(lower, wards, key, i))
      && (forall i: nat :: LastKnown(lower, wards, key, i) && key in ids ==> ids[key] == wards[i].id)
  {
    if wards != [] {
      var n := |wards| - 1;
      LastWardOverrides(lower, wards, key);
      if KnownBy(lower, wards[n], key) {
        assert LastKnown(lower, wards, key, n);
      } else {
        KeyMeans(lower, wards[..n], key);
        forall i: nat
          ensures LastKnown(lower, wards, key, i) <==> LastKnown(lower, wards[..n], key, i)
        {
          SameLastKnown(lower, wards, key, i);
        }
        KeyMoves(WardIds(lower, wards), WardIds(lower, wards[..n]), lower, wards, wards[..n], key);
      }
    }
  }

  lemma KeyMoves(ids: map<string, int>, before: map<string, int>, lower: char -> char, wards: seq<Ward>,
      init: seq<Ward>, key: string)
    requires init <= wards && (key in ids <==> key in before) && (key in ids ==> ids[key] == before[key])
    requires forall i: nat :: LastKnown(lower, wards, key, i) <==> LastKnown(lower, init, key, i)
    requires key in before <==> exists i: nat :: LastKnown(lower, init, key, i)
    requires forall i: nat :: LastKnown(lower, init, key, i) && key in before ==> before[key] == init[i].id
    ensures key in ids <==> exists i: nat :: LastKnown(lower, wards, key, i)
    ensures forall i: nat :: LastKnown(lower, wards, key, i) && key in ids ==> ids[key] == wards[i].id
  {
  }

  /** A ward cell names the last ward known by its text, or failing that the last known by
      its lower-cased text, and otherwise none. */
  lemma WardMeans(lower: char -> char, wards: seq<Ward>, faults: Faults, name: string)
    ensures var found := WardOf(Setup(lower, WardIds(lower, wards), faults), name);
      && (forall i: nat :: LastKnown(lower, wards, name, i) ==> found == Some(wards[i].id))
      && ((forall i: nat :: !LastKnown(lower, wards, name, i)) ==>
            && (forall i: nat :: LastKnown(lower, wards, Lower(lower, name), i) ==> found == Some(wards[i].id))
            && ((forall i: nat :: !LastKnown(lower, wards, Lower(lower, name), i)) ==> found == None))
  {
    KeyMeans(lower, wards, name);
    KeyMeans(lower, wards, Lower(lower, name));
  }

  /** `out` is what stands at the positions `at` of the list, all those that are not blank. */
  predicate PartsAt(out: seq<string>, trimmed: seq<string>, at: seq<nat>) {
    && |at| == |out|
    && (forall k :: 0 <= k < |at| ==> at[k] < |trimmed| && out[k] == trimmed[at[k]] && out[k] != "")
    && (forall j, k :: 0 <= j < k < |at| ==> at[j] < at[k])
    && (forall i :: 0 <= i < |trimmed| && trimmed[i] != "" ==> i in at)
  }

  function Trimmed(parts: seq<string>): seq<string> {
    seq(|parts|, i requires 0 <= i < |parts| => TrimSpace(parts[i]))
  }

  lemma OnePartMore(out: seq<string>, trimmed: seq<string>, at: seq<nat>, part: string)
    requires PartsAt(out, trimmed, at)
    ensures part == "" ==> PartsAt(out, trimmed + [part], at)
    ensures part != "" ==> PartsAt(out + [part], trimmed + [part], at + [|trimmed|])
  {
  }

  lemma LastPart(parts: seq<string>) returns (part: string)
    requires parts != []
    ensures var init := parts[..|parts| - 1];
      && NonBlank(parts) == NonBlank(init) + (if part != "" then [part] else [])
      && Trimmed(parts) == Trimmed(init) + [part]
  {
    part := TrimSpace(parts[|parts| - 1]);
  }

  /** The items are the trimmed parts that are not blank, each once and in order. */
  lemma {:induction false} NonBlankMeans(parts: seq<string>) returns (at: seq<nat>)
    ensures PartsAt(NonBlank(parts), Trimmed(parts), at)
  {
    at := [];
    if parts != [] {
      var init := parts[..|parts| - 1];
      at := NonBlankMeans(init);
      var part := LastPart(parts);
      OnePartMore(NonBlank(init), Trimmed(init), at, part);
      at := if part != "" then at + [|init|] else at;
    }
  }

  // ----- what a record leads to -----

  predicate Named(cols: map<string, nat>, rec: Record) {
    rec.Record? && Cell(cols, rec.cells, "name") != ""
  }

  predicate Placed(s: Setup, cols: map<string, nat>, rec: Record) {
    Named(cols, rec) && WardOf(s, Cell(cols, rec.cells, "ward")).Some?
  }

  /** Some store of that ward has the record's name, up to letter case. */
  predicate NameThere(s: Setup, cols: map<string, nat>, rows: seq<Row>, rec: Record)
    requires Placed(s, cols, rec)
  {
    exists i :: 0 <= i < |rows|
      && Lower(s.lower, rows[i].store.fields.name) == Lower(s.lower, Cell(cols, rec.cells, "name"))
      && rows[i].store.fields.ward == WardOf(s, Cell(cols, rec.cells, "ward")).value
  }

  predicate Skips(s: Setup, cols: map<string, nat>, rows: seq<Row>, row: nat, rec: Record) {
    Placed(s, cols, rec) && !s.faults.check(row) && NameThere(s, cols, rows, rec)
  }

  /** The record reaches its insert. */
  predicate Inserts(s: Setup, cols: map<string, nat>, rows: seq<Row>, row: nat, rec: Record) {
    Placed(s, cols, rec) && !s.faults.check(row) && !NameThere(s, cols, rows, rec)
  }

  /** Why the record fails as a whole, if it does. */
  predicate FailsFor(s: Setup, cols: map<string, nat>, rows: seq<Row>, row: nat, rec: Record, why: Reason) {
    match why
    case BadRow => rec.Malformed?
    case MissingName => rec.Record? && !Named(cols, rec)
    case UnknownWard => Named(cols, rec) && !Placed(s, cols, rec)
    case CheckFailed => Placed(s, cols, rec) && s.faults.check(row)
    case CreateFailed => Inserts(s, cols, rows, row, rec) && s.faults.create(row) != Fine
    case ItemFailed => false
  }

  /** The store a record becomes: an unreviewed draft of its cells. */
  predicate DraftOfCells(s: Setup, cols: map<string, nat>, rec: Record, f: Fields)
    requires Placed(s, cols, rec)
  {
    && f.name == Cell(cols, rec.cells, "name") && Some(f.ward) == WardOf(s, Cell(cols, rec.cells, "ward"))
    && f.address == Cell(cols, rec.cells, "address") && f.nameEn == Cell(cols, rec.cells, "name_en")
    && f.phone == Cell(cols, rec.cells, "phone") && f.sourceUrl == Cell(cols, rec.cells, "source_url")
    && f.notes == Cell(cols, rec.cells, "notes")
    && (var image := Cell(cols, rec.cells, "image_url");
        if image == "" then f.photoUrl == None else f.photoUrl == Some(image))
    && f.status == Draft && f.gfStatus == OnRequest && !f.gfOriented && f.cuisine == "" && f.priceLevel == 2
    && f.latitude == 0.0 && f.longitude == 0.0
  }

  /** One row more at the end, without stamp or reason, under a new id. */
  ghost predicate OneMore(s: Setup, cols: map<string, nat>, rows: seq<Row>, rec: Record, after: seq<Row>)
    requires Placed(s, cols, rec)
  {
    && |after| == |rows| + 1 && after[..|rows|] == rows
    && DraftOfCells(s, cols, rec, after[|rows|].store.fields)
    && after[|rows|].store.rejection == None && after[|rows|].store.approvedAt == None
    && after[|rows|].id == if rows == [] then 0 else rows[|rows| - 1].id + 1
  }

  /** The new store's items: the parts of its list, in place, less those whose insert failed,
      each of which is an error of the row. */
  ghost predicate ItemsStored(s: Setup, st: State, after: State, row: nat, name: string, storeId: nat,
      names: seq<string>)
  {
    && st.items <= after.items && st.tally.errors <= after.tally.errors
    && var added, errors := after.items[|st.items|..], after.tally.errors[|st.tally.errors|..];
       && (forall i :: 0 <= i < |added| ==> ItemOf(s, row, storeId, names, added[i]))
       && (forall i, j :: 0 <= i < j < |added| ==> added[i].sortOrder < added[j].sortOrder)
       && (forall k :: 0 <= k < |names| && !s.faults.item(row, k) ==> StoreDb.MenuItem(storeId, names[k], k) in added)
       && (forall e :: e in errors ==> e == RowError(row, name, ItemFailed))
       && |added| + |errors| == |names|
       && after.tally.menuItems == st.tally.menuItems + |added|
  }

  /** What the record did to the tables and the tally. */
  ghost predicate Did(s: Setup, cols: map<string, nat>, st: State, after: State, row: nat, rec: Record) {
    var t, t' := st.tally, after.tally;
    var created := Inserts(s, cols, st.rows, row, rec) && s.faults.create(row) == Fine;
    && t'.created == t.created + (if created then 1 else 0)
    && t'.skipped == t.skipped + (if Skips(s, cols, st.rows, row, rec) then 1 else 0)
    && (forall why ::
          FailsFor(s, cols, st.rows, row, rec, why) ==>
            && t'.failed == t.failed + 1
            && t'.errors == t.errors
               + [RowError(row, if Named(cols, rec) then Cell(cols, rec.cells, "name") else "", why)])
    && (created || Skips(s, cols, st.rows, row, rec) ==> t'.failed == t.failed)
    && (!created ==> after.items == st.items && t'.menuItems == t.menuItems)
    && (Skips(s, cols, st.rows, row, rec) ==> t'.errors == t.errors)
    && (if Inserts(s, cols, st.rows, row, rec) && s.faults.create(row) != Lost
        then OneMore(s, cols, st.rows, rec, after.rows) else after.rows == st.rows)
    && (created ==>
          ItemsStored(s, st, after, row, Cell(cols, rec.cells, "name"), after.rows[|st.rows|].id,
                      NonBlank(Split(Cell(cols, rec.cells, "gluten_free_items")))))
  }

  lemma {:induction false} ItemsAreTallied(s: Setup, st: State, row: nat, name: string, storeId: nat,
      names: seq<string>)
    ensures var after := AddItems(s, st, row, name, storeId, names);
      && st.items <= after.items && st.tally.errors <= after.tally.errors
      && (forall i :: |st.tally.errors| <= i < |after.tally.errors| ==>
            after.tally.errors[i] == RowError(row, name, ItemFailed))
      && |after.items| - |st.items| + |after.tally.errors| - |st.tally.errors| == |names|
      && after.tally == st.tally.(menuItems := st.tally.menuItems + |after.items| - |st.items|,
                                  errors := after.tally.errors)
  {
    if names != [] {
      ItemsAreTallied(s, st, row, name, storeId, names[..|names| - 1]);
    }
  }

  lemma CreateDid(s: Setup, cols: map<string, nat>, st: State, row: nat, rec: Record)
    requires Inserts(s, cols, st.rows, row, rec) && s.faults.create(row) == Fine
    ensures Did(s, cols, st, ImportRow(s, cols, st, row, rec), row, rec)
  {
    var r := Read(cols, rec.cells);
    var ward := WardOf(s, r.ward).value;
    var names := NonBlank(Split(r.items));
    var made := Appended(st, FieldsOf(r, ward));
    var counted := made.(tally := st.tally.(created := st.tally.created + 1));
    var id := made.rows[|st.rows|].id;
    ItemsAreTallied(s, counted, row, r.name, id, names);
    ItemsAreTheParts(s, counted, row, r.name, id, names);
    ItemsKeepRows(s, counted, row, r.name, id, names);
    NotTaken(s, cols, st, row, rec);
    assert ImportRow(s, cols, st, row, rec) == AddItems(s, counted, row, r.name, id, names);
  }

  lemma NotTaken(s: Setup, cols: map<string, nat>, st: State, row: nat, rec: Record)
    requires Placed(s, cols, rec)
    ensures var name, ward := Cell(cols, rec.cells, "name"), WardOf(s, Cell(cols, rec.cells, "ward")).value;
      StoreDb.Taken(s.lower, st.rows, name, ward) <==> NameThere(s, cols, st.rows, rec)
  {
    var name, ward := Cell(cols, rec.cells, "name"), WardOf(s, Cell(cols, rec.cells, "ward")).value;
    forall i | 0 <= i < |st.rows|
      ensures StoreDb.SameNameWard(s.lower, st.rows[i], name, ward) <==>
        Lower(s.lower, st.rows[i].store.fields.name) == Lower(s.lower, name) && st.rows[i].store.fields.ward == ward
    {
    }
  }

  lemma UnplacedDid(s: Setup, cols: map<string, nat>, st: State, row: nat, rec: Record)
    requires !Placed(s, cols, rec)
    ensures Did(s, cols, st, ImportRow(s, cols, st, row, rec), row, rec)
  {
  }

  lemma PlacedDid(s: Setup, cols: map<string, nat>, st: State, row: nat, rec: Record)
    requires Placed(s, cols, rec) && !(Inserts(s, cols, st.rows, row, rec) && s.faults.create(row) == Fine)
    ensures Did(s, cols, st, ImportRow(s, cols, st, row, rec), row, rec)
  {
    NotTaken(s, cols, st, row, rec);
  }

  /** For every record and whatever the tables hold: it is created exactly if it is readable,
      has a name, its ward is known, the check and the insert succeed and no store of the ward
      has the name; skipped exactly if one has; and otherwise it fails for the one reason that
      applies. What it leaves in the tables is said in full. */
  lemma EveryRecordIsAccountedFor(s: Setup, cols: map<string, nat>, st: State, row: nat, rec: Record)
    ensures Did(s, cols, st, ImportRow(s, cols, st, row, rec), row, rec)
    ensures Skips(s, cols, st.rows, row, rec)
      || (Inserts(s, cols, st.rows, row, rec) && s.faults.create(row) == Fine)
      || exists why :: FailsFor(s, cols, st.rows, row, rec, why)
  {
    if Inserts(s, cols, st.rows, row, rec) && s.faults.create(row) == Fine {
      CreateDid(s, cols, st, row, rec);
    } else {
      if Placed(s, cols, rec) { PlacedDid(s, cols, st, row, rec); } else { UnplacedDid(s, cols, st, row, rec); }
      assert rec.Malformed? ==> FailsFor(s, cols, st.rows, row, rec, BadRow);
      assert rec.Record? && !Named(cols, rec) ==> FailsFor(s, cols, st.rows, row, rec, MissingName);
      assert Named(cols, rec) && !Placed(s, cols, rec) ==> FailsFor(s, cols, st.rows, row, rec, UnknownWard);
      assert Placed(s, cols, rec) && s.faults.check(row) ==> FailsFor(s, cols, st.rows, row, rec, CheckFailed);
      assert Inserts(s, cols, st.rows, row, rec) ==> FailsFor(s, cols, st.rows, row, rec, CreateFailed);
    }
  }

  // ----- the whole upload -----

  predicate HasColumn(lower: char -> char, header: seq<string>, name: string) {
    exists k :: 0 <= k < |header| && Normal(lower, header[k]) == name
  }

  lemma ColumnIsThere(lower: char -> char, header: seq<string>, name: string)
    ensures name in Columns(lower, header) <==> HasColumn(lower, header, name)
  {
    LastColumnWins(lower, header, name);
  }

  /** The tables and counts after each record, from none to all. */
  ghost predicate Stages(s: Setup, cols: map<string, nat>, recs: seq<Record>, stages: seq<State>) {
    && |stages| == |recs| + 1
    && forall k :: 0 <= k < |recs| ==> Did(s, cols, stages[k], stages[k + 1], k + 1, recs[k])
  }

  lemma {:induction false} ImportGoesByStages(s: Setup, cols: map<string, nat>, st: State, recs: seq<Record>)
    returns (stages: seq<State>)
    ensures Stages(s, cols, recs, stages) && stages[0] == st && stages[|recs|] == ImportAll(s, cols, st, recs)
  {
    if recs == [] {
      stages := [st];
    } else {
      var n := |recs| - 1;
      var before := ImportGoesByStages(s, cols, st, recs[..n]);
      var last := ImportAll(s, cols, st, recs);
      EveryRecordIsAccountedFor(s, cols, before[n], n + 1, recs[n]);
      stages := before + [last];
      forall k | 0 <= k < |recs|
        ensures Did(s, cols, stages[k], stages[k + 1], k + 1, recs[k])
      {
        if k < n {
          assert Did(s, cols, before[k], before[k + 1], k + 1, recs[..n][k]);
        }
      }
    }
  }

  /** An upload is refused for a missing name column, then for a missing ward column, then for
      unreadable wards, and changes nothing; any other is imported record by record, row numbers
      counting from 1, and answered with the counts of its last stage. */
  lemma UploadGoesRecordByRecord(lower: char -> char, wards: Option<seq<Ward>>, faults: Faults, header: seq<string>,
      rows: seq<Row>, items: seq<StoreDb.MenuItem>, recs: seq<Record>) returns (stages: seq<State>)
    ensures var (answer, st) := AnswerOf(lower, wards, faults, Columns(lower, header), rows, items, recs);
      if !HasColumn(lower, header, "name") then answer == MissingColumn("name") && st.rows == rows && st.items == items
      else if !HasColumn(lower, header, "ward") then
        answer == MissingColumn("ward") && st.rows == rows && st.items == items
      else if wards == None then answer == WardsUnread && st.rows == rows && st.items == items
      else
        && Stages(Setup(lower, WardIds(lower, wards.value), faults), Columns(lower, header), recs, stages)
        && stages[0] == State(rows, items, Tally(0, 0, 0, 0, [])) && stages[|recs|] == st
        && answer == Imported(st.tally)
  {
    ColumnIsThere(lower, header, "name");
    ColumnIsThere(lower, header, "ward");
    stages := [];
    if wards.Some? {
      stages := ImportGoesByStages(Setup(lower, WardIds(lower, wards.value), faults), Columns(lower, header),
                                   State(rows, items, ZERO), recs);
    }
  }
}

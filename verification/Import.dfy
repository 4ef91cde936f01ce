/** The CSV import: header lookup, the row loop, and what importing again does. */
module Import {
  import opened Text
  import opened Stores
  import Drafts
  import StoreDb

  /** What the CSV reader yields for a row: its cells, or an error. */
  datatype Record = Malformed | Record(cells: seq<string>)

  datatype Reason = BadRow | MissingName | UnknownWard | CheckFailed | CreateFailed | ItemFailed

  datatype RowError = RowError(row: nat, name: string, reason: Reason)

  datatype Tally = Tally(created: nat, skipped: nat, failed: nat, menuItems: nat, errors: seq<RowError>)

  const ZERO: Tally := Tally(0, 0, 0, 0, [])

  /** How each row's database calls end. */
  datatype Faults = Faults(check: nat -> bool, create: nat -> Fault, item: (nat, nat) -> bool)

  datatype Setup = Setup(lower: char -> char, wardIds: map<string, int>, faults: Faults)

  datatype State = State(rows: seq<Row>, items: seq<StoreDb.MenuItem>, tally: Tally)

  // ----- columns -----

  function Normal(lower: char -> char, h: string): string { Lower(lower, TrimSpace(h)) }

  /** Header name to column; a repeated name means its last column. */
  function Columns(lower: char -> char, header: seq<string>): map<string, nat> {
    if header == [] then map[]
    else
      var k := |header| - 1;
      Columns(lower, header[..k])[Normal(lower, header[k]) := k]
  }

  /** The trimmed cell, empty when the column is absent or the row too short. */
  function Cell(cols: map<string, nat>, cells: seq<string>, name: string): string {
    if name in cols && cols[name] < |cells| then TrimSpace(cells[cols[name]]) else ""
  }

  /** Everything the import reads of a row. */
  datatype Reading = Reading(
    name: string, nameEn: string, ward: string, address: string, items: string,
    phone: string, sourceUrl: string, imageUrl: string, notes: string)

  const KNOWN: seq<string> :=
    ["name", "name_en", "ward", "address", "gluten_free_items", "phone", "source_url", "image_url", "notes"]

  function Read(cols: map<string, nat>, cells: seq<string>): Reading {
    Reading(Cell(cols, cells, "name"), Cell(cols, cells, "name_en"), Cell(cols, cells, "ward"),
            Cell(cols, cells, "address"), Cell(cols, cells, "gluten_free_items"), Cell(cols, cells, "phone"),
            Cell(cols, cells, "source_url"), Cell(cols, cells, "image_url"), Cell(cols, cells, "notes"))
  }

  // ----- wards and item lists -----

  /** Japanese or lower-cased English name to id; later wards override. */
  function WardIds(lower: char -> char, wards: seq<Ward>): map<string, int> {
    if wards == [] then map[]
    else
      var w := wards[|wards| - 1];
      WardIds(lower, wards[..|wards| - 1])[TrimSpace(w.nameJa) := w.id][Lower(lower, TrimSpace(w.nameEn)) := w.id]
  }

  function WardOf(s: Setup, name: string): Option<int> {
    if name in s.wardIds then Some(s.wardIds[name])
    else if Lower(s.lower, name) in s.wardIds then Some(s.wardIds[Lower(s.lower, name)])
    else None
  }

  /** strings.Split(s, ";"). */
  function Split(s: string): (parts: seq<string>)
    ensures parts != []
  {
    if s == "" then [""]
    else
      var rest := Split(s[1..]);
      if s[0] == ';' then [""] + rest else [[s[0]] + rest[0]] + rest[1..]
  }

  function NonBlank(parts: seq<string>): seq<string> {
    if parts == [] then []
    else
      var p := TrimSpace(parts[|parts| - 1]);
      NonBlank(parts[..|parts| - 1]) + if p != "" then [p] else []
  }

  /** Splitting loses nothing and leaves no separator inside a part. */
  lemma {:induction false} SplitJoins(s: string)
    ensures Join(Split(s), ";") == s
    ensures forall p :: p in Split(s) ==> ';' !in p
  {
    if s != "" {
      var rest := Split(s[1..]);
      SplitJoins(s[1..]);
      assert s == [s[0]] + s[1..];
      if s[0] == ';' {
        assert ([""] + rest)[1..] == rest;
        assert Join([""] + rest, ";") == "" + ";" + Join(rest, ";");
      } else {
        var parts := [[s[0]] + rest[0]] + rest[1..];
        assert parts[1..] == rest[1..];
        assert Join(parts, ";") == [s[0]] + Join(rest, ";");
      }
    }
  }

  method SplitSemicolonList(s: string) returns (out: seq<string>)
    ensures out == NonBlank(Split(s))
  {
    var parts := Split(s);
    out := [];
    for i := 0 to |parts|
      invariant out == NonBlank(parts[..i])
    {
      assert parts[..i + 1][..i] == parts[..i];
      var p := TrimSpace(parts[i]);
      if p != "" {
        out := out + [p];
      }
    }
    assert parts[..|parts|] == parts;
  }

  // ----- one row -----

  function FieldsOf(r: Reading, ward: int): Fields {
    Fields(ward, r.name, r.address, 0.0, 0.0, false, Draft, "", 2, OnRequest, TextOrNull(r.imageUrl),
           r.nameEn, r.phone, r.sourceUrl, r.notes)
  }

  function Fail(st: State, e: RowError): State {
    st.(tally := st.tally.(failed := st.tally.failed + 1, errors := st.tally.errors + [e]))
  }

  /** The first k menu items of a created store. */
  function AddItems(s: Setup, st: State, row: nat, name: string, storeId: nat, names: seq<string>): State {
    if names == [] then st
    else
      var k := |names| - 1;
      var before := AddItems(s, st, row, name, storeId, names[..k]);
      if s.faults.item(row, k) then
        before.(tally := before.tally.(errors := before.tally.errors + [RowError(row, name, ItemFailed)]))
      else
        before.(items := before.items + [StoreDb.MenuItem(storeId, names[k], k)],
                tally := before.tally.(menuItems := before.tally.menuItems + 1))
  }

  function Appended(st: State, f: Fields): State { st.(rows := Drafts.Append(st.rows, f)) }

  /** The store is inserted and counted, and its menu items follow. */
  function Stocked(s: Setup, st: State, row: nat, r: Reading, ward: int, names: seq<string>): State {
    var rows := Drafts.Append(st.rows, FieldsOf(r, ward));
    AddItems(s, State(rows, st.items, st.tally.(created := st.tally.created + 1)), row, r.name,
             rows[|rows| - 1].id, names)
  }

  function Create(s: Setup, st: State, row: nat, r: Reading, ward: int): State {
    match s.faults.create(row)
    case Lost => Fail(st, RowError(row, r.name, CreateFailed))
    case Committed => Fail(Appended(st, FieldsOf(r, ward)), RowError(row, r.name, CreateFailed))
    case Fine => Stocked(s, st, row, r, ward, NonBlank(Split(r.items)))
  }

  function ImportReading(s: Setup, st: State, row: nat, r: Reading): State {
    if r.name == "" then Fail(st, RowError(row, "", MissingName))
    else match WardOf(s, r.ward)
      case None => Fail(st, RowError(row, r.name, UnknownWard))
      case Some(ward) =>
        if s.faults.check(row) then Fail(st, RowError(row, r.name, CheckFailed))
        else if StoreDb.Taken(s.lower, st.rows, r.name, ward) then
          st.(tally := st.tally.(skipped := st.tally.skipped + 1))
        else Create(s, st, row, r, ward)
  }

  function ImportRow(s: Setup, cols: map<string, nat>, st: State, row: nat, rec: Record): State {
    match rec
    case Malformed => Fail(st, RowError(row, "", BadRow))
    case Record(cells) => ImportReading(s, st, row, Read(cols, cells))
  }

  /** Row numbers are 1-based; the header is not counted. */
  function ImportAll(s: Setup, cols: map<string, nat>, st: State, recs: seq<Record>): State {
    if recs == [] then st
    else ImportRow(s, cols, ImportAll(s, cols, st, recs[..|recs| - 1]), |recs|, recs[|recs| - 1])
  }

  // ----- the handler -----

  datatype Answer = NoHeader | MissingColumn(name: string) | WardsUnread | Imported(tally: Tally)

  function AnswerOf(lower: char -> char, wards: Option<seq<Ward>>, faults: Faults, cols: map<string, nat>,
                    rows: seq<Row>, items: seq<StoreDb.MenuItem>, recs: seq<Record>): (Answer, State) {
    var start := State(rows, items, ZERO);
    if "name" !in cols then (MissingColumn("name"), start)
    else if "ward" !in cols then (MissingColumn("ward"), start)
    else if wards == None then (WardsUnread, start)
    else
      var st := ImportAll(Setup(lower, WardIds(lower, wards.value), faults), cols, start, recs);
      (Imported(st.tally), st)
  }

  method CreateItems(s: Setup, db: StoreDb.StoreTable, tally0: Tally, row: nat, name: string, storeId: nat,
      names: seq<string>)
    returns (tally: Tally)
    modifies db`items
    ensures var st := AddItems(s, State(db.rows, old(db.items), tally0), row, name, storeId, names);
      st == State(db.rows, db.items, tally)
  {
    tally := tally0;
    for i := 0 to |names|
      invariant AddItems(s, State(db.rows, old(db.items), tally0), row, name, storeId, names[..i]) ==
        State(db.rows, db.items, tally)
    {
      assert names[..i + 1][..i] == names[..i];
      if s.faults.item(row, i) {
        tally := tally.(errors := tally.errors + [RowError(row, name, ItemFailed)]);
        continue;
      }
      db.CreateMenuItem(storeId, names[i], i);
      tally := tally.(menuItems := tally.menuItems + 1);
    }
    assert names[..|names|] == names;
  }

  method Stock(s: Setup, db: StoreDb.StoreTable, tally0: Tally, row: nat, r: Reading, ward: int, names: seq<string>)
    returns (tally: Tally)
    requires db.Valid()
    modifies db
    ensures db.Valid()
    ensures Stocked(s, State(old(db.rows), old(db.items), tally0), row, r, ward, names) ==
      State(db.rows, db.items, tally)
  {
    var storeId := db.CreateStoreFull(FieldsOf(r, ward));
    tally := tally0.(created := tally0.created + 1);
    tally := CreateItems(s, db, tally, row, r.name, storeId, names);
  }

  method CreateRow(s: Setup, db: StoreDb.StoreTable, tally0: Tally, row: nat, r: Reading, ward: int)
    returns (tally: Tally)
    requires db.Valid()
    modifies db
    ensures db.Valid()
    ensures Create(s, State(old(db.rows), old(db.items), tally0), row, r, ward) == State(db.rows, db.items, tally)
  {
    if s.faults.create(row) == Fine {
      var names := SplitSemicolonList(r.items);
      tally := Stock(s, db, tally0, row, r, ward, names);
      return;
    }
    if s.faults.create(row) == Committed {
      var _ := db.CreateStoreFull(FieldsOf(r, ward));
    }
    tally := tally0.(failed := tally0.failed + 1, errors := tally0.errors + [RowError(row, r.name, CreateFailed)]);
  }

  method CollectWards(lower: char -> char, wards: seq<Ward>) returns (ids: map<string, int>)
    ensures ids == WardIds(lower, wards)
  {
    ids := map[];
    for i := 0 to |wards|
      invariant ids == WardIds(lower, wards[..i])
    {
      assert wards[..i + 1][..i] == wards[..i];
      ids := ids[TrimSpace(wards[i].nameJa) := wards[i].id];
      ids := ids[Lower(lower, TrimSpace(wards[i].nameEn)) := wards[i].id];
    }
    assert wards[..|wards|] == wards;
  }

  /** The upload as far as the CSV reader gets with it: no header at all, or a header and
      the records up to the end of the file. `wards` is None when the ward list cannot be read. */
  method ImportStores(lower: char -> char, wards: Option<seq<Ward>>, faults: Faults,
                      header: Option<seq<string>>, recs: seq<Record>, db: StoreDb.StoreTable)
    returns (answer: Answer)
    requires db.Valid()
    modifies db
    ensures db.Valid()
    ensures header == None ==> answer == NoHeader && db.rows == old(db.rows) && db.items == old(db.items)
    ensures header.Some? ==>
      var (a, st) := AnswerOf(lower, wards, faults, Columns(lower, header.value), old(db.rows), old(db.items), recs);
      answer == a && db.rows == st.rows && db.items == st.items
  {
    if header == None {
      return NoHeader;
    }
    var cols: map<string, nat> := map[];
    for i := 0 to |header.value|
      invariant cols == Columns(lower, header.value[..i])
    {
      assert header.value[..i + 1][..i] == header.value[..i];
      cols := cols[Lower(lower, TrimSpace(header.value[i])) := i];
    }
    assert header.value[..|header.value|] == header.value;
    if "name" !in cols { return MissingColumn("name"); }
    if "ward" !in cols { return MissingColumn("ward"); }
    if wards == None { return WardsUnread; }
    var ids := CollectWards(lower, wards.value);
    var tally := ImportRecords(Setup(lower, ids, faults), cols, recs, db);
    answer := Imported(tally);
  }

  method ImportRecords(s: Setup, cols: map<string, nat>, recs: seq<Record>, db: StoreDb.StoreTable)
    returns (tally: Tally)
    requires db.Valid()
    modifies db
    ensures db.Valid()
    ensures ImportAll(s, cols, State(old(db.rows), old(db.items), ZERO), recs) == State(db.rows, db.items, tally)
  {
    tally := ZERO;
    var row := 0;
    while row < |recs|
      invariant row <= |recs|
      invariant db.Valid()
      invariant ImportAll(s, cols, State(old(db.rows), old(db.items), ZERO), recs[..row]) ==
        State(db.rows, db.items, tally)
    {
      assert recs[..row + 1][..row] == recs[..row];
      var rec := recs[row];
      row := row + 1;
      if rec.Malformed? {
        tally := tally.(failed := tally.failed + 1, errors := tally.errors + [RowError(row, "", BadRow)]);
        continue;
      }
      var r := Read(cols, rec.cells);
      if r.name == "" {
        tally := tally.(failed := tally.failed + 1, errors := tally.errors + [RowError(row, "", MissingName)]);
        continue;
      }
      var ward := WardOf(s, r.ward);
      if ward == None {
        tally := tally.(failed := tally.failed + 1, errors := tally.errors + [RowError(row, r.name, UnknownWard)]);
        continue;
      }
      if s.faults.check(row) {
        tally := tally.(failed := tally.failed + 1, errors := tally.errors + [RowError(row, r.name, CheckFailed)]);
        continue;
      }
      var existing := db.CountStoresByNameWard(s.lower, r.name, ward.value);
      if existing > 0 {
        tally := tally.(skipped := tally.skipped + 1);
        continue;
      }
      tally := CreateRow(s, db, tally, row, r, ward.value);
    }
    assert recs[..|recs|] == recs;
  }
}

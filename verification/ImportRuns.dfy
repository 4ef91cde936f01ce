/** What whole imports keep: the accounts balance, importing again changes nothing, imported
    rows stay distinct, and the order of the columns does not matter. */
module ImportRuns {
  import opened Text
  import opened Stores
  import opened Import
  import Drafts
  import StoreDb

  // ----- the accounts -----

  /** How many errors report a menu item rather than a row. */
  function ItemFailures(errors: seq<RowError>): nat {
    if errors == [] then 0
    else ItemFailures(errors[..|errors| - 1]) + if errors[|errors| - 1].reason == ItemFailed then 1 else 0
  }

  lemma OneMoreError(errors: seq<RowError>, e: RowError)
    ensures ItemFailures(errors + [e]) == ItemFailures(errors) + if e.reason == ItemFailed then 1 else 0
  {
    assert (errors + [e])[..|errors|] == errors;
  }

  /** st is what n records of an import can have made of a table with n0 rows and m0 items. */
  predicate Balanced(st: State, n: nat, n0: nat, m0: nat) {
    var t := st.tally;
    && t.created + t.skipped + t.failed == n
    && |t.errors| == t.failed + ItemFailures(t.errors)
    && |st.items| == m0 + t.menuItems
    && n0 + t.created <= |st.rows| <= n0 + t.created + t.failed
    && (forall i :: 0 <= i < |t.errors| ==> 1 <= t.errors[i].row <= n)
    && (forall i, j :: 0 <= i < j < |t.errors| ==> t.errors[i].row <= t.errors[j].row)
  }

  lemma FailBalances(st: State, made: State, e: RowError, n: nat, n0: nat, m0: nat)
    requires Balanced(st, n, n0, m0) && e.row == n + 1 && e.reason != ItemFailed
    requires made.tally == st.tally && made.items == st.items && |st.rows| <= |made.rows| <= |st.rows| + 1
    ensures Balanced(Fail(made, e), n + 1, n0, m0)
  {
    OneMoreError(st.tally.errors, e);
  }

  lemma {:induction false} ItemsBalance(s: Setup, st: State, row: nat, name: string, storeId: nat,
      names: seq<string>, n0: nat, m0: nat)
    requires Balanced(st, row, n0, m0) && row >= 1
    ensures Balanced(AddItems(s, st, row, name, storeId, names), row, n0, m0)
    ensures AddItems(s, st, row, name, storeId, names).rows == st.rows
  {
    if names != [] {
      var k := |names| - 1;
      var before := AddItems(s, st, row, name, storeId, names[..k]);
      ItemsBalance(s, st, row, name, storeId, names[..k], n0, m0);
      OneMoreError(before.tally.errors, RowError(row, name, ItemFailed));
    }
  }

  lemma OneMoreCreated(st: State, made: seq<Row>, n: nat, n0: nat, m0: nat)
    requires Balanced(st, n, n0, m0) && |made| == |st.rows| + 1
    ensures Balanced(State(made, st.items, st.tally.(created := st.tally.created + 1)), n + 1, n0, m0)
  {
  }

  lemma CreateFineBalances(s: Setup, st: State, r: Reading, ward: int, n: nat, n0: nat, m0: nat)
    requires Balanced(st, n, n0, m0) && s.faults.create(n + 1) == Fine
    ensures Balanced(Create(s, st, n + 1, r, ward), n + 1, n0, m0)
  {
    var made := Drafts.Append(st.rows, FieldsOf(r, ward));
    var counted := State(made, st.items, st.tally.(created := st.tally.created + 1));
    OneMoreCreated(st, made, n, n0, m0);
    ItemsBalance(s, counted, n + 1, r.name, made[|made| - 1].id, NonBlank(Split(r.items)), n0, m0);
  }

  lemma CreateBalances(s: Setup, st: State, r: Reading, ward: int, n: nat, n0: nat, m0: nat)
    requires Balanced(st, n, n0, m0)
    ensures Balanced(Create(s, st, n + 1, r, ward), n + 1, n0, m0)
  {
    var e := RowError(n + 1, r.name, CreateFailed);
    match s.faults.create(n + 1)
    case Lost => FailBalances(st, st, e, n, n0, m0);
    case Committed => FailBalances(st, Appended(st, FieldsOf(r, ward)), e, n, n0, m0);
    case Fine => CreateFineBalances(s, st, r, ward, n, n0, m0);
  }

  lemma ReadingBalances(s: Setup, st: State, r: Reading, n: nat, n0: nat, m0: nat)
    requires Balanced(st, n, n0, m0)
    ensures Balanced(ImportReading(s, st, n + 1, r), n + 1, n0, m0)
  {
    var ward := WardOf(s, r.ward);
    if r.name == "" {
      FailBalances(st, st, RowError(n + 1, "", MissingName), n, n0, m0);
    } else if ward == None {
      FailBalances(st, st, RowError(n + 1, r.name, UnknownWard), n, n0, m0);
    } else if s.faults.check(n + 1) {
      FailBalances(st, st, RowError(n + 1, r.name, CheckFailed), n, n0, m0);
    } else if !StoreDb.Taken(s.lower, st.rows, r.name, ward.value) {
      CreateBalances(s, st, r, ward.value, n, n0, m0);
      assert ImportReading(s, st, n + 1, r) == Create(s, st, n + 1, r, ward.value);
    }
  }

  lemma RowBalances(s: Setup, cols: map<string, nat>, st: State, rec: Record, n: nat, n0: nat, m0: nat)
    requires Balanced(st, n, n0, m0)
    ensures Balanced(ImportRow(s, cols, st, n + 1, rec), n + 1, n0, m0)
  {
    match rec
    case Malformed => FailBalances(st, st, RowError(n + 1, "", BadRow), n, n0, m0);
    case Record(cells) => ReadingBalances(s, st, Read(cols, cells), n, n0, m0);
  }

  /** However the database calls end: every record read is counted once, every error row is a
      failed row or a failed menu item, and errors come in row order. */
  lemma {:induction false} ImportAccounts(s: Setup, cols: map<string, nat>, rows: seq<Row>,
      items: seq<StoreDb.MenuItem>, recs: seq<Record>)
    ensures Balanced(ImportAll(s, cols, State(rows, items, ZERO), recs), |recs|, |rows|, |items|)
  {
    if recs != [] {
      var n := |recs| - 1;
      ImportAccounts(s, cols, rows, items, recs[..n]);
      RowBalances(s, cols, ImportAll(s, cols, State(rows, items, ZERO), recs[..n]), recs[n], n, |rows|, |items|);
    }
  }

  // ----- importing again -----

  ghost predicate CallsSucceed(f: Faults) {
    && (forall row :: !f.check(row))
    && (forall row :: f.create(row) == Fine)
    && (forall row, k :: !f.item(row, k))
  }

  /** Whatever name was taken in a ward by `rows` is still taken there by `more`. */
  ghost predicate Covers(lower: char -> char, rows: seq<Row>, more: seq<Row>) {
    forall i :: 0 <= i < |rows| ==>
      StoreDb.Taken(lower, more, rows[i].store.fields.name, rows[i].store.fields.ward)
  }

  lemma StillTaken(lower: char -> char, rows: seq<Row>, more: seq<Row>, name: string, ward: int)
    requires Covers(lower, rows, more) && StoreDb.Taken(lower, rows, name, ward)
    ensures StoreDb.Taken(lower, more, name, ward)
  {
    var i :| 0 <= i < |rows| && StoreDb.SameNameWard(lower, rows[i], name, ward);
    var f := rows[i].store.fields;
    var k :| 0 <= k < |more| && StoreDb.SameNameWard(lower, more[k], f.name, f.ward);
    assert StoreDb.SameNameWard(lower, more[k], name, ward);
  }

  lemma PrefixIsCovered(lower: char -> char, rows: seq<Row>, all: seq<Row>, more: seq<Row>)
    requires rows <= all && Covers(lower, all, more)
    ensures Covers(lower, rows, more)
  {
    assert forall i :: 0 <= i < |rows| ==> rows[i] == all[i];
  }

  lemma {:induction false} ItemsCalm(s: Setup, st: State, row: nat, name: string, storeId: nat, names: seq<string>)
    requires CallsSucceed(s.faults)
    ensures var r := AddItems(s, st, row, name, storeId, names);
      && r.rows == st.rows
      && r.tally == st.tally.(menuItems := st.tally.menuItems + |names|)
  {
    if names != [] {
      ItemsCalm(s, st, row, name, storeId, names[..|names| - 1]);
    }
  }

  lemma CreateCalm(s: Setup, st: State, row: nat, r: Reading, ward: int)
    requires CallsSucceed(s.faults)
    ensures var made := Create(s, st, row, r, ward);
      && made.rows == Drafts.Append(st.rows, FieldsOf(r, ward))
      && made.tally == st.tally.(created := st.tally.created + 1,
              menuItems := st.tally.menuItems + |NonBlank(Split(r.items))|)
    ensures StoreDb.Taken(s.lower, Create(s, st, row, r, ward).rows, r.name, ward)
  {
    var made := Appended(st, FieldsOf(r, ward));
    ItemsCalm(s, made.(tally := st.tally.(created := st.tally.created + 1)), row, r.name,
              made.rows[|made.rows| - 1].id, NonBlank(Split(r.items)));
    assert StoreDb.SameNameWard(s.lower, made.rows[|st.rows|], r.name, ward);
  }

  /** The tally of a second import beside that of the first. */
  function Again(t: Tally): Tally { Tally(0, t.created + t.skipped, t.failed, 0, t.errors) }

  /** A name taken in its ward is skipped. */
  lemma TakenIsSkipped(s: Setup, st: State, row: nat, r: Reading, ward: int)
    requires !s.faults.check(row) && r.name != "" && WardOf(s, r.ward) == Some(ward)
    requires StoreDb.Taken(s.lower, st.rows, r.name, ward)
    ensures ImportReading(s, st, row, r) == st.(tally := st.tally.(skipped := st.tally.skipped + 1))
  {
  }

  lemma CreatedAgain(s: Setup, t: Tally, made: State, menuItems: nat, again: State, row: nat, r: Reading, ward: int)
    requires !s.faults.check(row) && r.name != "" && WardOf(s, r.ward) == Some(ward)
    requires made.tally == t.(created := t.created + 1, menuItems := menuItems)
    requires StoreDb.Taken(s.lower, made.rows, r.name, ward)
    requires Covers(s.lower, made.rows, again.rows) && again.tally == Again(t)
    ensures ImportReading(s, again, row, r) == again.(tally := Again(made.tally))
  {
    StillTaken(s.lower, made.rows, again.rows, r.name, ward);
    TakenIsSkipped(s, again, row, r, ward);
  }

  lemma ReadingAgain(s: Setup, st: State, again: State, row: nat, r: Reading)
    requires CallsSucceed(s.faults)
    requires Covers(s.lower, ImportReading(s, st, row, r).rows, again.rows)
    requires again.tally == Again(st.tally)
    ensures ImportReading(s, again, row, r) == again.(tally := Again(ImportReading(s, st, row, r).tally))
  {
    var ward := WardOf(s, r.ward);
    if r.name == "" || ward == None {
    } else if StoreDb.Taken(s.lower, st.rows, r.name, ward.value) {
      TakenIsSkipped(s, st, row, r, ward.value);
      StillTaken(s.lower, st.rows, again.rows, r.name, ward.value);
      TakenIsSkipped(s, again, row, r, ward.value);
    } else {
      var made := Create(s, st, row, r, ward.value);
      assert ImportReading(s, st, row, r) == made;
      CreateCalm(s, st, row, r, ward.value);
      CreatedAgain(s, st.tally, made, made.tally.menuItems, again, row, r, ward.value);
    }
  }

  lemma RecordAgain(s: Setup, cols: map<string, nat>, st: State, again: State, row: nat, rec: Record)
    requires CallsSucceed(s.faults)
    requires Covers(s.lower, ImportRow(s, cols, st, row, rec).rows, again.rows)
    requires again.tally == Again(st.tally)
    ensures ImportRow(s, cols, again, row, rec) == again.(tally := Again(ImportRow(s, cols, st, row, rec).tally))
  {
    if rec.Record? {
      ReadingAgain(s, st, again, row, Read(cols, rec.cells));
    }
  }

  lemma {:induction false} ImportGrows(s: Setup, cols: map<string, nat>, st: State, recs: seq<Record>)
    ensures st.rows <= ImportAll(s, cols, st, recs).rows
  {
    if recs != [] {
      ImportGrows(s, cols, st, recs[..|recs| - 1]);
      RowsGrow(s, cols, ImportAll(s, cols, st, recs[..|recs| - 1]), |recs|, recs[|recs| - 1]);
    }
  }

  /** When the database calls succeed, importing the records again adds no row and no item:
      what was created or skipped is skipped, and what failed fails with the same errors. The
      tables are those the first import left, `one`, or any changed since in which every name
      is still taken in its ward. */
  lemma {:induction false} ReimportAddsNothing(s: Setup, cols: map<string, nat>, st: State, recs: seq<Record>,
      one: State, again: State)
    requires CallsSucceed(s.faults)
    requires one == ImportAll(s, cols, st, recs) && again.tally == Again(st.tally)
    requires Covers(s.lower, one.rows, again.rows)
    ensures ImportAll(s, cols, again, recs) == again.(tally := Again(one.tally))
  {
    if recs != [] {
      var n := |recs| - 1;
      var before := ImportAll(s, cols, st, recs[..n]);
      RowsGrow(s, cols, before, n + 1, recs[n]);
      PrefixIsCovered(s.lower, before.rows, one.rows, again.rows);
      ReimportAddsNothing(s, cols, st, recs[..n], before, again);
      RecordAgain(s, cols, before, again.(tally := Again(before.tally)), n + 1, recs[n]);
    }
  }

  // ----- what an import reads and stores -----

  /** Part k of the list is stored, in its place, unless its own insert fails. */
  predicate ItemOf(s: Setup, row: nat, storeId: nat, names: seq<string>, m: StoreDb.MenuItem) {
    && m.storeId == storeId && m.sortOrder < |names| && m.name == names[m.sortOrder]
    && !s.faults.item(row, m.sortOrder)
  }

  lemma {:induction false} ItemsAreTheParts(s: Setup, st: State, row: nat, name: string, storeId: nat,
      names: seq<string>)
    ensures var items := AddItems(s, st, row, name, storeId, names).items;
      && st.items <= items
      && var added := items[|st.items|..];
         && (forall i :: 0 <= i < |added| ==> ItemOf(s, row, storeId, names, added[i]))
         && (forall i, j :: 0 <= i < j < |added| ==> added[i].sortOrder < added[j].sortOrder)
         && (forall k :: 0 <= k < |names| && !s.faults.item(row, k) ==> StoreDb.MenuItem(storeId, names[k], k) in added)
  {
    if names != [] {
      var k := |names| - 1;
      ItemsAreTheParts(s, st, row, name, storeId, names[..k]);
      var before := AddItems(s, st, row, name, storeId, names[..k]).items;
      var after := AddItems(s, st, row, name, storeId, names).items;
      var was, now := before[|st.items|..], after[|st.items|..];
      if !s.faults.item(row, k) {
        assert now == was + [StoreDb.MenuItem(storeId, names[k], k)];
      }
      forall i | 0 <= i < |was|
        ensures ItemOf(s, row, storeId, names, was[i]) && was[i].sortOrder < k
      {
        assert ItemOf(s, row, storeId, names[..k], was[i]);
      }
    }
  }

  /** The keys a ward is known by. */
  predicate KnownBy(lower: char -> char, w: Ward, key: string) {
    key == TrimSpace(w.nameJa) || key == Lower(lower, TrimSpace(w.nameEn))
  }

  ghost predicate Unambiguous(lower: char -> char, wards: seq<Ward>) {
    forall i, j, key ::
      && 0 <= i < |wards| && 0 <= j < |wards|
      && KnownBy(lower, wards[i], key) && KnownBy(lower, wards[j], key)
      ==> wards[i].id == wards[j].id
  }

  lemma LastWardOverrides(lower: char -> char, wards: seq<Ward>, key: string)
    requires wards != []
    ensures var ids, before, last := WardIds(lower, wards), WardIds(lower, wards[..|wards| - 1]), wards[|wards| - 1];
      && (KnownBy(lower, last, key) ==> key in ids && ids[key] == last.id)
      && (!KnownBy(lower, last, key) ==> (key in ids <==> key in before) && (key in ids ==> ids[key] == before[key]))
  {
  }

  predicate IdOf(lower: char -> char, wards: seq<Ward>, i: nat, key: string, id: int) {
    i < |wards| && KnownBy(lower, wards[i], key) && wards[i].id == id
  }

  lemma {:induction false} WardKeys(lower: char -> char, wards: seq<Ward>, key: string)
    ensures var ids := WardIds(lower, wards);
      && (key in ids ==> exists i: nat :: IdOf(lower, wards, i, key, ids[key]))
      && (key !in ids ==> forall i :: 0 <= i < |wards| ==> !KnownBy(lower, wards[i], key))
  {
    if wards != [] {
      var n := |wards| - 1;
      LastWardOverrides(lower, wards, key);
      WardKeys(lower, wards[..n], key);
      if !KnownBy(lower, wards[n], key) && key in WardIds(lower, wards) {
        var i: nat :| IdOf(lower, wards[..n], i, key, WardIds(lower, wards[..n])[key]);
        assert IdOf(lower, wards, i, key, WardIds(lower, wards)[key]);
      } else if KnownBy(lower, wards[n], key) {
        assert IdOf(lower, wards, n, key, WardIds(lower, wards)[key]);
      }
    }
  }

  /** A ward is found by its Japanese name, and by its English one in any letter case. */
  lemma WardByEitherName(lower: char -> char, wards: seq<Ward>, faults: Faults, i: nat, name: string)
    requires Unambiguous(lower, wards) && i < |wards|
    requires || name == TrimSpace(wards[i].nameJa)
             || (Lower(lower, name) == Lower(lower, TrimSpace(wards[i].nameEn))
                && forall j :: 0 <= j < |wards| && KnownBy(lower, wards[j], name) ==>
                  KnownBy(lower, wards[i], name))
    ensures WardOf(Setup(lower, WardIds(lower, wards), faults), name) == Some(wards[i].id)
  {
    WardKeys(lower, wards, name);
    WardKeys(lower, wards, Lower(lower, name));
    assert name == TrimSpace(wards[i].nameJa) ==> KnownBy(lower, wards[i], name);
    assert name != TrimSpace(wards[i].nameJa) ==> KnownBy(lower, wards[i], Lower(lower, name));
  }

  // ----- imported rows are distinct -----

  lemma {:induction false} ItemsKeepRows(s: Setup, st: State, row: nat, name: string, storeId: nat, names: seq<string>)
    ensures AddItems(s, st, row, name, storeId, names).rows == st.rows
  {
    if names != [] {
      ItemsKeepRows(s, st, row, name, storeId, names[..|names| - 1]);
    }
  }

  lemma CreateRows(s: Setup, st: State, row: nat, r: Reading, ward: int)
    ensures var rows := Create(s, st, row, r, ward).rows;
      rows == if s.faults.create(row) == Lost then st.rows else Drafts.Append(st.rows, FieldsOf(r, ward))
  {
    var made := Appended(st, FieldsOf(r, ward));
    ItemsKeepRows(s, made.(tally := st.tally.(created := st.tally.created + 1)), row, r.name,
                  made.rows[|made.rows| - 1].id, NonBlank(Split(r.items)));
  }

  /** An unreviewed store as an import may create it. */
  predicate FreshDraft(lower: char -> char, rows: seq<Row>, f: Fields) {
    && f.status == Draft && f.gfStatus == OnRequest && !f.gfOriented && f.latitude == f.longitude == 0.0
    && f.name != "" && !StoreDb.Taken(lower, rows, f.name, f.ward)
  }

  /** The store's columns are the record's trimmed cells under the headers of those names. */
  predicate FromCells(s: Setup, cols: map<string, nat>, rec: Record, f: Fields) {
    && rec.Record?
    && f.name == Cell(cols, rec.cells, "name") && Some(f.ward) == WardOf(s, Cell(cols, rec.cells, "ward"))
    && f.address == Cell(cols, rec.cells, "address") && f.nameEn == Cell(cols, rec.cells, "name_en")
    && f.phone == Cell(cols, rec.cells, "phone") && f.sourceUrl == Cell(cols, rec.cells, "source_url")
    && f.notes == Cell(cols, rec.cells, "notes") && f.photoUrl == TextOrNull(Cell(cols, rec.cells, "image_url"))
  }

  /** A record adds at most one row: a draft without coordinates, its name new in its ward. */
  lemma RowGrows(s: Setup, cols: map<string, nat>, st: State, row: nat, rec: Record)
    ensures var rows := ImportRow(s, cols, st, row, rec).rows;
      || rows == st.rows
      || exists f :: FreshDraft(s.lower, st.rows, f) && FromCells(s, cols, rec, f) && rows == Drafts.Append(st.rows, f)
  {
    if rec.Record? {
      var r := Read(cols, rec.cells);
      var ward := WardOf(s, r.ward);
      if r.name != "" && ward.Some? && !StoreDb.Taken(s.lower, st.rows, r.name, ward.value) {
        CreateRows(s, st, row, r, ward.value);
        assert FreshDraft(s.lower, st.rows, FieldsOf(r, ward.value)) &&
          FromCells(s, cols, rec, FieldsOf(r, ward.value));
      }
    }
  }

  lemma RowsGrow(s: Setup, cols: map<string, nat>, st: State, row: nat, rec: Record)
    ensures st.rows <= ImportRow(s, cols, st, row, rec).rows
  {
    RowGrows(s, cols, st, row, rec);
  }

  /** Imports row by row, with other writers inserting, deleting and editing rows between. */
  datatype Turn =
    | Import(s: Setup, cols: map<string, nat>, row: nat, rec: Record)
    | Insert(f: Fields)
    | Delete(p: nat)
    | Edit(p: nat, store: Store)

  /** What became of a row: whether an import created it, and whether an edit has since
      changed its lower-cased name or its ward. */
  datatype Mark = Mark(imported: bool, renamed: bool)

  datatype Course = Course(st: State, marks: seq<Mark>)

  predicate Possible(c: Course, t: Turn) {
    (t.Delete? ==> t.p < |c.st.rows|) && (t.Edit? ==> t.p < |c.st.rows|)
  }

  predicate KeepsName(lower: char -> char, a: Fields, b: Fields) {
    Lower(lower, a.name) == Lower(lower, b.name) && a.ward == b.ward
  }

  function TurnOn(lower: char -> char, c: Course, t: Turn): Course
    requires |c.marks| == |c.st.rows| && Possible(c, t)
  {
    match t
    case Import(s, cols, row, rec) =>
      var st := ImportRow(s, cols, c.st, row, rec);
      Course(st, if |st.rows| > |c.st.rows| then c.marks + [Mark(true, false)] else c.marks)
    case Insert(f) => Course(Appended(c.st, f), c.marks + [Mark(false, false)])
    case Delete(p) =>
      Course(c.st.(rows := c.st.rows[..p] + c.st.rows[p + 1..]), c.marks[..p] + c.marks[p + 1..])
    case Edit(p, store) =>
      var renamed := c.marks[p].renamed || !KeepsName(lower, c.st.rows[p].store.fields, store.fields);
      Course(c.st.(rows := c.st.rows[p := Row(c.st.rows[p].id, store)]), c.marks[p := c.marks[p].(renamed := renamed)])
  }

  lemma MarksMatch(lower: char -> char, c: Course, t: Turn)
    requires |c.marks| == |c.st.rows| && Possible(c, t)
    ensures |TurnOn(lower, c, t).marks| == |TurnOn(lower, c, t).st.rows|
  {
    if t.Import? { RowGrows(t.s, t.cols, c.st, t.row, t.rec); }
  }

  /** ts leads from c to d. */
  ghost predicate Turns(lower: char -> char, c: Course, ts: seq<Turn>, d: Course)
    requires |c.marks| == |c.st.rows|
    decreases |ts|
  {
    if ts == [] then d == c
    else
      Possible(c, ts[0]) &&
      (MarksMatch(lower, c, ts[0]); Turns(lower, TurnOn(lower, c, ts[0]), ts[1..], d))
  }

  predicate ApartFrom(lower: char -> char, rows: seq<Row>, i: int, j: int)
    requires 0 <= i < |rows| && 0 <= j < |rows|
  {
    !StoreDb.SameNameWard(lower, rows[i], rows[j].store.fields.name, rows[j].store.fields.ward)
  }

  /** An imported row differs, in lower-cased name or in ward, from every row before it, as
      long as neither was renamed; so no two rows created by imports share both. */
  predicate Apart(lower: char -> char, c: Course) {
    && |c.marks| == |c.st.rows|
    && forall i, j :: 0 <= i < j < |c.marks| && !c.marks[i].renamed && !c.marks[j].renamed && c.marks[j].imported ==>
         ApartFrom(lower, c.st.rows, i, j)
  }

  lemma InsertKeepsApart(lower: char -> char, rows: seq<Row>, marks: seq<Mark>, st: State, f: Fields, m: Mark)
    requires Apart(lower, Course(st, marks)) && rows == Drafts.Append(st.rows, f)
    requires m.imported ==> !StoreDb.Taken(lower, st.rows, f.name, f.ward)
    ensures Apart(lower, Course(st.(rows := rows), marks + [m]))
  {
    forall i, j | 0 <= i < j < |marks + [m]| &&
      !(marks + [m])[i].renamed && !(marks + [m])[j].renamed && (marks + [m])[j].imported
      ensures ApartFrom(lower, rows, i, j)
    {
      assert rows[i] == st.rows[i];
      if j < |marks| {
        assert marks[j] == (marks + [m])[j] && ApartFrom(lower, st.rows, i, j);
      } else {
        assert rows[j].store.fields == f;
      }
    }
  }

  lemma DeleteKeepsApart(lower: char -> char, c: Course, p: nat)
    requires Apart(lower, c) && p < |c.st.rows|
    ensures Apart(lower, TurnOn(lower, c, Delete(p)))
  {
    var d := TurnOn(lower, c, Delete(p));
    forall i, j | 0 <= i < j < |d.marks| && !d.marks[i].renamed && !d.marks[j].renamed && d.marks[j].imported
      ensures ApartFrom(lower, d.st.rows, i, j)
    {
      var i', j' := if i < p then i else i + 1, if j < p then j else j + 1;
      assert d.marks[i] == c.marks[i'] && d.marks[j] == c.marks[j'];
      assert ApartFrom(lower, c.st.rows, i', j');
    }
  }

  lemma EditKeepsApart(lower: char -> char, c: Course, p: nat, store: Store)
    requires Apart(lower, c) && p < |c.st.rows|
    ensures Apart(lower, TurnOn(lower, c, Edit(p, store)))
  {
    var d := TurnOn(lower, c, Edit(p, store));
    forall i, j | 0 <= i < j < |d.marks| && !d.marks[i].renamed && !d.marks[j].renamed && d.marks[j].imported
      ensures ApartFrom(lower, d.st.rows, i, j)
    {
      assert !c.marks[i].renamed && !c.marks[j].renamed && c.marks[j].imported;
      assert ApartFrom(lower, c.st.rows, i, j);
      assert KeepsName(lower, c.st.rows[i].store.fields, d.st.rows[i].store.fields);
      assert KeepsName(lower, c.st.rows[j].store.fields, d.st.rows[j].store.fields);
    }
  }

  lemma TurnKeepsApart(lower: char -> char, c: Course, t: Turn)
    requires Apart(lower, c) && Possible(c, t) && (t.Import? ==> t.s.lower == lower)
    ensures Apart(lower, TurnOn(lower, c, t))
  {
    match t
    case Insert(f) => InsertKeepsApart(lower, Drafts.Append(c.st.rows, f), c.marks, c.st, f, Mark(false, false));
    case Delete(p) => DeleteKeepsApart(lower, c, p);
    case Edit(p, store) => EditKeepsApart(lower, c, p, store);
    case Import(s, cols, row, rec) =>
      RowGrows(s, cols, c.st, row, rec);
      var rows := ImportRow(s, cols, c.st, row, rec).rows;
      if rows != c.st.rows {
        var f :| FreshDraft(s.lower, c.st.rows, f) && FromCells(s, cols, rec, f) && rows == Drafts.Append(c.st.rows, f);
        InsertKeepsApart(lower, rows, c.marks, c.st, f, Mark(true, false));
      }
  }

  function Unmarked(rows: seq<Row>): seq<Mark> { seq(|rows|, i => Mark(false, false)) }

  lemma {:induction false} TurnsKeepApart(lower: char -> char, c: Course, ts: seq<Turn>, d: Course)
    requires Apart(lower, c) && Turns(lower, c, ts, d)
    requires forall t :: t in ts && t.Import? ==> t.s.lower == lower
    ensures Apart(lower, d)
    decreases |ts|
  {
    if ts != [] {
      TurnKeepsApart(lower, c, ts[0]);
      TurnsKeepApart(lower, TurnOn(lower, c, ts[0]), ts[1..], d);
    }
  }

  /** Over any number of imports, whatever other writers insert, delete and edit meanwhile:
      an imported row differs, in lower-cased name or in ward, from every row created before
      it, unless an edit has renamed or moved one of the two. */
  lemma ImportedRowsAreDistinct(lower: char -> char, st: State, ts: seq<Turn>, d: Course)
    requires Turns(lower, Course(st, Unmarked(st.rows)), ts, d)
    requires forall t :: t in ts && t.Import? ==> t.s.lower == lower
    ensures Apart(lower, d)
  {
    TurnsKeepApart(lower, Course(st, Unmarked(st.rows)), ts, d);
  }

  /** An import with nobody else writing is such a run. */
  function TurnsOf(s: Setup, cols: map<string, nat>, recs: seq<Record>, from: nat): seq<Turn> {
    seq(|recs|, i requires 0 <= i < |recs| => Turn.Import(s, cols, from + i + 1, recs[i]))
  }

  function Imports(s: Setup, cols: map<string, nat>, st: State, recs: seq<Record>, from: nat): State
    decreases |recs|
  {
    if recs == [] then st else Imports(s, cols, ImportRow(s, cols, st, from + 1, recs[0]), recs[1..], from + 1)
  }

  lemma {:induction false} ImportsAreTurns(s: Setup, cols: map<string, nat>, c: Course, recs: seq<Record>, from: nat)
    returns (d: Course)
    requires |c.marks| == |c.st.rows|
    ensures Turns(s.lower, c, TurnsOf(s, cols, recs, from), d) && d.st == Imports(s, cols, c.st, recs, from)
    decreases |recs|
  {
    d := c;
    if recs != [] {
      var ts := TurnsOf(s, cols, recs, from);
      MarksMatch(s.lower, c, ts[0]);
      d := ImportsAreTurns(s, cols, TurnOn(s.lower, c, ts[0]), recs[1..], from + 1);
      assert ts[1..] == TurnsOf(s, cols, recs[1..], from + 1);
    }
  }

  lemma {:induction false} ImportsFromTheEnd(s: Setup, cols: map<string, nat>, st: State, recs: seq<Record>, from: nat)
    requires recs != []
    ensures Imports(s, cols, st, recs, from) ==
      ImportRow(s, cols, Imports(s, cols, st, recs[..|recs| - 1], from), from + |recs|, recs[|recs| - 1])
    decreases |recs|
  {
    if |recs| > 1 {
      ImportsFromTheEnd(s, cols, ImportRow(s, cols, st, from + 1, recs[0]), recs[1..], from + 1);
      assert recs[1..][..|recs| - 2] == recs[..|recs| - 1][1..];
    }
  }

  lemma {:induction false} ImportsAreImportAll(s: Setup, cols: map<string, nat>, st: State, recs: seq<Record>)
    ensures Imports(s, cols, st, recs, 0) == ImportAll(s, cols, st, recs)
  {
    if recs != [] {
      ImportsFromTheEnd(s, cols, st, recs, 0);
      ImportsAreImportAll(s, cols, st, recs[..|recs| - 1]);
    }
  }

  lemma ImportIsARun(s: Setup, cols: map<string, nat>, c: Course, recs: seq<Record>) returns (d: Course)
    requires |c.marks| == |c.st.rows|
    ensures Turns(s.lower, c, TurnsOf(s, cols, recs, 0), d) && d.st == ImportAll(s, cols, c.st, recs)
  {
    d := ImportsAreTurns(s, cols, c, recs, 0);
    ImportsAreImportAll(s, cols, c.st, recs);
  }

  // ----- column order -----

  /** No column that the import reads is there twice. */
  predicate KnownOnce(lower: char -> char, header: seq<string>) {
    forall i, j :: 0 <= i < j < |header| && Normal(lower, header[i]) == Normal(lower, header[j]) ==>
      Normal(lower, header[i]) !in KNOWN
  }

  predicate LastNamed(lower: char -> char, header: seq<string>, name: string, k: nat) {
    && k < |header| && Normal(lower, header[k]) == name
    && forall j :: k < j < |header| ==> Normal(lower, header[j]) != name
  }

  lemma {:induction false} LastColumnWins(lower: char -> char, header: seq<string>, name: string)
    ensures var cols := Columns(lower, header);
      && (name in cols ==> LastNamed(lower, header, name, cols[name]))
      && (name !in cols ==> forall k :: 0 <= k < |header| ==> Normal(lower, header[k]) != name)
  {
    if header != [] {
      var n := |header| - 1;
      LastColumnWins(lower, header[..n], name);
      if Normal(lower, header[n]) != name && name in Columns(lower, header) {
        assert LastNamed(lower, header[..n], name, Columns(lower, header)[name]);
      }
    }
  }

  /** Column i of one sheet is column place[i] of the other; any further column of the
      other sheet is one the import does not know. */
  predicate Rearranged(lower: char -> char, header: seq<string>, other: seq<string>, place: seq<nat>) {
    && |place| == |header|
    && (forall i :: 0 <= i < |header| ==> place[i] < |other| && other[place[i]] == header[i])
    && (forall k :: 0 <= k < |other| && k !in place ==> Normal(lower, other[k]) !in KNOWN)
  }

  predicate SameRecord(rec: Record, moved: Record, place: seq<nat>, width: nat) {
    match rec
    case Malformed => moved.Malformed?
    case Record(cells) =>
      && moved.Record?
      && |cells| == |place| && |moved.cells| == width
      && forall i :: 0 <= i < |place| ==> place[i] < width && moved.cells[place[i]] == cells[i]
  }

  lemma SameCell(lower: char -> char, header: seq<string>, other: seq<string>, place: seq<nat>, name: string,
      rec: Record, moved: Record)
    requires KnownOnce(lower, other) && Rearranged(lower, header, other, place)
    requires name in KNOWN
    requires SameRecord(rec, moved, place, |other|)
    ensures name in Columns(lower, header) <==> name in Columns(lower, other)
    ensures rec.Record? ==>
      Cell(Columns(lower, header), rec.cells, name) == Cell(Columns(lower, other), moved.cells, name)
  {
    LastColumnWins(lower, header, name);
    LastColumnWins(lower, other, name);
    if name in Columns(lower, header) {
      var i := Columns(lower, header)[name];
      assert Normal(lower, other[place[i]]) == name;
      assert name in Columns(lower, other);
      var k := Columns(lower, other)[name];
      assert k == place[i];
    }
  }

  lemma SameReading(lower: char -> char, header: seq<string>, other: seq<string>, place: seq<nat>, rec: Record,
      moved: Record)
    requires KnownOnce(lower, other) && Rearranged(lower, header, other, place)
    requires SameRecord(rec, moved, place, |other|) && rec.Record?
    ensures Read(Columns(lower, header), rec.cells) == Read(Columns(lower, other), moved.cells)
  {
    var cols, cols' := Columns(lower, header), Columns(lower, other);
    forall name | name in KNOWN
      ensures Cell(cols, rec.cells, name) == Cell(cols', moved.cells, name)
    {
      SameCell(lower, header, other, place, name, rec, moved);
    }
    assert KNOWN[0] == "name" && KNOWN[1] == "name_en" && KNOWN[2] == "ward" && KNOWN[3] == "address"
      && KNOWN[4] == "gluten_free_items" && KNOWN[5] == "phone" && KNOWN[6] == "source_url"
      && KNOWN[7] == "image_url" && KNOWN[8] == "notes";
  }

  lemma {:induction false} SameImport(s: Setup, header: seq<string>, other: seq<string>, place: seq<nat>,
      recs: seq<Record>, moved: seq<Record>, st: State)
    requires KnownOnce(s.lower, other) && Rearranged(s.lower, header, other, place)
    requires |recs| == |moved|
    requires forall k :: 0 <= k < |recs| ==> SameRecord(recs[k], moved[k], place, |other|)
    ensures ImportAll(s, Columns(s.lower, header), st, recs) == ImportAll(s, Columns(s.lower, other), st, moved)
  {
    if recs != [] {
      var n := |recs| - 1;
      SameImport(s, header, other, place, recs[..n], moved[..n], st);
      if recs[n].Record? {
        SameReading(s.lower, header, other, place, recs[n], moved[n]);
      }
    }
  }

  /** Rearranging the columns of a sheet of full-length rows, or adding columns with names
      the import does not know, changes neither the answer nor the tables. */
  lemma ColumnOrderDoesNotMatter(lower: char -> char, wards: Option<seq<Ward>>, faults: Faults,
      header: seq<string>, other: seq<string>, place: seq<nat>,
      recs: seq<Record>, moved: seq<Record>, rows: seq<Row>, items: seq<StoreDb.MenuItem>)
    requires KnownOnce(lower, other) && Rearranged(lower, header, other, place)
    requires |recs| == |moved|
    requires forall k :: 0 <= k < |recs| ==> SameRecord(recs[k], moved[k], place, |other|)
    ensures AnswerOf(lower, wards, faults, Columns(lower, header), rows, items, recs)
         == AnswerOf(lower, wards, faults, Columns(lower, other), rows, items, moved)
  {
    assert KNOWN[0] == "name" && KNOWN[2] == "ward";
    forall name | name in KNOWN
      ensures name in Columns(lower, header) <==> name in Columns(lower, other)
    {
      var blank := Malformed;
      SameCell(lower, header, other, place, name, blank, blank);
    }
    if wards.Some? {
      SameImport(Setup(lower, WardIds(lower, wards.value), faults), header, other, place,
        recs, moved, State(rows, items, ZERO));
    }
  }

  /** With a known column there twice the order does matter: the last one is read. */
  lemma RepeatedColumnFollowsTheOrder(lower: char -> char, a: string, b: string)
    requires Normal(lower, "name") == "name"
    ensures Cell(Columns(lower, ["name", "name"]), [a, b], "name") == TrimSpace(b)
    ensures TrimSpace(a) != TrimSpace(b) ==>
      Cell(Columns(lower, ["name", "name"]), [a, b], "name") != Cell(Columns(lower, ["name", "name"]), [b, a], "name")
  {
    LastColumnWins(lower, ["name", "name"], "name");
  }
}

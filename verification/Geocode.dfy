/** The coordinate backfill: one run over the queue of stores without coordinates. */
module Geocode {
  import opened Text
  import opened Stores
  import opened Lifecycle
  import StoreDb

  const DEFAULT_LIMIT: nat := 100
  const MAX_LIMIT: nat := 500

  /** The ?limit= parameter: left out, not a number, or a number. */
  datatype LimitParam = Absent | NotANumber | Number(n: int)

  /** What the geocoder answers for an address. */
  datatype Found = NoMatch | Broken | Match(latitude: real, longitude: real, precise: bool)

  datatype Reason = NoSuchAddress | GeocoderError | Vague | SaveFailed

  datatype RowError = RowError(name: string, address: string, reason: Reason)

  datatype Result = Result(
    geocoded: nat, notFound: nat, tooVague: nat, failed: nat, remaining: nat, errors: seq<RowError>)

  /** How the calls of the k-th store of the run end, and when its update happens. */
  datatype World = World(answer: (nat, string) -> Found, save: nat -> Fault, clock: nat -> int)

  datatype State = State(rows: seq<Row>, result: Result)

  datatype Answer = BadLimit | QueueUnread | Done(result: Result)

  function LimitOf(p: LimitParam): Option<nat> {
    match p
    case Absent => Some(DEFAULT_LIMIT)
    case NotANumber => None
    case Number(n) => if n <= 0 then None else if n > MAX_LIMIT then Some(MAX_LIMIT) else Some(n)
  }

  function FoundFor(w: World, queue: seq<Row>, k: nat): Found
    requires k < |queue|
  {
    w.answer(k, queue[k].store.fields.address)
  }

  function SetAt(w: World, queue: seq<Row>, k: nat): Event
    requires k < |queue| && FoundFor(w, queue, k).Match?
  {
    Event(SetCoords(FoundFor(w, queue, k).latitude, FoundFor(w, queue, k).longitude), w.clock(k))
  }

  /** Store k is matched precisely and the update goes through, reported or not. */
  predicate Saved(w: World, queue: seq<Row>, k: nat)
    requires k < |queue|
  {
    FoundFor(w, queue, k).Match? && FoundFor(w, queue, k).precise && w.save(k) != Lost
  }

  function Note(res: Result, r: Row, reason: Reason): Result {
    res.(errors := res.errors + [RowError(r.store.fields.name, r.store.fields.address, reason)])
  }

  /** Why store k was not geocoded, if it was not. */
  function Trouble(w: World, queue: seq<Row>, k: nat): Option<Reason>
    requires k < |queue|
  {
    match FoundFor(w, queue, k)
    case NoMatch => Some(NoSuchAddress)
    case Broken => Some(GeocoderError)
    case Match(_, _, precise) => if !precise then Some(Vague) else if w.save(k) != Fine then Some(SaveFailed) else None
  }

  function Count(w: World, queue: seq<Row>, k: nat, res: Result): Result
    requires k < |queue|
  {
    match Trouble(w, queue, k)
    case None => res.(geocoded := res.geocoded + 1)
    case Some(reason) =>
      Note(match reason
           case NoSuchAddress => res.(notFound := res.notFound + 1)
           case Vague => res.(tooVague := res.tooVague + 1)
           case GeocoderError => res.(failed := res.failed + 1)
           case SaveFailed => res.(failed := res.failed + 1), queue[k], reason)
  }

  /** The first n stores of the queue. */
  function Pass(w: World, queue: seq<Row>, st: State, n: nat): State
    requires n <= |queue|
  {
    if n == 0 then st
    else
      var before := Pass(w, queue, st, n - 1);
      State(if Saved(w, queue, n - 1) then StoreDb.Updated(before.rows, queue[n - 1].id, SetAt(w, queue, n - 1))
                  else before.rows,
            Count(w, queue, n - 1, before.result))
  }

  function Start(remaining: nat): Result { Result(0, 0, 0, 0, remaining, []) }

  /** The stores one run handles: the first `limit` of the queue. */
  function Batch(rows: seq<Row>, limit: nat): seq<Row> {
    var q := StoreDb.MissingCoords(rows);
    if |q| > limit then q[..limit] else q
  }

  function Run(w: World, rows: seq<Row>, limit: nat): State {
    var q := StoreDb.MissingCoords(rows);
    var batch := Batch(rows, limit);
    Pass(w, batch, State(rows, Start(if |q| > limit then 1 else 0)), |batch|)
  }

  method GeocodeStores(w: World, p: LimitParam, queueReadable: bool, db: StoreDb.StoreTable) returns (answer: Answer)
    requires db.Valid()
    modifies db`rows, db`past
    ensures db.Valid()
    ensures LimitOf(p) == None ==> answer == BadLimit && db.rows == old(db.rows)
    ensures LimitOf(p).Some? && !queueReadable ==> answer == QueueUnread && db.rows == old(db.rows)
    ensures LimitOf(p).Some? && queueReadable ==>
      var st := Run(w, old(db.rows), LimitOf(p).value);
      answer == Done(st.result) && db.rows == st.rows
  {
    var limit := DEFAULT_LIMIT;
    if !p.Absent? {
      if p.NotANumber? || p.n <= 0 {
        return BadLimit;
      }
      limit := if p.n > MAX_LIMIT then MAX_LIMIT else p.n;
    }
    if !queueReadable {
      return QueueUnread;
    }
    var stores := db.ListStoresMissingCoords(limit + 1);
    var remaining := 0;
    if |stores| > limit {
      remaining := |stores| - limit;
      stores := stores[..limit];
    }
    assert stores == Batch(db.rows, limit);
    var res := PlaceAll(w, stores, Start(remaining), db);
    answer := Done(res);
  }

  method PlaceAll(w: World, stores: seq<Row>, first: Result, db: StoreDb.StoreTable) returns (res: Result)
    requires db.Valid()
    modifies db`rows, db`past
    ensures db.Valid()
    ensures Pass(w, stores, State(old(db.rows), first), |stores|) == State(db.rows, res)
  {
    res := first;
    for k := 0 to |stores|
      invariant db.Valid()
      invariant Pass(w, stores, State(old(db.rows), first), k) == State(db.rows, res)
    {
      var s := stores[k].store.fields;
      var found := w.answer(k, s.address);
      if found.NoMatch? {
        res := res.(notFound := res.notFound + 1, errors := res.errors + [RowError(s.name, s.address, NoSuchAddress)]);
        continue;
      }
      if found.Broken? {
        res := res.(failed := res.failed + 1, errors := res.errors + [RowError(s.name, s.address, GeocoderError)]);
        continue;
      }
      if !found.precise {
        res := res.(tooVague := res.tooVague + 1, errors := res.errors + [RowError(s.name, s.address, Vague)]);
        continue;
      }
      if w.save(k) != Lost {
        var _ := db.UpdateStoreCoords(stores[k].id, found.latitude, found.longitude, w.clock(k));
      }
      if w.save(k) != Fine {
        res := res.(failed := res.failed + 1, errors := res.errors + [RowError(s.name, s.address, SaveFailed)]);
        continue;
      }
      res := res.(geocoded := res.geocoded + 1);
    }
  }

  // ----- the accounts -----

  lemma {:induction false} PassCounts(w: World, queue: seq<Row>, st: State, n: nat)
    requires n <= |queue| && st.result == Start(st.result.remaining)
    ensures var r := Pass(w, queue, st, n).result;
      && r.geocoded + r.notFound + r.tooVague + r.failed == n
      && |r.errors| == r.notFound + r.tooVague + r.failed
      && r.remaining == st.result.remaining
  {
    if n > 0 {
      PassCounts(w, queue, st, n - 1);
    }
  }

  /** One run handles min(limit, queue) stores, each counted once; the errors are the stores not
      geocoded; one store is reported as remaining exactly when the queue was longer than the limit. */
  lemma RunCounts(w: World, rows: seq<Row>, limit: nat)
    ensures var r, queued := Run(w, rows, limit).result, |StoreDb.MissingCoords(rows)|;
      && r.geocoded + r.notFound + r.tooVague + r.failed == (if queued < limit then queued else limit)
      && |r.errors| == r.notFound + r.tooVague + r.failed
      && r.remaining == (if queued > limit then 1 else 0)
  {
    var q := StoreDb.MissingCoords(rows);
    var batch := Batch(rows, limit);
    PassCounts(w, batch, State(rows, Start(if |q| > limit then 1 else 0)), |batch|);
  }

  // ----- what the counters and errors mean -----

  function In(w: World, queue: seq<Row>, n: nat, troubles: set<Option<Reason>>): set<nat>
    requires n <= |queue|
  {
    set k: nat | k < n && Trouble(w, queue, k) in troubles
  }

  lemma OneMoreMember(a: set<nat>, b: set<nat>, n: nat, hit: bool)
    requires n !in a && forall k :: k in b <==> k in a || (k == n && hit)
    ensures |b| == |a| + if hit then 1 else 0
  {
    assert b == if hit then a + {n} else a;
  }

  lemma OneMoreIn(w: World, queue: seq<Row>, n: nat, troubles: set<Option<Reason>>)
    requires n < |queue|
    ensures |In(w, queue, n + 1, troubles)| ==
      |In(w, queue, n, troubles)| + if Trouble(w, queue, n) in troubles then 1 else 0
  {
    OneMoreMember(In(w, queue, n, troubles), In(w, queue, n + 1, troubles), n, Trouble(w, queue, n) in troubles);
  }

  lemma CountByTrouble(w: World, queue: seq<Row>, k: nat, res: Result)
    requires k < |queue|
    ensures var r, t, s := Count(w, queue, k, res), Trouble(w, queue, k), queue[k].store.fields;
      && r.geocoded == res.geocoded + (if t == None then 1 else 0)
      && r.notFound == res.notFound + (if t == Some(NoSuchAddress) then 1 else 0)
      && r.tooVague == res.tooVague + (if t == Some(Vague) then 1 else 0)
      && r.failed == res.failed + (if t in {Some(GeocoderError), Some(SaveFailed)} then 1 else 0)
      && r.errors == res.errors + (if t.Some? then [RowError(s.name, s.address, t.value)] else [])
  {
  }

  /** Each counter is the number of the first n stores that ended that way. */
  ghost predicate Counted(w: World, queue: seq<Row>, n: nat, r: Result)
    requires n <= |queue|
  {
    && r.geocoded == |In(w, queue, n, {None})|
    && r.notFound == |In(w, queue, n, {Some(NoSuchAddress)})|
    && r.tooVague == |In(w, queue, n, {Some(Vague)})|
    && r.failed == |In(w, queue, n, {Some(GeocoderError), Some(SaveFailed)})|
  }

  lemma CountsOneMore(w: World, queue: seq<Row>, n: nat, r: Result)
    requires n < |queue| && Counted(w, queue, n, r)
    ensures Counted(w, queue, n + 1, Count(w, queue, n, r))
  {
    CountByTrouble(w, queue, n, r);
    OneMoreIn(w, queue, n, {None});
    OneMoreIn(w, queue, n, {Some(NoSuchAddress)});
    OneMoreIn(w, queue, n, {Some(Vague)});
    OneMoreIn(w, queue, n, {Some(GeocoderError), Some(SaveFailed)});
  }

  lemma {:induction false} CountersMean(w: World, queue: seq<Row>, st: State, n: nat)
    requires n <= |queue| && st.result == Start(st.result.remaining)
    ensures Counted(w, queue, n, Pass(w, queue, st, n).result)
  {
    if n == 0 {
      assert In(w, queue, 0, {None}) == In(w, queue, 0, {Some(NoSuchAddress)}) == In(w, queue, 0, {Some(Vague)})
        == In(w, queue, 0, {Some(GeocoderError), Some(SaveFailed)}) == {};
    } else {
      CountersMean(w, queue, st, n - 1);
      CountsOneMore(w, queue, n - 1, Pass(w, queue, st, n - 1).result);
    }
  }

  /** In terms of the calls: how many stores each limit handles, and which answers of the
      geocoder and endings of the update each counter counts. */
  lemma CountersFollowTheCalls(w: World, rows: seq<Row>, p: LimitParam)
    ensures LimitOf(p) == None <==> p.NotANumber? || (p.Number? && p.n <= 0)
    ensures LimitOf(p).Some? ==>
      var queued := |StoreDb.MissingCoords(rows)|;
      var most := if p.Absent? then 100 else if p.n < 500 then p.n else 500;
      var batch, r := Batch(rows, LimitOf(p).value), Run(w, rows, LimitOf(p).value).result;
      && |batch| == (if queued < most then queued else most) && batch <= StoreDb.MissingCoords(rows)
      && r.remaining == (if queued > most then 1 else 0)
      && r.notFound == |set k: nat | k < |batch| && FoundFor(w, batch, k) == NoMatch|
      && r.tooVague == |set k: nat | k < |batch| && FoundFor(w, batch, k).Match? && !FoundFor(w, batch, k).precise|
      && r.failed ==
         |set k: nat | k < |batch| &&
            (FoundFor(w, batch, k) == Broken || (Precise(w, batch, k) && w.save(k) != Fine))|
      && r.geocoded == |set k: nat | k < |batch| && Precise(w, batch, k) && w.save(k) == Fine|
  {
    if LimitOf(p).Some? {
      var limit := LimitOf(p).value;
      var batch := Batch(rows, limit);
      RunCounts(w, rows, limit);
      CountersMean(w, batch, State(rows, Start(if |StoreDb.MissingCoords(rows)| > limit then 1 else 0)), |batch|);
      CallsBehind(w, batch);
    }
  }

  predicate Precise(w: World, queue: seq<Row>, k: nat)
    requires k < |queue|
  {
    FoundFor(w, queue, k).Match? && FoundFor(w, queue, k).precise
  }

  lemma CallsBehind(w: World, batch: seq<Row>)
    ensures In(w, batch, |batch|, {Some(NoSuchAddress)}) == set k: nat | k < |batch| && FoundFor(w, batch, k) == NoMatch
    ensures In(w, batch, |batch|, {Some(Vague)}) ==
      set k: nat | k < |batch| && FoundFor(w, batch, k).Match? && !FoundFor(w, batch, k).precise
    ensures In(w, batch, |batch|, {Some(GeocoderError), Some(SaveFailed)}) ==
      set k: nat | k < |batch| && (FoundFor(w, batch, k) == Broken || (Precise(w, batch, k) && w.save(k) != Fine))
    ensures In(w, batch, |batch|, {None}) ==
      set k: nat | k < |batch| && Precise(w, batch, k) && w.save(k) == Fine
  {
  }

  /** The positions of the first n stores that were not geocoded, in order. */
  function Troubled(w: World, queue: seq<Row>, n: nat): (ks: seq<nat>)
    requires n <= |queue|
    ensures forall i :: 0 <= i < |ks| ==> ks[i] < n
  {
    if n == 0 then []
    else Troubled(w, queue, n - 1) + if Trouble(w, queue, n - 1).Some? then [n - 1] else []
  }

  predicate Ascending(ks: seq<nat>) { forall i, j :: 0 <= i < j < |ks| ==> ks[i] < ks[j] }

  lemma {:induction false} TroubledAre(w: World, queue: seq<Row>, n: nat)
    requires n <= |queue|
    ensures forall k: nat :: k in Troubled(w, queue, n) <==> k < n && Trouble(w, queue, k).Some?
    ensures Ascending(Troubled(w, queue, n))
  {
    if n > 0 {
      var init, ks := Troubled(w, queue, n - 1), Troubled(w, queue, n);
      TroubledAre(w, queue, n - 1);
      assert Ascending(init);
      assert ks == init || ks == init + [n - 1];
      forall i, j | 0 <= i < j < |ks|
        ensures ks[i] < ks[j]
      {
        if j < |init| {
          assert ks[i] == init[i] && ks[j] == init[j];
        } else {
          assert ks[i] == init[i] && ks[j] == n - 1;
        }
      }
    }
  }

  predicate Reports(e: RowError, r: Row, reason: Option<Reason>) {
    e.name == r.store.fields.name && e.address == r.store.fields.address && reason == Some(e.reason)
  }

  /** One error for each of them, in order, with its trouble. */
  ghost predicate NamesTheTroubled(w: World, queue: seq<Row>, n: nat, errors: seq<RowError>)
    requires n <= |queue|
  {
    var ks := Troubled(w, queue, n);
    && |errors| == |ks|
    && forall i :: 0 <= i < |ks| ==> Reports(errors[i], queue[ks[i]], Trouble(w, queue, ks[i]))
  }

  lemma NamesNext(w: World, queue: seq<Row>, n: nat, before: Result)
    requires n < |queue| && NamesTheTroubled(w, queue, n, before.errors)
    ensures NamesTheTroubled(w, queue, n + 1, Count(w, queue, n, before).errors)
  {
    CountByTrouble(w, queue, n, before);
  }

  /** The errors name exactly the handled stores that were not geocoded, in order. */
  lemma {:induction false} ErrorsNameTheTroubled(w: World, queue: seq<Row>, st: State, n: nat)
    requires n <= |queue| && st.result == Start(st.result.remaining)
    ensures NamesTheTroubled(w, queue, n, Pass(w, queue, st, n).result.errors)
  {
    if n > 0 {
      ErrorsNameTheTroubled(w, queue, st, n - 1);
      NamesNext(w, queue, n - 1, Pass(w, queue, st, n - 1).result);
    }
  }

  // ----- what changes -----

  /** The row after the first n stores of the queue were handled. */
  function Placed(w: World, queue: seq<Row>, n: nat, row: Row): Row
    requires n <= |queue|
  {
    if n == 0 then row
    else
      var r := Placed(w, queue, n - 1, row);
      if queue[n - 1].id == row.id && Saved(w, queue, n - 1)
      then Row(r.id, Step(r.store, SetAt(w, queue, n - 1)))
      else r
  }

  lemma {:induction false} PassPlaces(w: World, queue: seq<Row>, st: State, n: nat)
    requires n <= |queue|
    ensures |Pass(w, queue, st, n).rows| == |st.rows|
    ensures forall i :: 0 <= i < |st.rows| ==>
      Pass(w, queue, st, n).rows[i] == Placed(w, queue, n, st.rows[i])
      && Placed(w, queue, n, st.rows[i]).id == st.rows[i].id
  {
    if n > 0 {
      PassPlaces(w, queue, st, n - 1);
    }
  }

  lemma {:induction false} NotQueuedNotPlaced(w: World, queue: seq<Row>, n: nat, row: Row)
    requires n <= |queue| && forall k :: 0 <= k < n ==> queue[k].id != row.id
    ensures Placed(w, queue, n, row) == row
  {
    if n > 0 {
      NotQueuedNotPlaced(w, queue, n - 1, row);
    }
  }

  /** A queued store ends with the coordinates of its own match, if they were saved. */
  lemma {:induction false} QueuedIsPlaced(w: World, queue: seq<Row>, n: nat, k: nat)
    requires k < n <= |queue| && StoreDb.Increasing(queue)
    ensures Placed(w, queue, n, queue[k]) ==
      if Saved(w, queue, k) then Row(queue[k].id, Step(queue[k].store, SetAt(w, queue, k))) else queue[k]
  {
    if k == n - 1 {
      NotQueuedNotPlaced(w, queue, k, queue[k]);
    } else {
      QueuedIsPlaced(w, queue, n - 1, k);
    }
  }

  lemma {:induction false} QueueIncreases(rows: seq<Row>)
    requires StoreDb.Increasing(rows)
    ensures StoreDb.Increasing(StoreDb.MissingCoords(rows))
  {
    if rows != [] {
      var init := rows[..|rows| - 1];
      QueueIncreases(init);
      forall r | r in StoreDb.MissingCoords(init)
        ensures r.id < rows[|rows| - 1].id
      {
        assert r in init;
        var i :| 0 <= i < |init| && init[i] == r;
        assert rows[i].id < rows[|rows| - 1].id;
      }
      assert forall i :: 0 <= i < |StoreDb.MissingCoords(init)| ==>
        StoreDb.MissingCoords(init)[i] in StoreDb.MissingCoords(init);
    }
  }

  lemma BatchIncreases(rows: seq<Row>, limit: nat)
    requires StoreDb.Increasing(rows)
    ensures StoreDb.Increasing(Batch(rows, limit))
    ensures forall r :: r in Batch(rows, limit) ==> r in rows && StoreDb.Missing(r)
  {
    QueueIncreases(rows);
  }

  lemma SameIdSameRow(rows: seq<Row>, a: Row, b: Row)
    requires StoreDb.Increasing(rows) && a in rows && b in rows && a.id == b.id
    ensures a == b
  {
    var i :| 0 <= i < |rows| && rows[i] == a;
    var j :| 0 <= j < |rows| && rows[j] == b;
  }

  lemma UnhandledRowStays(w: World, rows: seq<Row>, batch: seq<Row>, row: Row)
    requires StoreDb.Increasing(rows) && row in rows && row !in batch
    requires forall r :: r in batch ==> r in rows
    ensures Placed(w, batch, |batch|, row) == row
  {
    forall k | 0 <= k < |batch|
      ensures batch[k].id != row.id
    {
      assert batch[k] in batch;
      if batch[k].id == row.id { SameIdSameRow(rows, batch[k], row); }
    }
    NotQueuedNotPlaced(w, batch, |batch|, row);
  }

  /** The row with its match's coordinates, and nothing else changed. */
  predicate MovedTo(before: Row, after: Row, found: Found) {
    && found.Match? && after.id == before.id
    && after.store.fields == before.store.fields.(latitude := found.latitude, longitude := found.longitude)
    && after.store.approvedAt == before.store.approvedAt && after.store.rejection == before.store.rejection
  }

  lemma RunPlaces(w: World, rows: seq<Row>, limit: nat, i: nat)
    requires i < |rows|
    ensures |Run(w, rows, limit).rows| == |rows|
    ensures Run(w, rows, limit).rows[i] == Placed(w, Batch(rows, limit), |Batch(rows, limit)|, rows[i])
  {
    var batch := Batch(rows, limit);
    PassPlaces(w, batch, State(rows, Start(if |StoreDb.MissingCoords(rows)| > limit then 1 else 0)), |batch|);
  }

  /** Only stores handled by the run, matched precisely and saved are touched, each gets the
      coordinates of its own match, and nothing but its coordinates changes. */
  lemma OnlyPreciseMatchesMove(w: World, rows: seq<Row>, limit: nat, i: nat)
    requires StoreDb.Increasing(rows) && i < |rows|
    ensures |Run(w, rows, limit).rows| == |rows|
    ensures rows[i] !in Batch(rows, limit) ==> Run(w, rows, limit).rows[i] == rows[i]
    ensures var after, batch := Run(w, rows, limit).rows[i], Batch(rows, limit);
      forall k :: 0 <= k < |batch| && batch[k] == rows[i] ==>
        if Saved(w, batch, k) then MovedTo(rows[i], after, FoundFor(w, batch, k)) else after == rows[i]
  {
    var batch := Batch(rows, limit);
    BatchIncreases(rows, limit);
    RunPlaces(w, rows, limit, i);
    if rows[i] !in batch {
      UnhandledRowStays(w, rows, batch, rows[i]);
    }
    forall k | 0 <= k < |batch| && batch[k] == rows[i]
      ensures if Saved(w, batch, k) then MovedTo(rows[i], Run(w, rows, limit).rows[i], FoundFor(w, batch, k))
              else Run(w, rows, limit).rows[i] == rows[i]
    {
      QueuedIsPlaced(w, batch, |batch|, k);
    }
  }

  // ----- what leaves the queue -----

  /** The run saved this store somewhere other than (0, 0). */
  predicate Leaves(w: World, batch: seq<Row>, r: Row) {
    exists k :: 0 <= k < |batch| && batch[k] == r && SavedAway(w, batch, k)
  }

  predicate SavedAway(w: World, batch: seq<Row>, k: nat)
    requires k < |batch|
  {
    Saved(w, batch, k) && !(FoundFor(w, batch, k).latitude == 0.0 && FoundFor(w, batch, k).longitude == 0.0)
  }

  function Kept(w: World, batch: seq<Row>, q: seq<Row>): seq<Row> {
    if q == [] then []
    else Kept(w, batch, q[..|q| - 1]) + if Leaves(w, batch, q[|q| - 1]) then [] else [q[|q| - 1]]
  }

  /** Stores saved at (0, 0) look exactly as before, so they stay queued. */
  lemma RowStaysQueued(w: World, rows: seq<Row>, batch: seq<Row>, row: Row)
    requires StoreDb.Increasing(rows) && row in rows && StoreDb.Increasing(batch)
    requires forall r :: r in batch ==> r in rows && StoreDb.Missing(r)
    ensures var after := Placed(w, batch, |batch|, row);
      && (StoreDb.Missing(after) <==> StoreDb.Missing(row) && !Leaves(w, batch, row))
      && (StoreDb.Missing(after) ==> after == row)
  {
    if row in batch {
      var k :| 0 <= k < |batch| && batch[k] == row;
      QueuedIsPlaced(w, batch, |batch|, k);
      assert Leaves(w, batch, row) <==> SavedAway(w, batch, k);
    } else {
      UnhandledRowStays(w, rows, batch, row);
    }
  }

  lemma {:induction false} QueueAfter(w: World, rows: seq<Row>, after: seq<Row>, batch: seq<Row>, m: nat)
    requires StoreDb.Increasing(rows) && StoreDb.Increasing(batch) && |after| == |rows| && m <= |rows|
    requires forall r :: r in batch ==> r in rows && StoreDb.Missing(r)
    requires forall i :: 0 <= i < |rows| ==> after[i] == Placed(w, batch, |batch|, rows[i])
    ensures StoreDb.MissingCoords(after[..m]) == Kept(w, batch, StoreDb.MissingCoords(rows[..m]))
  {
    if m > 0 {
      QueueAfter(w, rows, after, batch, m - 1);
      assert rows[..m][..m - 1] == rows[..m - 1] && after[..m][..m - 1] == after[..m - 1];
      RowStaysQueued(w, rows, batch, rows[m - 1]);
      var q := StoreDb.MissingCoords(rows[..m - 1]);
      assert (q + [rows[m - 1]])[..|q|] == q;
    }
  }

  /** The queue loses exactly the stores the run saved away from (0, 0); the others keep
      their order and are unchanged. */
  lemma QueueLosesTheSaved(w: World, rows: seq<Row>, limit: nat)
    requires StoreDb.Increasing(rows)
    ensures StoreDb.MissingCoords(Run(w, rows, limit).rows)
         == Kept(w, Batch(rows, limit), StoreDb.MissingCoords(rows))
  {
    var batch := Batch(rows, limit);
    BatchIncreases(rows, limit);
    var start := State(rows, Start(if |StoreDb.MissingCoords(rows)| > limit then 1 else 0));
    PassPlaces(w, batch, start, |batch|);
    var after := Pass(w, batch, start, |batch|).rows;
    QueueAfter(w, rows, after, batch, |rows|);
    assert rows[..|rows|] == rows && after[..|after|] == after;
  }

  lemma SameSnoc(a: seq<Row>, b: seq<Row>, r: Row)
    ensures a + [r] == b + [r] <==> a == b
  {
    if a + [r] == b + [r] {
      assert a == (a + [r])[..|a|] && b == (b + [r])[..|b|];
    }
  }

  lemma {:induction false} KeptAll(w: World, batch: seq<Row>, q: seq<Row>)
    ensures |Kept(w, batch, q)| <= |q|
    ensures Kept(w, batch, q) == q <==> forall i :: 0 <= i < |q| ==> !Leaves(w, batch, q[i])
  {
    if q != [] {
      var init, last := q[..|q| - 1], q[|q| - 1];
      KeptAll(w, batch, init);
      assert q == init + [last];
      if Leaves(w, batch, last) {
        assert |Kept(w, batch, q)| < |q|;
      } else {
        SameSnoc(Kept(w, batch, init), init, last);
        assert forall i :: 0 <= i < |init| ==> init[i] == q[i];
      }
    }
  }

  /** A run makes no progress exactly when none of the first `limit` stores of the queue is
      saved away from (0, 0); stores behind them are not even asked about. */
  lemma QueueStandsStillExactlyWhen(w: World, rows: seq<Row>, limit: nat)
    requires StoreDb.Increasing(rows)
    ensures var batch := Batch(rows, limit);
      StoreDb.MissingCoords(Run(w, rows, limit).rows) == StoreDb.MissingCoords(rows) <==>
      forall k :: 0 <= k < |batch| ==> !SavedAway(w, batch, k)
  {
    var batch, q := Batch(rows, limit), StoreDb.MissingCoords(rows);
    QueueLosesTheSaved(w, rows, limit);
    KeptAll(w, batch, q);
    if k :| 0 <= k < |batch| && SavedAway(w, batch, k) {
      assert batch[k] == q[k] && Leaves(w, batch, q[k]);
    }
  }

  // ----- any number of runs -----

  /** Runs one after another, each with its own failing saves. */
  function Runs(ws: seq<World>, rows: seq<Row>, limit: nat): seq<Row> {
    if ws == [] then rows else Run(ws[|ws| - 1], Runs(ws[..|ws| - 1], rows, limit), limit).rows
  }

  /** All of them ask one geocoder, which answers an address the same every time. */
  ghost predicate OneGeocoder(ws: seq<World>, find: string -> Found) {
    forall i, k, address :: 0 <= i < |ws| ==> ws[i].answer(k, address) == find(address)
  }

  /** The geocoder places the address precisely, and not at (0, 0). */
  predicate Places(find: string -> Found, r: Row) {
    match find(r.store.fields.address)
    case Match(lat, lng, precise) => precise && !(lat == 0.0 && lng == 0.0)
    case _ => false
  }

  /** A row not saved away is left exactly as it was. */
  lemma NothingSavedNothingMoves(w: World, rows: seq<Row>, limit: nat)
    requires StoreDb.Increasing(rows)
    requires var batch := Batch(rows, limit); forall k :: 0 <= k < |batch| ==> !SavedAway(w, batch, k)
    ensures Run(w, rows, limit).rows == rows
  {
    var batch := Batch(rows, limit);
    BatchIncreases(rows, limit);
    forall i | 0 <= i < |rows|
      ensures |Run(w, rows, limit).rows| == |rows| && Run(w, rows, limit).rows[i] == rows[i]
    {
      RunPlaces(w, rows, limit, i);
      RowUnmoved(w, rows, batch, rows[i]);
    }
    PassPlaces(w, batch, State(rows, Start(if |StoreDb.MissingCoords(rows)| > limit then 1 else 0)), |batch|);
  }

  lemma RowUnmoved(w: World, rows: seq<Row>, batch: seq<Row>, row: Row)
    requires StoreDb.Increasing(rows) && row in rows && StoreDb.Increasing(batch)
    requires forall r :: r in batch ==> r in rows && StoreDb.Missing(r)
    requires forall k :: 0 <= k < |batch| ==> !SavedAway(w, batch, k)
    ensures Placed(w, batch, |batch|, row) == row
  {
    if row in batch {
      RowStaysQueued(w, rows, batch, row);
    } else {
      UnhandledRowStays(w, rows, batch, row);
    }
  }

  lemma {:induction false} RunsStandStill(ws: seq<World>, find: string -> Found, rows: seq<Row>, limit: nat)
    requires StoreDb.Increasing(rows) && OneGeocoder(ws, find)
    requires forall r :: r in Batch(rows, limit) ==> !Places(find, r)
    ensures Runs(ws, rows, limit) == rows
  {
    if ws != [] {
      var init, w := ws[..|ws| - 1], ws[|ws| - 1];
      assert forall i :: 0 <= i < |init| ==> init[i] == ws[i];
      RunsStandStill(init, find, rows, limit);
      var batch := Batch(rows, limit);
      forall k | 0 <= k < |batch|
        ensures !SavedAway(w, batch, k)
      {
        assert batch[k] in batch && !Places(find, batch[k]);
        assert w.answer(k, batch[k].store.fields.address) == find(batch[k].store.fields.address);
      }
      NothingSavedNothingMoves(w, rows, limit);
    }
  }

  /** A run whose saves all succeed takes a placed store out of the queue. */
  lemma OneGoodRun(w: World, find: string -> Found, rows: seq<Row>, limit: nat)
    requires StoreDb.Increasing(rows) && (forall k, address :: w.answer(k, address) == find(address))
      && forall k :: w.save(k) == Fine
    requires exists r :: r in Batch(rows, limit) && Places(find, r)
    ensures StoreDb.MissingCoords(Runs([w], rows, limit)) != StoreDb.MissingCoords(rows)
  {
    var batch := Batch(rows, limit);
    var r :| r in batch && Places(find, r);
    var k: nat :| k < |batch| && batch[k] == r;
    assert SavedAway(w, batch, k);
    QueueStandsStillExactlyWhen(w, rows, limit);
    assert [w][..0] == [];
  }

  /** Starvation: with one geocoder, no number of runs ever shortens the queue exactly when it
      places none of the first `limit` stores; whatever it could do for those behind them. */
  lemma QueueStarvesExactlyWhen(find: string -> Found, rows: seq<Row>, limit: nat)
    requires StoreDb.Increasing(rows)
    ensures (forall ws :: OneGeocoder(ws, find) ==>
              StoreDb.MissingCoords(Runs(ws, rows, limit)) == StoreDb.MissingCoords(rows))
       <==> (forall r :: r in Batch(rows, limit) ==> !Places(find, r))
  {
    if forall r :: r in Batch(rows, limit) ==> !Places(find, r) {
      forall ws | OneGeocoder(ws, find)
        ensures StoreDb.MissingCoords(Runs(ws, rows, limit)) == StoreDb.MissingCoords(rows)
      {
        RunsStandStill(ws, find, rows, limit);
      }
    } else {
      var w := World((i, address) => find(address), i => Fine, i => 0);
      OneGoodRun(w, find, rows, limit);
      assert OneGeocoder([w], find);
    }
  }
}

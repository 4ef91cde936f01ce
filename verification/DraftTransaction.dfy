/** CreateDiscoveryDraft as its database steps, interleaved with any number of other
    such transactions and with writers that do not take the advisory lock. */
module DraftTransaction {
  import opened Text
  import opened Stores
  import opened Drafts

  /** The columns the duplicate check compares. */
  predicate SameIdentity(a: Fields, b: Fields) {
    a.sourceUrl == b.sourceUrl && a.ward == b.ward && a.name == b.name && a.address == b.address
  }

  /** A committed row. `discovered` rows were created by this transaction; `touched` ones
      have since had a compared column edited by somebody; `order` numbers the commits. */
  datatype Entry = Entry(fields: Fields, order: nat, discovered: bool, touched: bool)

  datatype Phase =
    | Begun(arg: Fields)
    | Locked(arg: Fields)
    | Matched(arg: Fields, hit: nat)
    | Clear(arg: Fields)
    | Inserted(arg: Fields, id: nat)

  /** `used` holds every id ever drawn, `created` every draft committed, as inserted. */
  datatype State = State(
    table: map<nat, Entry>,
    used: set<nat>,
    commits: nat,
    lock: Option<nat>,
    clients: map<nat, Phase>,
    created: seq<Fields>)

  datatype Event =
    | Begin(c: nat, arg: Fields)
    | Lock(c: nat)
    | Check(c: nat, hit: Option<nat>)
    | ReturnExisting(c: nat)
    | Insert(c: nat, id: nat)
    | Commit(c: nat)
    | Abort(c: nat)
    | OtherInsert(id: nat, fields: Fields)
    | OtherEdit(id: nat, fields: Fields)
    | OtherDelete(id: nat)

  predicate At(s: State, c: nat) { c in s.clients }

  ghost predicate Enabled(lower: char -> char, s: State, e: Event) {
    match e
    case Begin(c, _) => c !in s.clients
    case Lock(c) => At(s, c) && s.clients[c].Begun? && s.lock == None
    case Check(c, hit) =>
      && At(s, c) && s.clients[c].Locked?
      && (hit.Some? ==> hit.value in s.table && Duplicate(lower, s.table[hit.value].fields, s.clients[c].arg))
      && (hit.None? ==> forall id :: id in s.table ==> !Duplicate(lower, s.table[id].fields, s.clients[c].arg))
    // the row may have been deleted since; the transaction then fails
    case ReturnExisting(c) => At(s, c) && s.clients[c].Matched? && s.clients[c].hit in s.table
    case Insert(c, id) => At(s, c) && s.clients[c].Clear? && id !in s.used
    case Commit(c) => At(s, c) && s.clients[c].Inserted?
    case Abort(c) => At(s, c)
    case OtherInsert(id, _) => id !in s.used
    case OtherEdit(id, _) => id in s.table
    case OtherDelete(id) => id in s.table
  }

  /** The end of a transaction, committed or rolled back, releases its lock. */
  function End(s: State, c: nat): State {
    s.(clients := s.clients - {c}, lock := if s.lock == Some(c) then None else s.lock)
  }

  ghost function Next(lower: char -> char, s: State, e: Event): State
    requires Enabled(lower, s, e)
  {
    match e
    case Begin(c, arg) => s.(clients := s.clients[c := Begun(arg)])
    case Lock(c) => s.(clients := s.clients[c := Locked(s.clients[c].arg)], lock := Some(c))
    case Check(c, hit) =>
      s.(clients := s.clients[c := if hit.Some? then Matched(s.clients[c].arg, hit.value) else Clear(s.clients[c].arg)])
    case ReturnExisting(c) => End(s, c)
    case Insert(c, id) => s.(clients := s.clients[c := Inserted(s.clients[c].arg, id)], used := s.used + {id})
    case Commit(c) =>
      var f := DraftOf(s.clients[c].arg);
      End(s, c).(table := s.table[s.clients[c].id := Entry(f, s.commits, true, false)],
                 commits := s.commits + 1, created := s.created + [f])
    case Abort(c) => End(s, c)
    case OtherInsert(id, f) =>
      s.(table := s.table[id := Entry(f, s.commits, false, false)], used := s.used + {id}, commits := s.commits + 1)
    case OtherEdit(id, f) => 
      var row := s.table[id];
      s.(table := s.table[id := row.(fields := f, touched := row.touched || !SameIdentity(row.fields, f))])
    case OtherDelete(id) => s.(table := s.table - {id})
  }

  ghost predicate ValidRun(lower: char -> char, s: State, es: seq<Event>)
    decreases |es|
  {
    es != [] ==> Enabled(lower, s, es[0]) && ValidRun(lower, Next(lower, s, es[0]), es[1..])
  }

  ghost function Final(lower: char -> char, s: State, es: seq<Event>): State
    requires ValidRun(lower, s, es)
    decreases |es|
  {
    if es == [] then s else Final(lower, Next(lower, s, es[0]), es[1..])
  }

  ghost predicate Init(s: State) {
    && s.lock == None && s.clients == map[] && s.created == []
    && forall id :: id in s.table ==> id in s.used && !s.table[id].discovered && s.table[id].order < s.commits
  }

  /** A row this transaction created and whose compared columns nobody edited; approving
      it, placing it on the map or completing its other columns does not matter. */
  predicate IsDraft(s: State, id: nat) {
    id in s.table && s.table[id].discovered && !s.table[id].touched
  }

  ghost predicate Distinct(lower: char -> char, s: State) {
    forall a, b :: IsDraft(s, a) && IsDraft(s, b) && s.table[a].order < s.table[b].order ==>
      !Duplicate(lower, s.table[a].fields, s.table[b].fields)
  }

  /** Past its check, a client's candidate duplicates no draft: the lock keeps others out. */
  ghost predicate CheckStands(lower: char -> char, s: State) {
    forall c, id :: c in s.clients && (s.clients[c].Clear? || s.clients[c].Inserted?) && IsDraft(s, id) ==>
      !Duplicate(lower, s.table[id].fields, s.clients[c].arg)
  }

  ghost predicate LockHeld(s: State) {
    && (s.lock.Some? ==> s.lock.value in s.clients)
    && forall c :: c in s.clients ==> (!s.clients[c].Begun? <==> s.lock == Some(c))
  }

  ghost predicate Ordered(s: State) {
    && (forall id :: id in s.table ==> id in s.used && s.table[id].order < s.commits)
    && (forall a, b :: a in s.table && b in s.table && a != b && s.table[a].discovered && s.table[b].discovered ==>
          s.table[a].order != s.table[b].order)
  }

  /** The id of a row inserted but not committed names no committed row. */
  ghost predicate InsertedApart(s: State) {
    forall c :: c in s.clients && s.clients[c].Inserted? ==> s.clients[c].id in s.used && s.clients[c].id !in s.table
  }

  ghost predicate CreatedAsDrafts(s: State) {
    forall f :: f in s.created ==> f.status == Draft && f.gfStatus == OnRequest && !f.gfOriented
  }

  ghost predicate Bookkeeping(s: State) { Ordered(s) && InsertedApart(s) && CreatedAsDrafts(s) }

  ghost predicate Inv(lower: char -> char, s: State) {
    Distinct(lower, s) && CheckStands(lower, s) && LockHeld(s) && Bookkeeping(s)
  }

  lemma StepKeepsLock(lower: char -> char, s: State, e: Event)
    requires LockHeld(s) && Enabled(lower, s, e)
    ensures LockHeld(Next(lower, s, e))
  {
  }

  lemma StepKeepsOrder(lower: char -> char, s: State, e: Event)
    requires Ordered(s) && InsertedApart(s) && Enabled(lower, s, e)
    ensures Ordered(Next(lower, s, e))
  {
  }

  lemma StepKeepsApart(lower: char -> char, s: State, e: Event)
    requires LockHeld(s) && Ordered(s) && InsertedApart(s) && Enabled(lower, s, e)
    ensures InsertedApart(Next(lower, s, e))
  {
    match e
    case Commit(c) => assert forall d :: d in s.clients && d != c ==> s.clients[d].Begun?;
    case _ =>
  }

  lemma StepKeepsBookkeeping(lower: char -> char, s: State, e: Event)
    requires LockHeld(s) && Bookkeeping(s) && Enabled(lower, s, e)
    ensures Bookkeeping(Next(lower, s, e))
  {
    StepKeepsOrder(lower, s, e);
    StepKeepsApart(lower, s, e);
  }

  lemma StepKeepsCheck(lower: char -> char, s: State, e: Event)
    requires Inv(lower, s) && Enabled(lower, s, e)
    ensures CheckStands(lower, Next(lower, s, e))
  {
    if e.Commit? {
      assert forall d :: d in s.clients && d != e.c ==> s.clients[d].Begun?;
    } else {
      var t := Next(lower, s, e);
      forall c, id | c in t.clients && (t.clients[c].Clear? || t.clients[c].Inserted?) && IsDraft(t, id)
        ensures !Duplicate(lower, t.table[id].fields, t.clients[c].arg)
      {
        assert Carried(s, t, id);
        IdentityDecides(lower, s.table[id].fields, t.table[id].fields, t.clients[c].arg, t.clients[c].arg);
      }
    }
  }

  lemma IdentityDecides(lower: char -> char, a: Fields, a': Fields, b: Fields, b': Fields)
    requires SameIdentity(a, a') && SameIdentity(b, b')
    ensures Duplicate(lower, a, b) == Duplicate(lower, a', b')
  {
  }

  /** Every draft of t was one of s, committed then, and says the same to the check. */
  ghost predicate Carried(s: State, t: State, id: nat) {
    IsDraft(t, id) ==>
      && IsDraft(s, id) && s.table[id].order == t.table[id].order
      && SameIdentity(s.table[id].fields, t.table[id].fields)
  }

  lemma CarryKeepsDistinct(lower: char -> char, s: State, t: State)
    requires Distinct(lower, s) && forall id :: Carried(s, t, id)
    ensures Distinct(lower, t)
  {
    forall a, b | IsDraft(t, a) && IsDraft(t, b) && t.table[a].order < t.table[b].order
      ensures !Duplicate(lower, t.table[a].fields, t.table[b].fields)
    {
      assert Carried(s, t, a) && Carried(s, t, b);
      IdentityDecides(lower, s.table[a].fields, t.table[a].fields, s.table[b].fields, t.table[b].fields);
    }
  }

  lemma CommitKeepsDistinct(lower: char -> char, s: State, c: nat)
    requires Inv(lower, s) && Enabled(lower, s, Commit(c))
    ensures Distinct(lower, Next(lower, s, Commit(c)))
  {
    var t := Next(lower, s, Commit(c));
    var id, arg := s.clients[c].id, s.clients[c].arg;
    assert forall a :: a in s.table ==> a != id && t.table[a] == s.table[a];
    forall a, b | IsDraft(t, a) && IsDraft(t, b) && t.table[a].order < t.table[b].order
      ensures !Duplicate(lower, t.table[a].fields, t.table[b].fields)
    {
      if b == id {
        assert IsDraft(s, a);
        assert !Duplicate(lower, s.table[a].fields, arg);
        IdentityDecides(lower, s.table[a].fields, t.table[a].fields, arg, DraftOf(arg));
      } else {
        assert a != id && IsDraft(s, a) && IsDraft(s, b);
      }
    }
  }

  lemma StepKeepsDistinct(lower: char -> char, s: State, e: Event)
    requires Inv(lower, s) && Enabled(lower, s, e)
    ensures Distinct(lower, Next(lower, s, e))
  {
    if e.Commit? {
      CommitKeepsDistinct(lower, s, e.c);
    } else {
      forall id
        ensures Carried(s, Next(lower, s, e), id)
      {}
      CarryKeepsDistinct(lower, s, Next(lower, s, e));
    }
  }

  lemma StepKeepsInv(lower: char -> char, s: State, e: Event)
    requires Inv(lower, s) && Enabled(lower, s, e)
    ensures Inv(lower, Next(lower, s, e))
  {
    StepKeepsLock(lower, s, e);
    StepKeepsBookkeeping(lower, s, e);
    StepKeepsCheck(lower, s, e);
    StepKeepsDistinct(lower, s, e);
  }

  lemma {:induction false} RunKeepsInv(lower: char -> char, s: State, es: seq<Event>)
    requires Inv(lower, s) && ValidRun(lower, s, es)
    ensures Inv(lower, Final(lower, s, es))
    decreases |es|
  {
    if es != [] {
      StepKeepsInv(lower, s, es[0]);
      RunKeepsInv(lower, Next(lower, s, es[0]), es[1..]);
    }
  }

  /** In every interleaving, whatever else happens to the drafts: as long as their compared
      columns are left alone, no draft is refused by the duplicate check against one committed
      before it; and every draft was inserted as a non-oriented, on-request draft, whatever
      its caller asked for. */
  lemma NoDraftRepeatsAnEarlierOne(lower: char -> char, s: State, es: seq<Event>)
    requires Init(s) && ValidRun(lower, s, es)
    ensures var f := Final(lower, s, es);
      && (forall a, b :: IsDraft(f, a) && IsDraft(f, b) && f.table[a].order < f.table[b].order ==>
            !Duplicate(lower, f.table[a].fields, f.table[b].fields))
      && (forall d :: d in f.created ==> d.status == Draft && d.gfStatus == OnRequest && !d.gfOriented)
  {
    RunKeepsInv(lower, s, es);
  }

  // ----- both directions of the relation -----

  /** SQL's btrim and Go's TrimSpace read this candidate's name and address alike. */
  predicate Aligned(lower: char -> char, x: Fields) {
    && Lower(lower, BTrim(x.name)) == Lower(lower, TrimSpace(x.name))
    && (TrimSpace(x.address) == "" || Lower(lower, BTrim(x.address)) == Lower(lower, TrimSpace(x.address)))
  }

  lemma LowerKeepsBare(lower: char -> char, s: string)
    requires KeepsSpaces(lower)
    ensures Bare(Lower(lower, s), IsSpace) <==> Bare(s, IsSpace)
  {
  }

  /** Stored text that matches trimmed text was itself free of edge white space. */
  lemma MatchIsTrimmed(lower: char -> char, stored: string, given: string)
    requires KeepsSpaces(lower)
    requires Lower(lower, BTrim(stored)) == Lower(lower, TrimSpace(given))
    ensures BTrim(stored) == TrimSpace(stored)
  {
    TrimIsBare(given, IsSpace);
    LowerKeepsBare(lower, TrimSpace(given));
    LowerKeepsBare(lower, BTrim(stored));
    BareBTrimIsTrimSpace(stored);
  }

  lemma AlignedIsSymmetric(lower: char -> char, x: Fields, y: Fields)
    requires KeepsSpaces(lower) && Aligned(lower, x) && Duplicate(lower, y, x)
    ensures Duplicate(lower, x, y)
  {
    if y.sourceUrl != x.sourceUrl {
      if SameName(lower, y, x) {
        MatchIsTrimmed(lower, y.name, x.name);
        assert SameName(lower, x, y);
      } else {
        MatchIsTrimmed(lower, y.address, x.address);
        assert |Lower(lower, BTrim(y.address))| == |BTrim(y.address)|;
        assert |Lower(lower, TrimSpace(x.address))| == |TrimSpace(x.address)|;
        assert |Lower(lower, BTrim(x.address))| == |BTrim(x.address)|;
        assert SameAddress(lower, x, y);
      }
    }
  }

  /** A tidy non-empty text that no comparison takes for s: s trimmed and lengthened. */
  function Unlike(s: string): string {
    TrimSpace(s) + if |TrimSpace(s)| + 1 == |BTrim(s)| then "11" else "1"
  }

  lemma UnlikeIsTidy(s: string)
    ensures Unlike(s) != "" && TrimSpace(Unlike(s)) == Unlike(s) && |Unlike(s)| != |BTrim(s)|
  {
    TrimIsBare(s, IsSpace);
    assert TrimSpace(s) != "" ==> Unlike(s)[0] == TrimSpace(s)[0];
    TrimIsBare(Unlike(s), IsSpace);
  }

  /** A candidate the check lets in after x although, stored, it would refuse x: another page
      of the same place, complete, with tidy name and address, one of them spelt differently. */
  function Mirror(lower: char -> char, x: Fields): Fields {
    if Lower(lower, BTrim(x.name)) != Lower(lower, TrimSpace(x.name)) then
      x.(sourceUrl := x.sourceUrl + "2", name := TrimSpace(x.name), address := Unlike(x.address))
    else
      x.(sourceUrl := x.sourceUrl + "2", name := Unlike(x.name), address := TrimSpace(x.address))
  }

  lemma LowerDiffers(lower: char -> char, a: string, b: string)
    requires |a| != |b|
    ensures Lower(lower, a) != Lower(lower, b)
  {
    assert |Lower(lower, a)| == |a| && |Lower(lower, b)| == |b|;
  }

  lemma MirrorSlipsIn(lower: char -> char, x: Fields)
    requires !Aligned(lower, x)
    ensures var y := Mirror(lower, x);
      && !Duplicate(lower, x, y) && Duplicate(lower, y, x)
      && (TrimSpace(x.name) != "" ==> y.name != "") && (TrimSpace(x.address) != "" ==> y.address != "")
  {
    var y := Mirror(lower, x);
    assert |y.sourceUrl| == |x.sourceUrl| + 1;
    BTrimOfTrimSpace(x.name);
    BTrimOfTrimSpace(x.address);
    UnlikeIsTidy(x.name);
    UnlikeIsTidy(x.address);
    if Lower(lower, BTrim(x.name)) != Lower(lower, TrimSpace(x.name)) {
      LowerDiffers(lower, BTrim(x.address), Unlike(x.address));
      assert SameName(lower, y, x);
    } else {
      LowerDiffers(lower, BTrim(x.name), Unlike(x.name));
      assert SameAddress(lower, y, x);
    }
  }

  /** The check protects a stored draft in both directions exactly when its own name and
      address carry no edge white space that btrim keeps and TrimSpace strips. */
  lemma SymmetricExactlyWhenAligned(lower: char -> char, x: Fields)
    requires KeepsSpaces(lower)
    ensures Aligned(lower, x) <==> forall y: Fields :: !Duplicate(lower, x, y) ==> !Duplicate(lower, y, x)
  {
    if Aligned(lower, x) {
      forall y: Fields | Duplicate(lower, y, x)
        ensures Duplicate(lower, x, y)
      {
        AlignedIsSymmetric(lower, x, y);
      }
    } else {
      MirrorSlipsIn(lower, x);
    }
  }

  /** So in every interleaving, two drafts whose compared columns are as inserted, the earlier
      one aligned, are not duplicates of each other either way round. */
  lemma AlignedDraftsAreDistinct(lower: char -> char, s: State, es: seq<Event>, a: nat, b: nat)
    requires KeepsSpaces(lower) && Init(s) && ValidRun(lower, s, es)
    requires var f := Final(lower, s, es);
      IsDraft(f, a) && IsDraft(f, b) && f.table[a].order < f.table[b].order && Aligned(lower, f.table[a].fields)
    ensures var f := Final(lower, s, es);
      !Duplicate(lower, f.table[a].fields, f.table[b].fields) && !Duplicate(lower, f.table[b].fields, f.table[a].fields)
  {
    var f := Final(lower, s, es);
    NoDraftRepeatsAnEarlierOne(lower, s, es);
    if Duplicate(lower, f.table[b].fields, f.table[a].fields) {
      AlignedIsSymmetric(lower, f.table[a].fields, f.table[b].fields);
    }
  }

  // ----- a transaction nobody interleaves with -----

  /** The steps of one such transaction. */
  function Solo(c: nat, arg: Fields, hit: Option<nat>, id: nat): seq<Event> {
    [Begin(c, arg), Lock(c), Check(c, hit)] + if hit.Some? then [ReturnExisting(c)] else [Insert(c, id), Commit(c)]
  }

  predicate Quiet(s: State) { s.lock == None && s.clients == map[] }

  lemma RunsOn(lower: char -> char, s: State, e: Event, es: seq<Event>)
    requires Enabled(lower, s, e) && ValidRun(lower, Next(lower, s, e), es)
    ensures ValidRun(lower, s, [e] + es)
    ensures Final(lower, s, [e] + es) == Final(lower, Next(lower, s, e), es)
  {
    assert ([e] + es)[1..] == es;
  }

  /** The state once a lone client is past its check. */
  function PastCheck(s: State, c: nat, arg: Fields, hit: Option<nat>): State {
    s.(clients := s.clients[c := if hit.Some? then Matched(arg, hit.value) else Clear(arg)], lock := Some(c))
  }

  ghost predicate Decides(lower: char -> char, s: State, arg: Fields, hit: Option<nat>) {
    && (hit.Some? ==> hit.value in s.table && Duplicate(lower, s.table[hit.value].fields, arg))
    && (hit.None? ==> forall k :: k in s.table ==> !Duplicate(lower, s.table[k].fields, arg))
  }

  lemma SoloHead(lower: char -> char, s: State, c: nat, arg: Fields, hit: Option<nat>, rest: seq<Event>)
    requires Quiet(s) && Decides(lower, s, arg, hit) && ValidRun(lower, PastCheck(s, c, arg, hit), rest)
    ensures ValidRun(lower, s, [Begin(c, arg), Lock(c), Check(c, hit)] + rest)
    ensures Final(lower, s, [Begin(c, arg), Lock(c), Check(c, hit)] + rest) ==
      Final(lower, PastCheck(s, c, arg, hit), rest)
  {
    var s1 := Next(lower, s, Begin(c, arg));
    var s2 := Next(lower, s1, Lock(c));
    assert Next(lower, s2, Check(c, hit)) == PastCheck(s, c, arg, hit);
    RunsOn(lower, s2, Check(c, hit), rest);
    RunsOn(lower, s1, Lock(c), [Check(c, hit)] + rest);
    RunsOn(lower, s, Begin(c, arg), [Lock(c)] + ([Check(c, hit)] + rest));
    assert [Begin(c, arg), Lock(c), Check(c, hit)] + rest == [Begin(c, arg)] + ([Lock(c)] + ([Check(c, hit)] + rest));
  }

  lemma SoloInsert(lower: char -> char, s: State, c: nat, arg: Fields, id: nat)
    requires Quiet(s) && id !in s.used
    ensures var es := [Insert(c, id), Commit(c)];
      && ValidRun(lower, PastCheck(s, c, arg, None), es)
      && var f := Final(lower, PastCheck(s, c, arg, None), es);
         && Quiet(f) && f.used == s.used + {id} && f.commits == s.commits + 1
         && f.table == s.table[id := Entry(DraftOf(arg), s.commits, true, false)]
  {
    var s3 := PastCheck(s, c, arg, None);
    RunsOn(lower, Next(lower, s3, Insert(c, id)), Commit(c), []);
    RunsOn(lower, s3, Insert(c, id), [Commit(c)]);
    assert [Insert(c, id), Commit(c)] == [Insert(c, id)] + [Commit(c)];
  }

  /** The committed rows, listed in the order of their commits. */
  ghost predicate Lists(s: State, ids: seq<nat>, rows: seq<Row>) {
    && |ids| == |rows|
    && (forall id :: id in ids <==> id in s.table)
    && (forall i, j :: 0 <= i < j < |ids| ==> s.table[ids[i]].order < s.table[ids[j]].order)
    && (forall i :: 0 <= i < |ids| ==> rows[i].store.fields == s.table[ids[i]].fields)
  }

  lemma ListedIsRefused(lower: char -> char, s: State, ids: seq<nat>, rows: seq<Row>, arg: Fields, hit: Option<nat>)
    requires Lists(s, ids, rows) && Decides(lower, s, arg, hit)
    ensures hit.Some? <==> Refused(lower, rows, arg)
  {
    if hit.Some? {
      var i :| 0 <= i < |ids| && ids[i] == hit.value;
      assert Duplicate(lower, rows[i].store.fields, arg);
    } else {
      forall i | 0 <= i < |rows|
        ensures !Duplicate(lower, rows[i].store.fields, arg)
      {
        assert ids[i] in ids;
      }
    }
  }

  lemma ListsOneMore(s: State, t: State, ids: seq<nat>, rows: seq<Row>, id: nat, f: Fields)
    requires Lists(s, ids, rows) && id !in s.table && forall k :: k in s.table ==> s.table[k].order < s.commits
    requires t.table == s.table[id := Entry(f, s.commits, true, false)]
    ensures Lists(t, ids + [id], Append(rows, f))
  {
    forall k
      ensures k in ids + [id] <==> k in t.table
    {
      assert k in ids + [id] <==> k in ids || k == id;
    }
    assert forall i :: 0 <= i < |ids| ==> ids[i] in ids;
  }

  /** Run alone, the steps do what the serial save does to the rows in commit order: the
      check matches exactly when the save would refuse, and then nothing changes; otherwise
      one draft is appended. */
  lemma SoloIsSerial(lower: char -> char, s: State, c: nat, arg: Fields, hit: Option<nat>, id: nat, ids: seq<nat>,
      rows: seq<Row>)
    requires Quiet(s) && Ordered(s) && id !in s.used && Decides(lower, s, arg, hit)
    requires Lists(s, ids, rows)
    ensures ValidRun(lower, s, Solo(c, arg, hit, id))
    ensures hit.Some? <==> Refused(lower, rows, arg)
    ensures var f := Final(lower, s, Solo(c, arg, hit, id));
      Quiet(f) && Lists(f, if hit.Some? then ids else ids + [id], Drafts.Save(lower, rows, arg))
  {
    SoloSteps(lower, s, c, arg, hit, id);
    ListedIsRefused(lower, s, ids, rows, arg, hit);
    if hit.None? {
      ListsOneMore(s, Final(lower, s, Solo(c, arg, hit, id)), ids, rows, id, DraftOf(arg));
    }
  }

  lemma SoloSteps(lower: char -> char, s: State, c: nat, arg: Fields, hit: Option<nat>, id: nat)
    requires Quiet(s) && id !in s.used && Decides(lower, s, arg, hit)
    ensures ValidRun(lower, s, Solo(c, arg, hit, id))
    ensures var f := Final(lower, s, Solo(c, arg, hit, id));
      && Quiet(f)
      && (hit.None? ==> f.used == s.used + {id} && f.commits == s.commits + 1)
      && f.table == if hit.Some? then s.table else s.table[id := Entry(DraftOf(arg), s.commits, true, false)]
  {
    if hit.Some? {
      RunsOn(lower, PastCheck(s, c, arg, hit), ReturnExisting(c), []);
      SoloHead(lower, s, c, arg, hit, [ReturnExisting(c)]);
    } else {
      SoloInsert(lower, s, c, arg, id);
      SoloHead(lower, s, c, arg, hit, [Insert(c, id), Commit(c)]);
    }
  }

  lemma {:induction false} RunsJoin(lower: char -> char, s: State, a: seq<Event>, b: seq<Event>)
    requires ValidRun(lower, s, a) && ValidRun(lower, Final(lower, s, a), b)
    ensures ValidRun(lower, s, a + b)
    ensures Final(lower, s, a + b) == Final(lower, Final(lower, s, a), b)
    decreases |a|
  {
    if a == [] {
      assert a + b == b;
    } else {
      RunsJoin(lower, Next(lower, s, a[0]), a[1..], b);
      assert (a + b)[1..] == a[1..] + b;
    }
  }

  const EMPTY: State := State(map[], {}, 0, None, map[], [])

  /** Two transactions, one after the other, commit x and then y. */
  function Both(x: Fields, y: Fields): seq<Event> { Solo(0, x, None, 0) + Solo(0, y, None, 1) }

  lemma BothCommit(lower: char -> char, x: Fields, y: Fields)
    requires !Duplicate(lower, x, y)
    ensures Init(EMPTY) && ValidRun(lower, EMPTY, Both(x, y))
    ensures var f := Final(lower, EMPTY, Both(x, y));
      f.table == map[0 := Entry(DraftOf(x), 0, true, false), 1 := Entry(DraftOf(y), 1, true, false)]
  {
    SoloSteps(lower, EMPTY, 0, x, None, 0);
    var mid := Final(lower, EMPTY, Solo(0, x, None, 0));
    assert forall k :: k in mid.table ==> mid.table[k].fields == DraftOf(x);
    IdentityDecides(lower, x, DraftOf(x), y, y);
    SoloSteps(lower, mid, 0, y, None, 1);
    RunsJoin(lower, EMPTY, Solo(0, x, None, 0), Solo(0, y, None, 1));
  }

  /** Without alignment a second page of the same place does commit a draft that, stored
      first, would have kept the earlier one out. */
  lemma UnalignedCanBeRepeated(lower: char -> char, x: Fields)
    requires !Aligned(lower, x)
    ensures var y := Mirror(lower, x);
      && Init(EMPTY) && ValidRun(lower, EMPTY, Both(x, y))
      && var f := Final(lower, EMPTY, Both(x, y));
         && IsDraft(f, 0) && IsDraft(f, 1) && f.table[0].order < f.table[1].order
         && f.table[0].fields == DraftOf(x) && f.table[1].fields == DraftOf(y)
         && Duplicate(lower, f.table[1].fields, f.table[0].fields)
  {
    var y := Mirror(lower, x);
    MirrorSlipsIn(lower, x);
    BothCommit(lower, x, y);
    IdentityDecides(lower, y, DraftOf(y), x, DraftOf(x));
  }

  /** Two captured pages of one place: the first gives its address as a plain string that
      ends in a tab, the second ends it cleanly; names and URLs differ. */
  function Page(url: string, name: string, address: string): Fields {
    Fields(1, name, address, 0.0, 0.0, false, Draft, "", 2, OnRequest, None, "", "", url, "")
  }

  const UNTIDY: Fields := Page("https://a.example/", "Komeko Cafe", "Shibuya 1\t")
  const TIDY: Fields := Page("https://b.example/", "Komeko", "Shibuya 1")

  lemma TabIsKept()
    ensures BTrim("Shibuya 1\t") == "Shibuya 1\t" && TrimSpace("Shibuya 1\t") == "Shibuya 1"
    ensures BTrim("Shibuya 1") == "Shibuya 1" == TrimSpace("Shibuya 1")
    ensures BTrim("Komeko Cafe") == "Komeko Cafe" == TrimSpace("Komeko Cafe")
    ensures BTrim("Komeko") == "Komeko" == TrimSpace("Komeko")
  {
    var s := "Shibuya 1\t";
    assert s[..|s| - 1] == "Shibuya 1";
  }

  /** The concrete pair: the first is not aligned, both are committed, and the second would
      have kept the first out. */
  lemma UntidyAddressIsRepeated()
    ensures var id := (c: char) => c;
      && !Aligned(id, UNTIDY) && Duplicate(id, TIDY, UNTIDY) && !Duplicate(id, UNTIDY, TIDY)
      && Init(EMPTY) && ValidRun(id, EMPTY, Both(UNTIDY, TIDY))
      && var f := Final(id, EMPTY, Both(UNTIDY, TIDY));
         && IsDraft(f, 0) && IsDraft(f, 1) && f.table[0].order < f.table[1].order
         && Duplicate(id, f.table[1].fields, f.table[0].fields)
  {
    var id := (c: char) => c;
    TabIsKept();
    LowerDiffers(id, "Shibuya 1\t", "Shibuya 1");
    LowerDiffers(id, "Komeko Cafe", "Komeko");
    assert SameAddress(id, TIDY, UNTIDY);
    BothCommit(id, UNTIDY, TIDY);
    IdentityDecides(id, TIDY, DraftOf(TIDY), UNTIDY, DraftOf(UNTIDY));
  }
}

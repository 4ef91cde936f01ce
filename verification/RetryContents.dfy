/** Repeating a crawl, up to ids and creation order: which drafts the table ends with. */
module RetryContents {
  import opened Text
  import opened Stores
  import opened Extract
  import opened Crawl
  import opened Drafts
  import DraftTransaction
  import opened CrawlRetry

  /** What the rows after the first n say. */
  function Added(n: nat, rows: seq<Row>): set<Fields> {
    set i | n <= i < |rows| :: rows[i].store.fields
  }

  lemma AddedBySave(lower: char -> char, n: nat, rows: seq<Row>, arg: Fields)
    requires n <= |rows|
    ensures Added(n, Drafts.Save(lower, rows, arg)) ==
      Added(n, rows) + if Refused(lower, rows, arg) then {} else {DraftOf(arg)}
  {
    if !Refused(lower, rows, arg) {
      var more := Append(rows, DraftOf(arg));
      assert forall i :: 0 <= i < |rows| ==> more[i] == rows[i];
      forall f
        ensures f in Added(n, more) <==> f in Added(n, rows) + {DraftOf(arg)}
      {
        if f in Added(n, rows) {
          var i :| n <= i < |rows| && rows[i].store.fields == f;
          assert more[i].store.fields == f;
        }
        assert more[|rows|].store.fields == DraftOf(arg);
      }
    }
  }

  /** Argument j is let in, as g, by the rows saved before it. */
  predicate LetIn(lower: char -> char, rows: seq<Row>, args: seq<Fields>, j: nat, g: Fields) {
    j < |args| && DraftOf(args[j]) == g && !Refused(lower, SaveAll(lower, rows, args[..j]), args[j])
  }

  lemma StillLetIn(lower: char -> char, rows: seq<Row>, args: seq<Fields>, j: nat, g: Fields)
    requires args != [] && LetIn(lower, rows, args[..|args| - 1], j, g)
    ensures LetIn(lower, rows, args, j, g)
  {
    assert args[..|args| - 1][..j] == args[..j];
  }

  lemma LetInOne(lower: char -> char, n: nat, before: seq<Row>, arg: Fields, g: Fields)
    requires n <= |before| && g in Added(n, Drafts.Save(lower, before, arg)) && g !in Added(n, before)
    ensures !Refused(lower, before, arg) && DraftOf(arg) == g
  {
    AddedBySave(lower, n, before, arg);
  }

  lemma LetInLast(lower: char -> char, rows: seq<Row>, args: seq<Fields>, g: Fields)
    requires args != []
    requires g in Added(|rows|, SaveAll(lower, rows, args))
    requires g !in Added(|rows|, SaveAll(lower, rows, args[..|args| - 1]))
    ensures LetIn(lower, rows, args, |args| - 1, g)
  {
    var init := args[..|args| - 1];
    SaveAllKeeps(lower, rows, init);
    LetInOne(lower, |rows|, SaveAll(lower, rows, init), args[|args| - 1], g);
  }

  /** A draft not yet there after m arguments is let in by a later one. */
  lemma {:induction false} LetInLater(lower: char -> char, rows: seq<Row>, args: seq<Fields>, m: nat, g: Fields)
    requires m < |args|
    requires g in Added(|rows|, SaveAll(lower, rows, args)) && g !in Added(|rows|, SaveAll(lower, rows, args[..m]))
    ensures exists j: nat :: m <= j && LetIn(lower, rows, args, j, g)
  {
    var init := args[..|args| - 1];
    assert init[..m] == args[..m];
    if m < |init| && g in Added(|rows|, SaveAll(lower, rows, init)) {
      LetInLater(lower, rows, init, m, g);
      var j: nat :| m <= j && LetIn(lower, rows, init, j, g);
      StillLetIn(lower, rows, args, j, g);
    } else {
      assert m == |init| ==> init[..m] == init;
      LetInLast(lower, rows, args, g);
    }
  }

  lemma RefusedByContents(lower: char -> char, n: nat, rows: seq<Row>, more: seq<Row>, arg: Fields)
    requires n <= |rows| && n <= |more| && rows[..n] == more[..n]
    requires Added(n, rows) <= Added(n, more) && Refused(lower, rows, arg)
    ensures Refused(lower, more, arg)
  {
    var i :| 0 <= i < |rows| && Drafts.Duplicate(lower, rows[i].store.fields, arg);
    if i < n {
      assert more[i] == rows[..n][i];
    } else {
      assert rows[i].store.fields in Added(n, rows);
      var k :| n <= k < |more| && more[k].store.fields == rows[i].store.fields;
    }
  }

  /** Who keeps `arg` out of `now` although `before` would let it in. */
  lemma NewRefuser(lower: char -> char, n: nat, before: seq<Row>, now: seq<Row>, arg: Fields, part: set<Fields>)
    returns (g: Fields)
    requires n <= |before| && n <= |now| && forall i :: 0 <= i < n ==> before[i] == now[i]
    requires !Refused(lower, before, arg) && Refused(lower, now, arg)
    requires Added(n, now) == part + Added(n, before)
    ensures g in part && g !in Added(n, before) && Drafts.Duplicate(lower, g, arg)
  {
    var i :| 0 <= i < |now| && Drafts.Duplicate(lower, now[i].store.fields, arg);
    g := now[i].store.fields;
    assert i >= n;
    assert g in Added(n, now);
  }

  lemma OnlyItself(lower: char -> char, rows: seq<Row>, args: seq<Fields>, m: nat, j: nat)
    requires KeepsSpaces(lower) && m <= j < |args| && DraftTransaction.Aligned(lower, args[m])
    requires !Refused(lower, SaveAll(lower, rows, args[..m]), args[m])
    requires LetIn(lower, rows, args, j, DraftOf(args[j])) && Drafts.Duplicate(lower, DraftOf(args[j]), args[m])
    ensures j == m
  {
    if j > m {
      SavedBefore(lower, rows, args, m, j);
      DraftTransaction.AlignedIsSymmetric(lower, args[m], args[j]);
    }
  }

  /** A candidate that an undisturbed run lets in is kept out by a draft of that run that is
      not there yet only if the draft is its own. */
  lemma KeptOutByItself(lower: char -> char, rows: seq<Row>, args: seq<Fields>, m: nat, g: Fields)
    requires KeepsSpaces(lower) && m < |args| && DraftTransaction.Aligned(lower, args[m])
    requires !Refused(lower, SaveAll(lower, rows, args[..m]), args[m])
    requires g in Added(|rows|, SaveAll(lower, rows, args)) && g !in Added(|rows|, SaveAll(lower, rows, args[..m]))
    requires Drafts.Duplicate(lower, g, args[m])
    ensures g == DraftOf(args[m])
  {
    LetInLater(lower, rows, args, m, g);
    var j: nat :| m <= j && LetIn(lower, rows, args, j, g);
    OnlyItself(lower, rows, args, m, j);
  }

  /** What an earlier argument left does not match a later one that is let in. */
  lemma SavedBefore(lower: char -> char, rows: seq<Row>, args: seq<Fields>, m: nat, j: nat)
    requires m < j < |args|
    requires !Refused(lower, SaveAll(lower, rows, args[..m]), args[m])
    requires !Refused(lower, SaveAll(lower, rows, args[..j]), args[j])
    ensures !Drafts.Duplicate(lower, args[m], args[j])
  {
    var upTo := args[..m + 1];
    assert upTo[..m] == args[..m];
    var early, late := SaveAll(lower, rows, upTo), SaveAll(lower, rows, args[..j]);
    SaveAllMonotone(lower, rows, args[..j], m + 1);
    assert args[..j][..m + 1] == upTo;
    assert early <= late;
    var k := |early| - 1;
    assert early[k].store.fields == DraftOf(args[m]) && late[k] == early[k];
    assert !Drafts.Duplicate(lower, late[k].store.fields, args[j]);
  }

  lemma RetryStep(lower: char -> char, n: nat, before: seq<Row>, now: seq<Row>, arg: Fields, part: set<Fields>)
    requires n <= |before| && n <= |now| && Added(n, now) == part + Added(n, before)
    requires Refused(lower, before, arg) ==> Refused(lower, now, arg)
    requires !Refused(lower, before, arg) && Refused(lower, now, arg) ==> DraftOf(arg) in Added(n, now)
    ensures Added(n, Drafts.Save(lower, now, arg)) == part + Added(n, Drafts.Save(lower, before, arg))
  {
    AddedBySave(lower, n, now, arg);
    AddedBySave(lower, n, before, arg);
  }

  /** What the failed run left, all of it drafts of the undisturbed one. */
  ghost predicate PartOf(lower: char -> char, rows: seq<Row>, part: seq<Row>, args: seq<Fields>) {
    rows <= part && Added(|rows|, part) <= Added(|rows|, SaveAll(lower, rows, args))
  }

  lemma RetryAddsNext(lower: char -> char, rows: seq<Row>, part: seq<Row>, args: seq<Fields>, m: nat,
      before: seq<Row>, now: seq<Row>)
    requires KeepsSpaces(lower) && m < |args| && DraftTransaction.Aligned(lower, args[m])
    requires PartOf(lower, rows, part, args)
    requires before == SaveAll(lower, rows, args[..m]) && rows <= before && rows <= now
    requires Added(|rows|, now) == Added(|rows|, part) + Added(|rows|, before)
    ensures Added(|rows|, Drafts.Save(lower, now, args[m])) ==
            Added(|rows|, part) + Added(|rows|, Drafts.Save(lower, before, args[m]))
  {
    if Refused(lower, before, args[m]) {
      RefusedByContents(lower, |rows|, before, now, args[m]);
    } else if Refused(lower, now, args[m]) {
      var g := NewRefuser(lower, |rows|, before, now, args[m], Added(|rows|, part));
      KeptOutByItself(lower, rows, args, m, g);
    }
    RetryStep(lower, |rows|, before, now, args[m], Added(|rows|, part));
  }

  lemma {:induction false} RetryAdds(lower: char -> char, rows: seq<Row>, part: seq<Row>, args: seq<Fields>, m: nat)
    requires KeepsSpaces(lower) && m <= |args|
    requires (forall k :: 0 <= k < |args| ==> DraftTransaction.Aligned(lower, args[k]))
    requires PartOf(lower, rows, part, args)
    ensures Added(|rows|, SaveAll(lower, part, args[..m])) ==
      Added(|rows|, part) + Added(|rows|, SaveAll(lower, rows, args[..m]))
  {
    if m > 0 {
      RetryAdds(lower, rows, part, args, m - 1);
      var init := args[..m - 1];
      assert args[..m][..m - 1] == init;
      SaveAllKeeps(lower, part, init);
      SaveAllKeeps(lower, rows, init);
      RetryAddsNext(lower, rows, part, args, m - 1, SaveAll(lower, rows, init), SaveAll(lower, part, init));
    }
  }

  /** Retry after any failures whatever, drafts compared up to ids and order, for candidates
      whose name and address carry no odd edge white space: the retry ends with the drafts of
      one undisturbed run exactly when the failed run left none that such a run would not. */
  lemma RetrySameDraftsExactlyWhen(cut: World, w: World, limit: nat, rows: seq<Row>, raws: seq<string>)
    requires Disturbs(cut, w) && KeepsSpaces(w.lower)
    requires forall f :: f in Seeds(w, limit, Start(rows), raws).kept ==> DraftTransaction.Aligned(w.lower, f)
    ensures var part, full := Left(cut, limit, rows, raws), Left(w, limit, rows, raws);
      Added(|rows|, Left(w, limit, part, raws)) == Added(|rows|, full) <==> Added(|rows|, part) <= Added(|rows|, full)
  {
    var part := Left(cut, limit, rows, raws);
    var kept := Seeds(w, limit, Start(rows), raws).kept;
    RetryExactlyWhen(cut, w, limit, rows, raws);
    UndisturbedFrom(w, limit, rows, part, raws);
    UndisturbedFrom(w, limit, rows, rows, raws);
    SaveAllKeeps(w.lower, part, kept);
    AddedMonotone(|rows|, part, Left(w, limit, part, raws));
    if Added(|rows|, part) <= Added(|rows|, Left(w, limit, rows, raws)) {
      RetryAdds(w.lower, rows, part, kept, |kept|);
      assert kept[..|kept|] == kept;
    }
  }

  lemma AddedMonotone(n: nat, rows: seq<Row>, more: seq<Row>)
    requires rows <= more
    ensures Added(n, rows) <= Added(n, more)
  {
    forall f | f in Added(n, rows)
      ensures f in Added(n, more)
    {
      var i :| n <= i < |rows| && rows[i].store.fields == f;
      assert more[i] == rows[i];
    }
  }

  // ----- without alignment -----

  /** Two seed pages of different places at one address, the first of which ends in a tab. */
  function TabCandidate(url: string): Candidate {
    Candidate(url, if url == "A" then "w\t" else "w", "", "", url)
  }

  function TabWorld(fault: nat -> Fault): World {
    World(s => Some(s), url => Captured(TabCandidate(url)), c => c, Ward(1, "w", "w"), fault)
  }

  function TabFields(url: string): Fields { DraftFields(TabWorld(k => Fine), TabCandidate(url)) }

  lemma TabInWard(w: World, url: string)
    requires w == TabWorld(w.fault)
    ensures InWard(w, TabCandidate(url).address)
  {
    assert OccursAt(Lower(w.lower, TabCandidate(url).address), Lower(w.lower, "w"), 0);
  }

  /** One seed: its draft is saved unless that call is lost. */
  lemma TabSeed(w: World, run: Run, url: string)
    requires w == TabWorld(w.fault) && url !in run.seen && w.fault(run.clock) == Fine
    requires w.fault(run.clock + 1) == Fine || w.fault(run.clock + 1) == Lost
    ensures var after := Seed(w, 2, run, url);
      && after.seen == run.seen + {url} && after.clock == run.clock + 2
      && |after.log| == |run.log| + 1 && |after.outcomes| == |run.outcomes| + 1
      && after.rows == if w.fault(run.clock + 1) == Fine then Drafts.Save(w.lower, run.rows, TabFields(url))
         else run.rows
  {
    TabInWard(w, url);
    DraftedShape(w, SeedFetched(w, run, url), url, TabCandidate(url));
    assert DraftFields(w, TabCandidate(url)) == TabFields(url);
  }

  lemma TabCrawl(w: World, rows: seq<Row>)
    requires w == TabWorld(w.fault) && forall k :: k != 1 ==> w.fault(k) == Fine
    requires w.fault(1) == Fine || w.fault(1) == Lost
    ensures Left(w, 2, rows, ["A", "B"]) ==
      Drafts.Save(w.lower, if w.fault(1) == Fine then Drafts.Save(w.lower, rows, TabFields("A")) else rows,
        TabFields("B"))
  {
    TabSeed(w, Start(rows), "A");
    var a := Seed(w, 2, Start(rows), "A");
    TabSeed(w, a, "B");
    var b := Seed(w, 2, a, "B");
    assert Seeds(w, 2, Start(rows), ["A", "B"]) == Seeds(w, 2, a, ["B"]) == Seeds(w, 2, b, []) == b;
  }

  lemma TabDecides(lower: char -> char)
    requires forall c :: lower(c) == c
    ensures Drafts.Duplicate(lower, TabFields("B"), TabFields("A"))
    ensures !Drafts.Duplicate(lower, TabFields("A"), TabFields("B"))
    ensures !DraftTransaction.Aligned(lower, TabFields("A"))
  {
    var s := "w\t";
    assert s[..|s| - 1] == "w";
    assert TrimSpace(s) == "w" && BTrim(s) == s && BTrim("w") == "w" == TrimSpace("w");
    assert BTrim("A") == "A" == TrimSpace("A") && BTrim("B") == "B" == TrimSpace("B");
    assert Lower(lower, "w") == "w" && Lower(lower, s) == s && Lower(lower, "A")[0] != Lower(lower, "B")[0];
    assert |Lower(lower, s)| == 2;
    assert Drafts.SameAddress(lower, TabFields("B"), TabFields("A"));
  }

  function One(f: Fields): seq<Row> { [Row(0, Store(f, None, None))] }

  lemma SavedFirst(lower: char -> char, f: Fields)
    requires DraftOf(f) == f
    ensures Drafts.Save(lower, [], f) == One(f) && Added(0, One(f)) == {f}
  {
    assert One(f)[0].store.fields == f;
  }

  lemma SavedSecond(lower: char -> char, f: Fields, g: Fields)
    requires DraftOf(g) == g
    ensures Added(0, Drafts.Save(lower, One(f), g)) == {f} + if Drafts.Duplicate(lower, f, g) then {} else {g}
    ensures Drafts.Duplicate(lower, f, g) ==> Drafts.Save(lower, One(f), g) == One(f)
  {
    assert One(f)[0].store.fields == f;
    AddedBySave(lower, 0, One(f), g);
    assert Refused(lower, One(f), g) <==> Drafts.Duplicate(lower, f, g);
  }

  lemma TabPart(cut: World)
    requires cut == TabWorld(cut.fault) && cut.fault(1) == Lost && forall k :: k != 1 ==> cut.fault(k) == Fine
    ensures Left(cut, 2, [], ["A", "B"]) == One(TabFields("B")) && Added(0, One(TabFields("B"))) == {TabFields("B")}
  {
    TabCrawl(cut, []);
    SavedFirst(cut.lower, TabFields("B"));
  }

  lemma TabFull(w: World)
    requires w == TabWorld(w.fault) && Clean(w)
    ensures Added(0, Left(w, 2, [], ["A", "B"])) == {TabFields("A"), TabFields("B")}
  {
    TabCrawl(w, []);
    TabDecides(w.lower);
    SavedFirst(w.lower, TabFields("A"));
    SavedSecond(w.lower, TabFields("A"), TabFields("B"));
  }

  lemma TabRetry(w: World)
    requires w == TabWorld(w.fault) && Clean(w)
    ensures Left(w, 2, One(TabFields("B")), ["A", "B"]) == One(TabFields("B"))
  {
    TabCrawl(w, One(TabFields("B")));
    TabDecides(w.lower);
    SavedSecond(w.lower, TabFields("B"), TabFields("A"));
    SavedSecond(w.lower, TabFields("B"), TabFields("B"));
  }

  /** The alignment in RetrySameDraftsExactlyWhen is needed: the save of the first page is
      lost, that of the second is not. An undisturbed run keeps both drafts, so the failed one
      left none that it would not; but the retry takes the first for the second. */
  lemma UnalignedRetryLosesADraft()
    ensures var w, cut := TabWorld(k => Fine), TabWorld(k => if k == 1 then Lost else Fine);
      var part, full := Left(cut, 2, [], ["A", "B"]), Left(w, 2, [], ["A", "B"]);
      && Disturbs(cut, w)
      && Added(0, part) == {TabFields("B")} && Added(0, full) == {TabFields("A"), TabFields("B")}
      && Added(0, Left(w, 2, part, ["A", "B"])) == {TabFields("B")} != Added(0, full)
  {
    var w, cut := TabWorld(k => Fine), TabWorld(k => if k == 1 then Lost else Fine);
    TabPart(cut);
    TabFull(w);
    TabRetry(w);
    assert TabFields("A").name != TabFields("B").name;
  }
}

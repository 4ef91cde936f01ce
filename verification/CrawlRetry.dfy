/** Repeating a crawl: what a retry after an interruption leaves in the table. */
module CrawlRetry {
  import opened Text
  import opened Stores
  import opened Extract
  import opened Crawl
  import Drafts

  ghost predicate Clean(w: World) { forall k :: w.fault(k) == Fine }

  /** Once a call fails, every later call fails without effect: the request timed out,
      was cancelled, or its process died. The first failing save may have committed. */
  ghost predicate CutOff(fault: nat -> Fault) {
    forall j, k :: j < k && fault(j) != Fine ==> fault(k) == Lost
  }

  /** The same world, with failures. */
  ghost predicate Disturbs(cut: World, w: World) {
    cut == w.(fault := cut.fault) && Clean(w)
  }

  function Demoted(o: Outcome): Outcome {
    if o.status.Created? then o.(status := Duplicate) else o
  }

  /** The two runs agree on all but the table and on which saves were new. */
  ghost predicate Alike(a: Run, b: Run) {
    && a.seen == b.seen && a.log == b.log && a.clock == b.clock && a.kept == b.kept
    && |a.outcomes| == |b.outcomes|
    && forall i :: 0 <= i < |a.outcomes| ==> Demoted(a.outcomes[i]) == Demoted(b.outcomes[i])
  }

  // ----- the table is the committed drafts, saved in order -----

  /** The table after a run is what saving its committed drafts in order makes of `rows`. */
  ghost predicate Saves(w: World, rows: seq<Row>, run: Run) {
    run.rows == Drafts.SaveAll(w.lower, rows, run.kept)
  }

  lemma SaveAllSnoc(lower: char -> char, rows: seq<Row>, kept: seq<Fields>, f: Fields)
    ensures Drafts.SaveAll(lower, rows, kept + [f]) == Drafts.Save(lower, Drafts.SaveAll(lower, rows, kept), f)
  {
    assert (kept + [f])[..|kept|] == kept;
  }

  lemma SaveGrows(lower: char -> char, rows: seq<Row>, f: Fields)
    ensures rows <= Drafts.Save(lower, rows, f)
  {
  }

  lemma DraftedSaves(w: World, run: Run, url: string, c: Candidate, rows: seq<Row>)
    requires Saves(w, rows, run)
    ensures Saves(w, rows, Drafted(w, run, url, c).0) && run.rows <= Drafted(w, run, url, c).0.rows
  {
    DraftedShape(w, run, url, c);
    SaveAllSnoc(w.lower, rows, run.kept, DraftFields(w, c));
    SaveGrows(w.lower, run.rows, DraftFields(w, c));
  }

  lemma FollowOneSaves(w: World, run: Run, link: string, rows: seq<Row>)
    requires Saves(w, rows, run)
    ensures Saves(w, rows, FollowOne(w, run, link)) && run.rows <= FollowOne(w, run, link).rows
  {
    if link !in run.seen && Answer(w, run, link).Captured? {
      DraftedSaves(w, Fetched(run, link, 0), link, Answer(w, run, link).candidate, rows);
    }
  }

  lemma {:induction false} FollowSaves(w: World, limit: nat, run: Run, links: seq<string>, rows: seq<Row>)
    requires Saves(w, rows, run)
    ensures Saves(w, rows, Follow(w, limit, run, links)) && run.rows <= Follow(w, limit, run, links).rows
    decreases |links|
  {
    if links != [] && !Exhausted(limit, run) {
      FollowOneSaves(w, run, links[0], rows);
      FollowSaves(w, limit, FollowOne(w, run, links[0]), links[1..], rows);
    }
  }

  lemma SeedSaves(w: World, limit: nat, run: Run, raw: string, rows: seq<Row>)
    requires Saves(w, rows, run)
    ensures Saves(w, rows, Seed(w, limit, run, raw)) && run.rows <= Seed(w, limit, run, raw).rows
  {
    if w.parse(raw).Some? && w.parse(raw).value !in run.seen {
      var url := w.parse(raw).value;
      var fetched := SeedFetched(w, run, url);
      match Answer(w, run, url)
      case Captured(c) => DraftedSaves(w, fetched, url, c, rows);
      case NotSingle(links) => FollowSaves(w, limit, fetched, links, rows);
    }
  }

  lemma {:induction false} SeedsSaves(w: World, limit: nat, run: Run, raws: seq<string>, rows: seq<Row>)
    requires Saves(w, rows, run)
    ensures Saves(w, rows, Seeds(w, limit, run, raws)) && run.rows <= Seeds(w, limit, run, raws).rows
    decreases |raws|
  {
    if raws != [] && !Exhausted(limit, run) {
      SeedSaves(w, limit, run, raws[0], rows);
      SeedsSaves(w, limit, Seed(w, limit, run, raws[0]), raws[1..], rows);
    }
  }

  // ----- an undisturbed crawl takes the same course on every table -----

  /** Two runs draft the same candidate: they stay in step, or a save fails in the first. */
  lemma DraftedAlike(cut: World, w: World, a: Run, b: Run, url: string, c: Candidate)
    requires Disturbs(cut, w) && Alike(a, b)
    ensures var (a', oa) := Drafted(cut, a, url, c); var (b', ob) := Drafted(w, b, url, c);
      && (InWard(cut, c.address) <==> InWard(w, c.address))
      && (if cut.fault(a.clock) == Fine || !InWard(w, c.address) then
            Alike(a', b') && Demoted(oa) == Demoted(ob) && ob.status != Failed(NotSaved)
          else a'.kept <= b'.kept && a'.clock == a.clock + 1)
  {
    DraftedShape(cut, a, url, c);
    DraftedShape(w, b, url, c);
    assert DraftFields(cut, c) == DraftFields(w, c);
    assert Drafted(cut, a, url, c).1.status == Failed(NotSaved)
      || Demoted(Drafted(cut, a, url, c).1) == Demoted(Drafted(w, b, url, c).1);
  }

  lemma ReportAlike(a: Run, b: Run, oa: Outcome, ob: Outcome)
    requires Alike(a, b) && Demoted(oa) == Demoted(ob)
    ensures Alike(Report(a, oa), Report(b, ob))
  {
  }

  lemma FollowOneAlike(w: World, a: Run, b: Run, link: string)
    requires Clean(w) && Alike(a, b)
    ensures Alike(FollowOne(w, a, link), FollowOne(w, b, link))
  {
    if link !in a.seen && w.pages(link).Captured? {
      var c, fa, fb := w.pages(link).candidate, Fetched(a, link, 0), Fetched(b, link, 0);
      DraftedAlike(w, w, fa, fb, link, c);
      var (a', oa) := Drafted(w, fa, link, c);
      var (b', ob) := Drafted(w, fb, link, c);
      ReportAlike(a', b', oa, ob);
    }
  }

  lemma {:induction false} FollowAlike(w: World, limit: nat, a: Run, b: Run, links: seq<string>)
    requires Clean(w) && Alike(a, b)
    ensures Alike(Follow(w, limit, a, links), Follow(w, limit, b, links))
    decreases |links|
  {
    if links != [] && !Exhausted(limit, a) {
      FollowOneAlike(w, a, b, links[0]);
      FollowAlike(w, limit, FollowOne(w, a, links[0]), FollowOne(w, b, links[0]), links[1..]);
    }
  }

  lemma SeedAlike(w: World, limit: nat, a: Run, b: Run, raw: string)
    requires Clean(w) && Alike(a, b)
    ensures Alike(Seed(w, limit, a, raw), Seed(w, limit, b, raw))
  {
    if w.parse(raw).Some? && w.parse(raw).value !in a.seen {
      var url := w.parse(raw).value;
      var fa, fb := SeedFetched(w, a, url), SeedFetched(w, b, url);
      match w.pages(url)
      case Captured(c) =>
        DraftedAlike(w, w, fa, fb, url, c);
        ReportAlike(Drafted(w, fa, url, c).0, Drafted(w, fb, url, c).0,
          Drafted(w, fa, url, c).1, Drafted(w, fb, url, c).1);
      case NotSingle(links) =>
        FollowAlike(w, limit, fa, fb, links);
    }
  }

  lemma {:induction false} SeedsAlike(w: World, limit: nat, a: Run, b: Run, raws: seq<string>)
    requires Clean(w) && Alike(a, b)
    ensures Alike(Seeds(w, limit, a, raws), Seeds(w, limit, b, raws))
    decreases |raws|
  {
    if raws != [] && !Exhausted(limit, a) {
      SeedAlike(w, limit, a, b, raws[0]);
      SeedsAlike(w, limit, Seed(w, limit, a, raws[0]), Seed(w, limit, b, raws[0]), raws[1..]);
    }
  }

  // ----- what a crawl commits, and when -----

  /** Drafts are only added, each committed by a later call that did not get lost. */
  ghost predicate Grows(w: World, run: Run, after: Run) {
    && run.kept <= after.kept && run.at <= after.at && run.clock <= after.clock
    && |after.at| - |run.at| == |after.kept| - |run.kept|
    && forall i :: |run.at| <= i < |after.at| ==> run.clock <= after.at[i] && w.fault(after.at[i]) != Lost
  }

  lemma GrowsOn(w: World, run: Run, mid: Run, after: Run)
    requires Grows(w, run, mid) && Grows(w, mid, after)
    ensures Grows(w, run, after)
  {
  }

  lemma DraftedGrows(w: World, run: Run, url: string, c: Candidate)
    ensures Grows(w, run, Drafted(w, run, url, c).0)
  {
    DraftedShape(w, run, url, c);
  }

  lemma FollowOneGrows(w: World, run: Run, link: string)
    ensures Grows(w, run, FollowOne(w, run, link))
  {
    if link !in run.seen && Answer(w, run, link).Captured? {
      DraftedGrows(w, Fetched(run, link, 0), link, Answer(w, run, link).candidate);
    }
  }

  lemma {:induction false} FollowGrows(w: World, limit: nat, run: Run, links: seq<string>)
    ensures Grows(w, run, Follow(w, limit, run, links))
    decreases |links|
  {
    if links != [] && !Exhausted(limit, run) {
      var one := FollowOne(w, run, links[0]);
      FollowOneGrows(w, run, links[0]);
      FollowGrows(w, limit, one, links[1..]);
      GrowsOn(w, run, one, Follow(w, limit, one, links[1..]));
    }
  }

  lemma SeedGrows(w: World, limit: nat, run: Run, raw: string)
    ensures Grows(w, run, Seed(w, limit, run, raw))
  {
    if w.parse(raw).Some? && w.parse(raw).value !in run.seen {
      var url := w.parse(raw).value;
      var fetched := SeedFetched(w, run, url);
      match Answer(w, run, url)
      case Captured(c) => DraftedGrows(w, fetched, url, c);
      case NotSingle(links) => FollowGrows(w, limit, fetched, links);
    }
  }

  lemma {:induction false} SeedsGrow(w: World, limit: nat, run: Run, raws: seq<string>)
    ensures Grows(w, run, Seeds(w, limit, run, raws))
    decreases |raws|
  {
    if raws != [] && !Exhausted(limit, run) {
      var one := Seed(w, limit, run, raws[0]);
      SeedGrows(w, limit, run, raws[0]);
      SeedsGrow(w, limit, one, raws[1..]);
      GrowsOn(w, run, one, Seeds(w, limit, one, raws[1..]));
    }
  }

  // ----- a crawl that commits nothing after its first failure -----

  ghost predicate Alive(w: World, run: Run) { forall k :: 0 <= k < run.clock ==> w.fault(k) == Fine }

  /** Every draft the run committed, it committed before any call had failed; the first
      failing call may itself be a save that committed. */
  ghost predicate KeptInTime(w: World, run: Run) {
    forall i, k :: 0 <= i < |run.at| && 0 <= k < run.at[i] ==> w.fault(k) == Fine
  }

  lemma InTimeBefore(w: World, run: Run, after: Run)
    requires Grows(w, run, after) && KeptInTime(w, after)
    ensures KeptInTime(w, run)
  {
    assert forall i :: 0 <= i < |run.at| ==> run.at[i] == after.at[i];
  }

  lemma DeadKeepsNothing(w: World, run: Run, after: Run)
    requires Grows(w, run, after) && !Alive(w, run)
    ensures !Alive(w, after) && (KeptInTime(w, after) ==> after.kept == run.kept)
  {
    var j :| 0 <= j < run.clock && w.fault(j) != Fine;
    if |after.at| > |run.at| {
      assert after.at[|run.at|] >= run.clock > j;
      assert !KeptInTime(w, after);
    }
  }

  /** In step until the first failure; behind ever after. */
  ghost predicate Behind(cut: World, a: Run, b: Run) {
    if Alive(cut, a) then Alike(a, b) else a.kept <= b.kept
  }

  lemma DeadIsBehind(cut: World, a: Run, a': Run, b: Run, b': Run)
    requires Grows(cut, a, a') && KeptInTime(cut, a') && !Alive(cut, a)
    requires a.kept <= b.kept <= b'.kept
    ensures Behind(cut, a', b')
  {
    DeadKeepsNothing(cut, a, a');
  }

  lemma FollowOneFailedBehind(cut: World, w: World, a: Run, b: Run, link: string)
    requires Disturbs(cut, w) && Alive(cut, a) && Alike(a, b) && link !in a.seen && cut.fault(a.clock) != Fine
    ensures Behind(cut, FollowOne(cut, a, link), FollowOne(w, b, link))
  {
    FollowOneGrows(w, b, link);
    var a' := FollowOne(cut, a, link);
    assert a'.kept == a.kept && a'.clock > a.clock && !Alive(cut, a');
  }

  lemma FollowOneCapturedBehind(cut: World, w: World, a: Run, b: Run, link: string)
    requires Disturbs(cut, w) && Alive(cut, a) && Alike(a, b) && link !in a.seen && cut.fault(a.clock) == Fine
    requires w.pages(link).Captured?
    ensures Behind(cut, FollowOne(cut, a, link), FollowOne(w, b, link))
  {
    var c, fa, fb := w.pages(link).candidate, Fetched(a, link, 0), Fetched(b, link, 0);
    DraftedAlike(cut, w, fa, fb, link, c);
    var (a', oa) := Drafted(cut, fa, link, c);
    var (b', ob) := Drafted(w, fb, link, c);
    DraftedShape(cut, fa, link, c);
    if cut.fault(fa.clock) == Fine || !InWard(w, c.address) {
      ReportAlike(a', b', oa, ob);
    } else {
      assert a'.clock > fa.clock && !Alive(cut, FollowOne(cut, a, link));
    }
  }

  lemma FollowOneBehind(cut: World, w: World, a: Run, b: Run, link: string)
    requires Disturbs(cut, w) && Behind(cut, a, b) && KeptInTime(cut, FollowOne(cut, a, link))
    ensures Behind(cut, FollowOne(cut, a, link), FollowOne(w, b, link))
  {
    if !Alive(cut, a) {
      FollowOneGrows(cut, a, link);
      FollowOneGrows(w, b, link);
      DeadIsBehind(cut, a, FollowOne(cut, a, link), b, FollowOne(w, b, link));
    } else if link !in a.seen {
      if cut.fault(a.clock) != Fine {
        FollowOneFailedBehind(cut, w, a, b, link);
      } else if w.pages(link).Captured? {
        FollowOneCapturedBehind(cut, w, a, b, link);
      }
    }
  }

  lemma {:induction false} FollowBehind(cut: World, w: World, limit: nat, a: Run, b: Run, links: seq<string>)
    requires Disturbs(cut, w) && Behind(cut, a, b) && KeptInTime(cut, Follow(cut, limit, a, links))
    ensures Behind(cut, Follow(cut, limit, a, links), Follow(w, limit, b, links))
    decreases |links|
  {
    if !Alive(cut, a) {
      FollowGrows(cut, limit, a, links);
      FollowGrows(w, limit, b, links);
      DeadIsBehind(cut, a, Follow(cut, limit, a, links), b, Follow(w, limit, b, links));
    } else if links != [] && !Exhausted(limit, a) {
      var one := FollowOne(cut, a, links[0]);
      FollowGrows(cut, limit, one, links[1..]);
      InTimeBefore(cut, one, Follow(cut, limit, a, links));
      FollowOneBehind(cut, w, a, b, links[0]);
      FollowBehind(cut, w, limit, one, FollowOne(w, b, links[0]), links[1..]);
    }
  }

  lemma SeedBehind(cut: World, w: World, limit: nat, a: Run, b: Run, raw: string)
    requires Disturbs(cut, w) && Behind(cut, a, b) && KeptInTime(cut, Seed(cut, limit, a, raw))
    ensures Behind(cut, Seed(cut, limit, a, raw), Seed(w, limit, b, raw))
  {
    if !Alive(cut, a) {
      SeedGrows(cut, limit, a, raw);
      SeedGrows(w, limit, b, raw);
      DeadIsBehind(cut, a, Seed(cut, limit, a, raw), b, Seed(w, limit, b, raw));
    } else if w.parse(raw).Some? && w.parse(raw).value !in a.seen {
      if cut.fault(a.clock) != Fine {
        SeedFailedBehind(cut, w, limit, a, b, raw);
      } else if w.pages(w.parse(raw).value).Captured? {
        SeedCapturedBehind(cut, w, limit, a, b, raw);
      } else {
        SeedListingBehind(cut, w, limit, a, b, raw);
      }
    }
  }

  lemma SeedFailedBehind(cut: World, w: World, limit: nat, a: Run, b: Run, raw: string)
    requires Disturbs(cut, w) && Alive(cut, a) && Alike(a, b)
    requires w.parse(raw).Some? && w.parse(raw).value !in a.seen && cut.fault(a.clock) != Fine
    ensures Behind(cut, Seed(cut, limit, a, raw), Seed(w, limit, b, raw))
  {
    SeedGrows(w, limit, b, raw);
    var a' := Seed(cut, limit, a, raw);
    assert a'.kept == a.kept && !Alive(cut, a');
  }

  lemma SeedCapturedBehind(cut: World, w: World, limit: nat, a: Run, b: Run, raw: string)
    requires Disturbs(cut, w) && Alive(cut, a) && Alike(a, b)
    requires w.parse(raw).Some? && w.parse(raw).value !in a.seen
    requires cut.fault(a.clock) == Fine && w.pages(w.parse(raw).value).Captured?
    ensures Behind(cut, Seed(cut, limit, a, raw), Seed(w, limit, b, raw))
  {
    var url := w.parse(raw).value;
    var c, fa, fb := w.pages(url).candidate, SeedFetched(cut, a, url), SeedFetched(w, b, url);
    DraftedAlike(cut, w, fa, fb, url, c);
    var (a', oa) := Drafted(cut, fa, url, c);
    var (b', ob) := Drafted(w, fb, url, c);
    if cut.fault(fa.clock) == Fine || !InWard(w, c.address) {
      ReportAlike(a', b', oa, ob);
    } else {
      assert a'.clock > fa.clock && !Alive(cut, Seed(cut, limit, a, raw));
    }
  }

  lemma SeedListingBehind(cut: World, w: World, limit: nat, a: Run, b: Run, raw: string)
    requires Disturbs(cut, w) && Alive(cut, a) && Alike(a, b) && KeptInTime(cut, Seed(cut, limit, a, raw))
    requires w.parse(raw).Some? && w.parse(raw).value !in a.seen
    requires cut.fault(a.clock) == Fine && w.pages(w.parse(raw).value).NotSingle?
    ensures Behind(cut, Seed(cut, limit, a, raw), Seed(w, limit, b, raw))
  {
    var url := w.parse(raw).value;
    var fa, fb, links := SeedFetched(cut, a, url), SeedFetched(w, b, url), w.pages(url).links;
    if links != [] {
      assert Alive(cut, fa) && Alike(fa, fb);
      var after := Follow(cut, limit, fa, links);
      assert Seed(cut, limit, a, raw).at == after.at;
      FollowBehind(cut, w, limit, fa, fb, links);
    }
  }

  lemma {:induction false} SeedsBehind(cut: World, w: World, limit: nat, a: Run, b: Run, raws: seq<string>)
    requires Disturbs(cut, w) && Behind(cut, a, b) && KeptInTime(cut, Seeds(cut, limit, a, raws))
    ensures Behind(cut, Seeds(cut, limit, a, raws), Seeds(w, limit, b, raws))
    decreases |raws|
  {
    if !Alive(cut, a) {
      SeedsGrow(cut, limit, a, raws);
      SeedsGrow(w, limit, b, raws);
      DeadIsBehind(cut, a, Seeds(cut, limit, a, raws), b, Seeds(w, limit, b, raws));
    } else if raws != [] && !Exhausted(limit, a) {
      var one := Seed(cut, limit, a, raws[0]);
      SeedsGrow(cut, limit, one, raws[1..]);
      InTimeBefore(cut, one, Seeds(cut, limit, a, raws));
      SeedBehind(cut, w, limit, a, b, raws[0]);
      SeedsBehind(cut, w, limit, one, Seed(w, limit, b, raws[0]), raws[1..]);
    }
  }

  /** The table a crawl leaves behind. */
  function Left(w: World, limit: nat, rows: seq<Row>, raws: seq<string>): seq<Row> {
    Seeds(w, limit, Start(rows), raws).rows
  }

  lemma UndisturbedFrom(w: World, limit: nat, rows: seq<Row>, part: seq<Row>, raws: seq<string>)
    requires Clean(w)
    ensures Left(w, limit, part, raws) == Drafts.SaveAll(w.lower, part, Seeds(w, limit, Start(rows), raws).kept)
  {
    SeedsSaves(w, limit, Start(part), raws, part);
    SeedsAlike(w, limit, Start(rows), Start(part), raws);
  }

  /** Retry after any failures whatever: nothing already saved is lost or changed, and
      the final table is the undisturbed one exactly when the drafts the failed run
      left are a prefix of those an undisturbed run leaves. */
  lemma RetryExactlyWhen(cut: World, w: World, limit: nat, rows: seq<Row>, raws: seq<string>)
    requires Disturbs(cut, w)
    ensures var part, full := Left(cut, limit, rows, raws), Left(w, limit, rows, raws);
      && rows <= part <= Left(w, limit, part, raws)
      && (Left(w, limit, part, raws) == full <==> part <= full)
  {
    var part := Left(cut, limit, rows, raws);
    var kept := Seeds(w, limit, Start(rows), raws).kept;
    SeedsSaves(cut, limit, Start(rows), raws, rows);
    UndisturbedFrom(w, limit, rows, part, raws);
    UndisturbedFrom(w, limit, rows, rows, raws);
    Drafts.SaveAllKeeps(w.lower, part, kept);
    if part <= Left(w, limit, rows, raws) {
      Drafts.SaveAllResumes(w.lower, rows, part, kept);
    }
  }

  /** A failed run that committed nothing after its first failure can be retried: the retry
      leaves exactly the rows of one undisturbed run. */
  lemma InTimeRetryConverges(cut: World, w: World, limit: nat, rows: seq<Row>, raws: seq<string>)
    requires Disturbs(cut, w) && KeptInTime(cut, Seeds(cut, limit, Start(rows), raws))
    ensures Left(w, limit, Left(cut, limit, rows, raws), raws) == Left(w, limit, rows, raws)
  {
    var a, b := Seeds(cut, limit, Start(rows), raws), Seeds(w, limit, Start(rows), raws);
    SeedsSaves(cut, limit, Start(rows), raws, rows);
    SeedsSaves(w, limit, Start(rows), raws, rows);
    SeedsBehind(cut, w, limit, Start(rows), Start(rows), raws);
    assert a.kept <= b.kept;
    Drafts.SaveAllMonotone(w.lower, rows, b.kept, |a.kept|);
    assert b.kept[..|a.kept|] == a.kept;
    RetryExactlyWhen(cut, w, limit, rows, raws);
  }

  /** So a batch that timed out, was cancelled or crashed can be retried. */
  lemma RetryConverges(cut: World, w: World, limit: nat, rows: seq<Row>, raws: seq<string>)
    requires Disturbs(cut, w) && CutOff(cut.fault)
    ensures Left(w, limit, Left(cut, limit, rows, raws), raws) == Left(w, limit, rows, raws)
  {
    var a := Seeds(cut, limit, Start(rows), raws);
    SeedsGrow(cut, limit, Start(rows), raws);
    forall i, k | 0 <= i < |a.at| && 0 <= k < a.at[i]
      ensures cut.fault(k) == Fine
    {
      assert cut.fault(a.at[i]) != Lost;
    }
    InTimeRetryConverges(cut, w, limit, rows, raws);
  }

  // ----- running again -----

  function CreatedCount(outcomes: seq<Outcome>): nat {
    if outcomes == [] then 0
    else CreatedCount(outcomes[..|outcomes| - 1]) + if outcomes[|outcomes| - 1].status.Created? then 1 else 0
  }

  lemma CreatedSnoc(outcomes: seq<Outcome>, o: Outcome)
    ensures CreatedCount(outcomes + [o]) == CreatedCount(outcomes) + if o.status.Created? then 1 else 0
  {
    assert (outcomes + [o])[..|outcomes|] == outcomes;
  }

  /** Each "created" row of the answer is one new table row, and conversely. */
  ghost predicate Balanced(start: seq<Row>, run: Run) {
    |run.rows| == |start| + CreatedCount(run.outcomes)
  }

  lemma DraftedBalanced(w: World, run: Run, url: string, c: Candidate, start: seq<Row>)
    requires Clean(w) && Balanced(start, run)
    ensures var (after, out) := Drafted(w, run, url, c);
      && after.outcomes == run.outcomes
      && Balanced(start, Report(after, out))
      && (out.status.Failed? ==> Balanced(start, after))
  {
    var (after, out) := Drafted(w, run, url, c);
    CreatedSnoc(run.outcomes, out);
  }

  lemma {:induction false} FollowBalanced(w: World, limit: nat, run: Run, links: seq<string>, start: seq<Row>)
    requires Clean(w) && Balanced(start, run)
    ensures Balanced(start, Follow(w, limit, run, links))
    decreases |links|
  {
    if links != [] && !Exhausted(limit, run) {
      if links[0] !in run.seen && w.pages(links[0]).Captured? {
        DraftedBalanced(w, Fetched(run, links[0], 0), links[0], w.pages(links[0]).candidate, start);
      }
      FollowBalanced(w, limit, FollowOne(w, run, links[0]), links[1..], start);
    }
  }

  lemma SeedBalanced(w: World, limit: nat, run: Run, raw: string, start: seq<Row>)
    requires Clean(w) && Balanced(start, run)
    ensures Balanced(start, Seed(w, limit, run, raw))
  {
    match w.parse(raw)
    case None => CreatedSnoc(run.outcomes, Outcome(raw, Failed(BadUrl)));
    case Some(url) =>
      if url !in run.seen {
        var fetched := SeedFetched(w, run, url);
        match w.pages(url)
        case Captured(c) => DraftedBalanced(w, fetched, url, c, start);
        case NotSingle(links) =>
          CreatedSnoc(run.outcomes, Outcome(url, Failed(CaptureFailed)));
          FollowBalanced(w, limit, fetched, links, start);
          CreatedSnoc(Follow(w, limit, fetched, links).outcomes, Outcome(url, Failed(BarrenListing(|links|))));
      }
  }

  lemma {:induction false} SeedsBalanced(w: World, limit: nat, run: Run, raws: seq<string>, start: seq<Row>)
    requires Clean(w) && Balanced(start, run)
    ensures Balanced(start, Seeds(w, limit, run, raws))
    decreases |raws|
  {
    if raws != [] && !Exhausted(limit, run) {
      SeedBalanced(w, limit, run, raws[0], start);
      SeedsBalanced(w, limit, Seed(w, limit, run, raws[0]), raws[1..], start);
    }
  }

  lemma {:induction false} NoneCreated(outcomes: seq<Outcome>)
    requires CreatedCount(outcomes) == 0
    ensures forall i :: 0 <= i < |outcomes| ==> !outcomes[i].status.Created?
  {
    if outcomes != [] {
      NoneCreated(outcomes[..|outcomes| - 1]);
      forall i | 0 <= i < |outcomes| - 1
        ensures !outcomes[i].status.Created?
      {
        assert outcomes[..|outcomes| - 1][i] == outcomes[i];
      }
    }
  }

  /** Running an undisturbed crawl again inserts nothing and answers the same rows,
      with every "created" turned into "duplicate". */
  lemma SecondRunOnlyRecognises(w: World, limit: nat, rows: seq<Row>, raws: seq<string>)
    requires Clean(w)
    ensures var one := Seeds(w, limit, Start(rows), raws);
      var two := Seeds(w, limit, Start(one.rows), raws);
      && |one.rows| - |rows| == CreatedCount(one.outcomes)
      && two.rows == one.rows
      && |two.outcomes| == |one.outcomes|
      && forall i :: 0 <= i < |one.outcomes| ==> two.outcomes[i] == Demoted(one.outcomes[i])
  {
    var one := Seeds(w, limit, Start(rows), raws);
    var two := Seeds(w, limit, Start(one.rows), raws);
    UndisturbedFrom(w, limit, rows, rows, raws);
    UndisturbedFrom(w, limit, rows, one.rows, raws);
    Drafts.SaveAllKeeps(w.lower, rows, one.kept);
    Drafts.SaveAllResumes(w.lower, rows, one.rows, one.kept);
    SeedsBalanced(w, limit, Start(rows), raws, rows);
    SeedsBalanced(w, limit, Start(one.rows), raws, one.rows);
    SeedsAlike(w, limit, Start(rows), Start(one.rows), raws);
    NoneCreated(two.outcomes);
  }

  // ----- a single lost save is not enough of an interruption -----

  function ExampleCandidate(source: string): Candidate { Candidate(source, "w" + source, "", "", source) }

  /** A listing page L with two in-ward entries A and B. */
  function ExampleWorld(fault: nat -> Fault): World {
    World(
      s => Some(s),
      url => if url == "L" then NotSingle(["A", "B"]) else Captured(ExampleCandidate(url)),
      c => c,
      Ward(1, "w", "w"),
      fault)
  }

  lemma ExampleInWard(w: World, source: string)
    requires w == ExampleWorld(w.fault)
    ensures InWard(w, ExampleCandidate(source).address)
  {
    assert OccursAt(Lower(w.lower, "w" + source), Lower(w.lower, "w"), 0);
  }

  lemma ExampleClean(w: World, rows: seq<Row>)
    requires w == ExampleWorld(w.fault) && w.fault(0) == w.fault(1) == w.fault(2) == Fine
    ensures Left(w, 1, rows, ["L"]) == Drafts.Save(w.lower, rows, DraftFields(w, ExampleCandidate("A")))
  {
    ExampleInWard(w, "A");
    var l := SeedFetched(w, Start(rows), "L");
    var a := FollowOne(w, l, "A");
    assert |a.outcomes| == 1;
    assert Follow(w, 1, l, ["A", "B"]) == Follow(w, 1, a, ["B"]) == a;
    assert Seed(w, 1, Start(rows), "L") == a;
    assert Seeds(w, 1, Start(rows), ["L"]) == Seeds(w, 1, a, []) == a;
  }

  lemma ExampleCut(cut: World)
    requires cut == ExampleWorld(cut.fault) && cut.fault(2) == Lost
    requires forall k :: k != 2 ==> cut.fault(k) == Fine
    ensures Left(cut, 1, [], ["L"]) == [Row(0, Store(DraftFields(cut, ExampleCandidate("B")), None, None))]
  {
    ExampleInWard(cut, "A");
    ExampleInWard(cut, "B");
    var l := SeedFetched(cut, Start([]), "L");
    var a := FollowOne(cut, l, "A");
    var b := FollowOne(cut, a, "B");
    assert a.outcomes == [] && a.rows == [] && a.clock == 3 && a.seen == {"L", "A"};
    assert |b.outcomes| == 1 && b.rows == [Row(0, Store(DraftFields(cut, ExampleCandidate("B")), None, None))];
    assert Follow(cut, 1, l, ["A", "B"]) == Follow(cut, 1, a, ["B"]) == Follow(cut, 1, b, []) == b;
    assert Seed(cut, 1, Start([]), "L") == b;
    assert Seeds(cut, 1, Start([]), ["L"]) == Seeds(cut, 1, b, []) == b;
  }

  lemma LetInBeside(lower: char -> char, b: Fields, a: Fields)
    requires !Drafts.Duplicate(lower, b, a)
    ensures |Drafts.Save(lower, [Row(0, Store(b, None, None))], a)| == 2 && |Drafts.Save(lower, [], a)| == 1
  {
    assert !Drafts.Refused(lower, [Row(0, Store(b, None, None))], a);
  }

  /** When only the save of A is lost, the crawl goes on to B, and the retry then adds
      A: two drafts where an undisturbed run, asked for one, leaves one. */
  lemma LostSaveLeavesAnExtraDraft()
    ensures var w, cut := ExampleWorld(k => Fine), ExampleWorld(k => if k == 2 then Lost else Fine);
      && |Left(w, 1, [], ["L"])| == 1
      && |Left(w, 1, Left(cut, 1, [], ["L"]), ["L"])| == 2
  {
    var w, cut := ExampleWorld(k => Fine), ExampleWorld(k => if k == 2 then Lost else Fine);
    var a, b := DraftFields(w, ExampleCandidate("A")), DraftFields(w, ExampleCandidate("B"));
    ExampleCut(cut);
    ExampleClean(w, []);
    ExampleClean(w, [Row(0, Store(b, None, None))]);
    ExampleDistinct(w.lower, b, a);
    LetInBeside(w.lower, b, a);
  }

  lemma ExampleDistinct(lower: char -> char, b: Fields, a: Fields)
    requires forall c :: lower(c) == c
    requires a.sourceUrl == a.name == "A" && b.sourceUrl == b.name == "B" && a.address == "wA" && b.address == "wB"
    ensures !Drafts.Duplicate(lower, b, a)
  {
    assert Trim("A", IsSpace) == "A" && Trim("wA", IsSpace) == "wA";
    assert Trim("B", IsBlank) == "B" && Trim("wB", IsBlank) == "wB";
    assert Lower(lower, "A")[0] != Lower(lower, "B")[0];
    assert Lower(lower, "wA")[1] != Lower(lower, "wB")[1];
  }
}

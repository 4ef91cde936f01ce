/** Repeating a crawl whose calls failed here and there: what the failed run itself tells about
    whether a retry still ends with the undisturbed drafts. */
module RetryBudget {
  import opened Text
  import opened Stores
  import opened Extract
  import opened Crawl
  import opened CrawlRetry
  import opened RetryContents
  import CrawlRuns
  import Drafts

  /** What the run reported and what it may have failed to report. */
  function Spent(run: Run): nat { |run.outcomes| + run.misses }

  /** A linked page that failed may have been worth one draft, so the failed run can be a
      little short, in outcomes and in drafts, of the undisturbed one; otherwise they agree. */
  ghost predicate Short(a: Run, b: Run) {
    && a.seen == b.seen && a.log == b.log
    && |a.outcomes| <= |b.outcomes| <= Spent(a)
    && forall f :: f in a.kept ==> f in b.kept
  }

  /** As far as one step goes: no draft is committed without being reported or missed. */
  ghost predicate Pays(run: Run, after: Run) {
    && run.kept <= after.kept && run.outcomes <= after.outcomes && run.misses <= after.misses
    && |after.kept| - |run.kept| <= Spent(after) - Spent(run)
    && (run.blind ==> after.blind)
  }

  lemma FollowOnePays(w: World, run: Run, link: string)
    ensures Pays(run, FollowOne(w, run, link)) && FollowOne(w, run, link).blind == run.blind
  {
    if link !in run.seen && Answer(w, run, link).Captured? {
      DraftedShape(w, Fetched(run, link, 0), link, Answer(w, run, link).candidate);
    }
  }

  lemma {:induction false} FollowPays(w: World, limit: nat, run: Run, links: seq<string>)
    ensures Pays(run, Follow(w, limit, run, links)) && Follow(w, limit, run, links).blind == run.blind
    decreases |links|
  {
    if links != [] && !Exhausted(limit, run) {
      FollowOnePays(w, run, links[0]);
      FollowPays(w, limit, FollowOne(w, run, links[0]), links[1..]);
    }
  }

  lemma SeedPays(w: World, limit: nat, run: Run, raw: string)
    ensures Pays(run, Seed(w, limit, run, raw))
    ensures CrawlRuns.NewSeed(w, run, raw) && w.fault(run.clock) != Fine ==> Seed(w, limit, run, raw).blind
  {
    if CrawlRuns.NewSeed(w, run, raw) {
      var url := w.parse(raw).value;
      var fetched := SeedFetched(w, run, url);
      match Answer(w, run, url)
      case Captured(c) => DraftedShape(w, fetched, url, c);
      case NotSingle(links) => FollowPays(w, limit, fetched, links);
    }
  }

  lemma {:induction false} SeedsPay(w: World, limit: nat, run: Run, raws: seq<string>)
    ensures Pays(run, Seeds(w, limit, run, raws))
    decreases |raws|
  {
    if raws != [] && !Exhausted(limit, run) {
      SeedPays(w, limit, run, raws[0]);
      SeedsPay(w, limit, Seed(w, limit, run, raws[0]), raws[1..]);
    }
  }

  // ----- the failed run stays short of the undisturbed one, or is past its limit -----

  lemma DraftedShort(cut: World, w: World, a: Run, b: Run, url: string, c: Candidate)
    requires Disturbs(cut, w) && Short(a, b)
    ensures var (a', oa) := Drafted(cut, a, url, c); var (b', ob) := Drafted(w, b, url, c);
      && Short(a', b')
      && (InWard(w, c.address) ==> !ob.status.Failed? && (oa.status.Failed? <==> oa.status == Failed(NotSaved)))
      && (!InWard(w, c.address) ==> oa.status == ob.status == Failed(WrongWard))
  {
    DraftedShape(cut, a, url, c);
    DraftedShape(w, b, url, c);
    assert InWard(cut, c.address) == InWard(w, c.address);
    assert DraftFields(cut, c) == DraftFields(w, c);
  }

  lemma FollowOneShort(cut: World, w: World, a: Run, b: Run, link: string)
    requires Disturbs(cut, w) && Short(a, b)
    ensures var a', b' := FollowOne(cut, a, link), FollowOne(w, b, link);
      Short(a', b') && |a'.outcomes| - |a.outcomes| <= |b'.outcomes| - |b.outcomes|
  {
    if link !in a.seen {
      var fa, fb := Fetched(a, link, 0), Fetched(b, link, 0);
      if w.pages(link).Captured? {
        DraftedShape(w, fb, link, w.pages(link).candidate);
        if cut.fault(a.clock) == Fine {
          DraftedShape(cut, fa, link, w.pages(link).candidate);
          DraftedShort(cut, w, fa, fb, link, w.pages(link).candidate);
        }
      }
    }
  }

  /** The undisturbed run has filled its limit; the failed one may go on, at its own cost. */
  ghost predicate Past(limit: nat, a: Run, b: Run) {
    && |b.outcomes| >= limit && Spent(a) >= limit
    && forall f :: f in a.kept ==> f in b.kept
  }

  lemma PastStays(limit: nat, a: Run, a': Run, b: Run)
    requires Past(limit, a, b) && Pays(a, a') && Spent(a') <= limit
    ensures Past(limit, a', b)
  {
  }

  lemma {:induction false} FollowShort(cut: World, w: World, limit: nat, a: Run, b: Run, links: seq<string>)
    requires Disturbs(cut, w) && Short(a, b) && Spent(Follow(cut, limit, a, links)) <= limit
    ensures var a', b' := Follow(cut, limit, a, links), Follow(w, limit, b, links);
      || Past(limit, a', b')
      || (Short(a', b') && |a'.outcomes| - |a.outcomes| <= |b'.outcomes| - |b.outcomes|)
    decreases |links|
  {
    if links != [] && !Exhausted(limit, a) {
      FollowPays(cut, limit, a, links);
      if Exhausted(limit, b) {
        PastStays(limit, a, Follow(cut, limit, a, links), b);
      } else {
        FollowOneShort(cut, w, a, b, links[0]);
        FollowShort(cut, w, limit, FollowOne(cut, a, links[0]), FollowOne(w, b, links[0]), links[1..]);
      }
    }
  }

  lemma SeedCapturedShort(cut: World, w: World, limit: nat, a: Run, b: Run, raw: string)
    requires Disturbs(cut, w) && Short(a, b) && CrawlRuns.NewSeed(w, a, raw) && cut.fault(a.clock) == Fine
    requires w.pages(w.parse(raw).value).Captured?
    ensures Short(Seed(cut, limit, a, raw), Seed(w, limit, b, raw))
  {
    var url := w.parse(raw).value;
    DraftedShape(cut, SeedFetched(cut, a, url), url, w.pages(url).candidate);
    DraftedShape(w, SeedFetched(w, b, url), url, w.pages(url).candidate);
    DraftedShort(cut, w, SeedFetched(cut, a, url), SeedFetched(w, b, url), url, w.pages(url).candidate);
  }

  lemma SeedListingShort(cut: World, w: World, limit: nat, a: Run, b: Run, raw: string)
    requires Disturbs(cut, w) && Short(a, b) && CrawlRuns.NewSeed(w, a, raw) && cut.fault(a.clock) == Fine
    requires w.pages(w.parse(raw).value).NotSingle? && Spent(Seed(cut, limit, a, raw)) <= limit
    ensures var a', b' := Seed(cut, limit, a, raw), Seed(w, limit, b, raw); Short(a', b') || Past(limit, a', b')
  {
    var url := w.parse(raw).value;
    var links := w.pages(url).links;
    var fa, fb := SeedFetched(cut, a, url), SeedFetched(w, b, url);
    if links != [] {
      FollowPays(cut, limit, fa, links);
      FollowPays(w, limit, fb, links);
      FollowShort(cut, w, limit, fa, fb, links);
    }
  }

  lemma SeedShort(cut: World, w: World, limit: nat, a: Run, b: Run, raw: string)
    requires Disturbs(cut, w) && Short(a, b)
    requires var a' := Seed(cut, limit, a, raw); !a'.blind && Spent(a') <= limit
    ensures var a', b' := Seed(cut, limit, a, raw), Seed(w, limit, b, raw); Short(a', b') || Past(limit, a', b')
  {
    SeedPays(cut, limit, a, raw);
    if CrawlRuns.NewSeed(w, a, raw) {
      if w.pages(w.parse(raw).value).Captured? {
        SeedCapturedShort(cut, w, limit, a, b, raw);
      } else {
        SeedListingShort(cut, w, limit, a, b, raw);
      }
    }
  }

  lemma {:induction false} SeedsShort(cut: World, w: World, limit: nat, a: Run, b: Run, raws: seq<string>)
    requires Disturbs(cut, w) && (Short(a, b) || Past(limit, a, b))
    requires var a' := Seeds(cut, limit, a, raws); !a'.blind && Spent(a') <= limit
    ensures var a', b' := Seeds(cut, limit, a, raws), Seeds(w, limit, b, raws); Short(a', b') || Past(limit, a', b')
    decreases |raws|
  {
    SeedsPay(cut, limit, a, raws);
    if Past(limit, a, b) {
      PastStays(limit, a, Seeds(cut, limit, a, raws), b);
    } else if raws != [] && !Exhausted(limit, a) {
      if Exhausted(limit, b) {
        PastStays(limit, a, Seeds(cut, limit, a, raws), b);
      } else {
        var one := Seed(cut, limit, a, raws[0]);
        SeedsPay(cut, limit, one, raws[1..]);
        SeedShort(cut, w, limit, a, b, raws[0]);
        SeedsShort(cut, w, limit, one, Seed(w, limit, b, raws[0]), raws[1..]);
      }
    }
  }

  // ----- candidates that are not taken for each other -----

  ghost predicate IsCandidate(w: World, f: Fields) {
    exists u :: w.pages(u).Captured? && f == DraftFields(w, w.pages(u).candidate)
  }

  /** No page's candidate would, stored, keep out another's, unless they say the same. */
  ghost predicate NoTwins(w: World) {
    forall f, g :: IsCandidate(w, f) && IsCandidate(w, g) && Drafts.Duplicate(w.lower, f, g) ==> f == g
  }

  ghost predicate FromPages(w: World, kept: seq<Fields>) { forall f :: f in kept ==> IsCandidate(w, f) }

  lemma FollowOneFromPages(w: World, run: Run, link: string)
    requires FromPages(w, run.kept)
    ensures FromPages(w, FollowOne(w, run, link).kept)
  {
    if link !in run.seen && Answer(w, run, link).Captured? {
      DraftedShape(w, Fetched(run, link, 0), link, w.pages(link).candidate);
      assert IsCandidate(w, DraftFields(w, w.pages(link).candidate));
    }
  }

  lemma {:induction false} FollowFromPages(w: World, limit: nat, run: Run, links: seq<string>)
    requires FromPages(w, run.kept)
    ensures FromPages(w, Follow(w, limit, run, links).kept)
    decreases |links|
  {
    if links != [] && !Exhausted(limit, run) {
      FollowOneFromPages(w, run, links[0]);
      FollowFromPages(w, limit, FollowOne(w, run, links[0]), links[1..]);
    }
  }

  lemma SeedFromPages(w: World, limit: nat, run: Run, raw: string)
    requires FromPages(w, run.kept)
    ensures FromPages(w, Seed(w, limit, run, raw).kept)
  {
    if CrawlRuns.NewSeed(w, run, raw) {
      var url := w.parse(raw).value;
      match Answer(w, run, url)
      case Captured(c) =>
        DraftedShape(w, SeedFetched(w, run, url), url, c);
        assert IsCandidate(w, DraftFields(w, c));
      case NotSingle(links) => FollowFromPages(w, limit, SeedFetched(w, run, url), links);
    }
  }

  lemma {:induction false} SeedsFromPages(w: World, limit: nat, run: Run, raws: seq<string>)
    requires FromPages(w, run.kept)
    ensures FromPages(w, Seeds(w, limit, run, raws).kept)
    decreases |raws|
  {
    if raws != [] && !Exhausted(limit, run) {
      SeedFromPages(w, limit, run, raws[0]);
      SeedsFromPages(w, limit, Seed(w, limit, run, raws[0]), raws[1..]);
    }
  }

  /** The candidates that the initial rows let in. */
  function Welcome(lower: char -> char, rows: seq<Row>, args: seq<Fields>): set<Fields> {
    set k | k in args && !Drafts.Refused(lower, rows, k)
  }

  /** A draft added by a run of candidates is one of them, and says what it said. */
  lemma WelcomeIsDraft(w: World, f: Fields)
    requires IsCandidate(w, f)
    ensures Drafts.DraftOf(f) == f
  {
  }

  /** Then saving candidates adds exactly those the initial rows let in, in any order. */
  lemma {:induction false} SavedAreTheWelcome(w: World, rows: seq<Row>, args: seq<Fields>)
    requires NoTwins(w) && FromPages(w, args)
    ensures rows <= Drafts.SaveAll(w.lower, rows, args)
    ensures Added(|rows|, Drafts.SaveAll(w.lower, rows, args)) == Welcome(w.lower, rows, args)
  {
    if args != [] {
      var init, k := args[..|args| - 1], args[|args| - 1];
      assert args == init + [k] && k in args;
      SavedAreTheWelcome(w, rows, init);
      SavedOneMore(w, rows, init, Drafts.SaveAll(w.lower, rows, init), k);
    }
  }

  lemma SavedOneMore(w: World, rows: seq<Row>, init: seq<Fields>, before: seq<Row>, k: Fields)
    requires NoTwins(w) && FromPages(w, init) && IsCandidate(w, k)
    requires rows <= before && Added(|rows|, before) == Welcome(w.lower, rows, init)
    ensures rows <= Drafts.Save(w.lower, before, k)
    ensures Added(|rows|, Drafts.Save(w.lower, before, k)) == Welcome(w.lower, rows, init + [k])
  {
    SaveGrows(w.lower, before, k);
    AddedBySave(w.lower, |rows|, before, k);
    WelcomeIsDraft(w, k);
    assert forall f :: f in init + [k] <==> f in init || f == k;
    RefusedByRowsOrItself(w, rows, init, before, k);
  }

  /** A candidate is refused because the initial rows refuse it or because it is there. */
  lemma RefusedByRowsOrItself(w: World, rows: seq<Row>, init: seq<Fields>, before: seq<Row>, k: Fields)
    requires NoTwins(w) && FromPages(w, init) && IsCandidate(w, k)
    requires rows <= before && Added(|rows|, before) == Welcome(w.lower, rows, init)
    ensures Drafts.Refused(w.lower, rows, k) ==> Drafts.Refused(w.lower, before, k)
    ensures Drafts.Refused(w.lower, before, k) && !Drafts.Refused(w.lower, rows, k) ==> k in Added(|rows|, before)
  {
    if Drafts.Refused(w.lower, rows, k) {
      Drafts.MoreRowsRefuseMore(w.lower, rows, before, k);
    } else if i :| 0 <= i < |before| && Drafts.Duplicate(w.lower, before[i].store.fields, k) {
      assert i >= |rows|;
      assert before[i].store.fields in Added(|rows|, before);
    }
  }

  lemma {:induction false} SaveAllJoins(lower: char -> char, rows: seq<Row>, a: seq<Fields>, b: seq<Fields>)
    ensures Drafts.SaveAll(lower, rows, a + b) == Drafts.SaveAll(lower, Drafts.SaveAll(lower, rows, a), b)
  {
    if b == [] {
      assert a + b == a;
    } else {
      SaveAllJoins(lower, rows, a, b[..|b| - 1]);
      assert (a + b)[..|a + b| - 1] == a + b[..|b| - 1];
    }
  }

  /** Calls failed, but never the fetch of a seed page, and the outcomes together with the
      linked pages that failed stay within the limit; and no two pages' candidates are taken
      for each other. Then a retry ends, up to ids and order, with the drafts of one
      undisturbed run. */
  lemma RetryWithinBudgetConverges(cut: World, w: World, limit: nat, rows: seq<Row>, raws: seq<string>)
    requires Disturbs(cut, w) && NoTwins(w)
    requires var a := Seeds(cut, limit, Start(rows), raws); !a.blind && |a.outcomes| + a.misses <= limit
    ensures var part, full := Left(cut, limit, rows, raws), Left(w, limit, rows, raws);
      Added(|rows|, Left(w, limit, part, raws)) == Added(|rows|, full)
  {
    var a, b := Seeds(cut, limit, Start(rows), raws), Seeds(w, limit, Start(rows), raws);
    SeedsShort(cut, w, limit, Start(rows), Start(rows), raws);
    SeedsSaves(cut, limit, Start(rows), raws, rows);
    UndisturbedFrom(w, limit, rows, a.rows, raws);
    UndisturbedFrom(w, limit, rows, rows, raws);
    SaveAllJoins(w.lower, rows, a.kept, b.kept);
    SeedsFromPages(w, limit, Start(rows), raws);
    forall f | f in a.kept + b.kept
      ensures IsCandidate(w, f) && f in b.kept
    {
      assert f in a.kept || f in b.kept;
    }
    SavedAreTheWelcome(w, rows, a.kept + b.kept);
    SavedAreTheWelcome(w, rows, b.kept);
    assert forall f :: f in b.kept ==> f in a.kept + b.kept;
  }
}

/** What every crawl keeps to. */
module CrawlRuns {
  import opened Text
  import opened Stores
  import opened Extract
  import opened Crawl

  // ----- the budget -----

  /** A page fetched with maxLinks 0 was listed by a seed page fetched earlier. */
  ghost predicate Listed(w: World, log: seq<Fetch>, i: nat)
    requires i < |log|
  {
    exists j: nat, links: seq<string> ::
      && j < i && log[j].maxLinks > 0
      && w.pages(log[j].url) == NotSingle(links) && log[i].url in links
  }

  ghost predicate Seeded(w: World, raws: seq<string>, f: Fetch) {
    f.maxLinks == MAX_LINKS_PER_PAGE && exists raw :: raw in raws && w.parse(raw) == Some(f.url)
  }

  /** Never a page twice, and never a second hop. */
  ghost predicate OneHop(w: World, raws: seq<string>, seen: set<string>, log: seq<Fetch>) {
    && (forall i, j :: 0 <= i < j < |log| ==> log[i].url != log[j].url)
    && (forall u :: u in seen <==> exists i :: 0 <= i < |log| && log[i].url == u)
    && (forall i :: 0 <= i < |log| ==>
          Seeded(w, raws, log[i]) || (log[i].maxLinks == 0 && Listed(w, log, i)))
  }

  function SeedFetches(log: seq<Fetch>): nat {
    if log == [] then 0
    else SeedFetches(log[..|log| - 1]) + if log[|log| - 1].maxLinks > 0 then 1 else 0
  }

  /** The captured page of that URL places the restaurant in the ward. */
  ghost predicate Placed(w: World, url: string) {
    w.pages(url).Captured? && InWard(w, w.pages(url).candidate.address)
  }

  /** Only in-ward restaurants are reported as saved, or saved. */
  ghost predicate AllPlaced(w: World, outcomes: seq<Outcome>, kept: seq<Fields>) {
    && (forall o :: o in outcomes && !o.status.Failed? ==> Placed(w, o.url))
    && (forall f :: f in kept ==> InWard(w, f.address))
  }

  ghost predicate Bounded(limit: nat, run: Run, owed: nat) {
    && |run.outcomes| + owed <= limit
    && |run.log| <= MAX_FETCHES
    && SeedFetches(run.log) <= |run.outcomes| + owed
  }

  ghost predicate WithinBudget(w: World, limit: nat, raws: seq<string>, run: Run, owed: nat) {
    OneHop(w, raws, run.seen, run.log) && AllPlaced(w, run.outcomes, run.kept) && Bounded(limit, run, owed)
  }

  lemma FetchKeepsOneHop(w: World, raws: seq<string>, run: Run, url: string, maxLinks: nat)
    requires OneHop(w, raws, run.seen, run.log) && url !in run.seen
    requires
      || Seeded(w, raws, Fetch(url, maxLinks))
      || (maxLinks == 0 && exists j: nat, links: seq<string> ::
            j < |run.log| && run.log[j].maxLinks > 0 && w.pages(run.log[j].url) == NotSingle(links) && url in links)
    ensures var after := Fetched(run, url, maxLinks); OneHop(w, raws, after.seen, after.log)
  {
    var log := Fetched(run, url, maxLinks).log;
    assert forall i :: 0 <= i < |run.log| ==> log[i] == run.log[i];
    assert log[|run.log|] == Fetch(url, maxLinks);
    forall i | 0 <= i < |log|
      ensures Seeded(w, raws, log[i]) || (log[i].maxLinks == 0 && Listed(w, log, i))
    {
      if i < |run.log| {
        if !Seeded(w, raws, log[i]) {
          var j: nat, links :| j < i && run.log[j].maxLinks > 0 &&
            w.pages(run.log[j].url) == NotSingle(links) && run.log[i].url in links;
          assert log[j] == run.log[j];
        }
      } else if !Seeded(w, raws, log[i]) {
        var j: nat, links :| j < |run.log| && run.log[j].maxLinks > 0 &&
          w.pages(run.log[j].url) == NotSingle(links) && url in links;
        assert log[j] == run.log[j];
      }
    }
  }

  lemma DraftedKeepsPlaced(w: World, run: Run, url: string, c: Candidate)
    requires AllPlaced(w, run.outcomes, run.kept) && w.pages(url) == Captured(c)
    ensures var (after, out) := Drafted(w, run, url, c);
      && after.outcomes == run.outcomes && after.seen == run.seen && after.log == run.log
      && AllPlaced(w, after.outcomes, after.kept) && AllPlaced(w, after.outcomes + [out], after.kept)
  {
    var (after, out) := Drafted(w, run, url, c);
    var f := DraftFields(w, c);
    assert after.kept == run.kept || (InWard(w, f.address) && after.kept == run.kept + [f]);
    assert !out.status.Failed? ==> Placed(w, out.url);
  }

  /** What following one link does to the outcomes and the log. */
  lemma FollowOneShape(w: World, run: Run, link: string)
    ensures var after := FollowOne(w, run, link);
      && after.seen == run.seen + {link}
      && after.log == (if link in run.seen then run.log else run.log + [Fetch(link, 0)])
      && (|| after.outcomes == run.outcomes
          || (link !in run.seen && exists o :: after.outcomes == run.outcomes + [o] && !o.status.Failed?))
  {
    if link !in run.seen {
      var answer := Answer(w, run, link);
      if answer.Captured? {
        var (_, out) := Drafted(w, Fetched(run, link, 0), link, answer.candidate);
      }
    }
  }

  lemma FollowOnePlaced(w: World, run: Run, link: string)
    requires AllPlaced(w, run.outcomes, run.kept)
    ensures var after := FollowOne(w, run, link); AllPlaced(w, after.outcomes, after.kept)
  {
    if link !in run.seen && Answer(w, run, link).Captured? {
      DraftedKeepsPlaced(w, Fetched(run, link, 0), link, Answer(w, run, link).candidate);
    }
  }

  lemma {:induction false} FollowPlaced(w: World, limit: nat, run: Run, links: seq<string>)
    requires AllPlaced(w, run.outcomes, run.kept)
    ensures var after := Follow(w, limit, run, links); AllPlaced(w, after.outcomes, after.kept)
    decreases |links|
  {
    if links != [] && !Exhausted(limit, run) {
      FollowOnePlaced(w, run, links[0]);
      FollowPlaced(w, limit, FollowOne(w, run, links[0]), links[1..]);
    }
  }

  /** Fetch j was a seed page that listed the link. */
  ghost predicate ListedBy(w: World, log: seq<Fetch>, j: nat, link: string) {
    j < |log| && log[j].maxLinks > 0 && w.pages(log[j].url).NotSingle? && link in w.pages(log[j].url).links
  }

  lemma FollowOneHop(w: World, raws: seq<string>, run: Run, link: string, j: nat)
    requires OneHop(w, raws, run.seen, run.log) && ListedBy(w, run.log, j, link)
    ensures var after := FollowOne(w, run, link); OneHop(w, raws, after.seen, after.log)
  {
    FollowOneShape(w, run, link);
    if link in run.seen {
      assert run.seen + {link} == run.seen;
    } else {
      var links := w.pages(run.log[j].url).links;
      assert w.pages(run.log[j].url) == NotSingle(links);
      FetchKeepsOneHop(w, raws, run, link, 0);
    }
  }

  lemma {:induction false} FollowHops(w: World, limit: nat, raws: seq<string>, run: Run, links: seq<string>, j: nat)
    requires OneHop(w, raws, run.seen, run.log)
    requires forall l :: l in links ==> ListedBy(w, run.log, j, l)
    ensures var after := Follow(w, limit, run, links); OneHop(w, raws, after.seen, after.log)
    decreases |links|
  {
    if links != [] && !Exhausted(limit, run) {
      var one := FollowOne(w, run, links[0]);
      FollowOneHop(w, raws, run, links[0], j);
      FollowOneShape(w, run, links[0]);
      forall l | l in links[1..]
        ensures ListedBy(w, one.log, j, l)
      {
        assert ListedBy(w, run.log, j, l);
      }
      FollowHops(w, limit, raws, one, links[1..], j);
    }
  }

  ghost predicate NoneFailed(added: seq<Outcome>) { forall o :: o in added ==> !o.status.Failed? }

  lemma FollowOneBounded(w: World, limit: nat, run: Run, link: string, owed: nat)
    requires Bounded(limit, run, owed) && owed <= 1 && !Exhausted(limit, run)
    ensures var after := FollowOne(w, run, link);
      && run.outcomes <= after.outcomes && NoneFailed(after.outcomes[|run.outcomes|..])
      && Bounded(limit, after, if |after.outcomes| > |run.outcomes| then 0 else owed)
  {
    FollowOneShape(w, run, link);
    assert (run.log + [Fetch(link, 0)])[..|run.log|] == run.log;
  }

  lemma AddedSplits(from: seq<Outcome>, mid: seq<Outcome>, to: seq<Outcome>)
    requires from <= mid <= to && NoneFailed(mid[|from|..]) && NoneFailed(to[|mid|..])
    ensures from <= to && NoneFailed(to[|from|..])
  {
    assert to[|from|..] == mid[|from|..] + to[|mid|..];
  }

  /** A listing's first saved draft pays what its seed owes. */
  lemma {:induction false} FollowBounded(w: World, limit: nat, run: Run, links: seq<string>, owed: nat)
    requires Bounded(limit, run, owed) && owed <= 1
    ensures var after := Follow(w, limit, run, links);
      && run.outcomes <= after.outcomes && NoneFailed(after.outcomes[|run.outcomes|..])
      && Bounded(limit, after, if |after.outcomes| > |run.outcomes| then 0 else owed)
    decreases |links|
  {
    if links != [] && !Exhausted(limit, run) {
      var one := FollowOne(w, run, links[0]);
      FollowOneBounded(w, limit, run, links[0], owed);
      FollowBounded(w, limit, one, links[1..], if |one.outcomes| > |run.outcomes| then 0 else owed);
      AddedSplits(run.outcomes, one.outcomes, Follow(w, limit, one, links[1..]).outcomes);
    }
  }

  /** What the handler reports for a fetched seed: one outcome, or for a listing its
      saved drafts alone or one summary row alone. */
  ghost predicate Answered(answer: Capture, url: string, added: seq<Outcome>) {
    match answer
    case Captured(_) => |added| == 1 && added[0].url == url
    case NotSingle(links) =>
      if links == [] then added == [Outcome(url, Failed(CaptureFailed))]
      else added == [Outcome(url, Failed(BarrenListing(|links|)))] || (added != [] && NoneFailed(added))
  }

  /** The seed names a page that was not fetched before. */
  predicate NewSeed(w: World, run: Run, raw: string) { w.parse(raw).Some? && w.parse(raw).value !in run.seen }

  lemma SeedHops(w: World, limit: nat, raws: seq<string>, run: Run, raw: string)
    requires OneHop(w, raws, run.seen, run.log) && raw in raws
    ensures var after := Seed(w, limit, run, raw); OneHop(w, raws, after.seen, after.log)
  {
    if NewSeed(w, run, raw) {
      var url := w.parse(raw).value;
      var fetched, answer := SeedFetched(w, run, url), Answer(w, run, url);
      FetchKeepsOneHop(w, raws, run, url, MAX_LINKS_PER_PAGE);
      if answer.NotSingle? && answer.links != [] {
        assert forall l :: l in answer.links ==> ListedBy(w, fetched.log, |run.log|, l);
        FollowHops(w, limit, raws, fetched, answer.links, |run.log|);
      }
    }
  }

  lemma SeedPlaced(w: World, limit: nat, run: Run, raw: string)
    requires AllPlaced(w, run.outcomes, run.kept)
    ensures var after := Seed(w, limit, run, raw); AllPlaced(w, after.outcomes, after.kept)
  {
    if NewSeed(w, run, raw) {
      var url := w.parse(raw).value;
      var fetched, answer := SeedFetched(w, run, url), Answer(w, run, url);
      match answer
      case Captured(c) => DraftedKeepsPlaced(w, fetched, url, c);
      case NotSingle(links) => FollowPlaced(w, limit, fetched, links);
    }
  }

  lemma SeedFetchBounded(limit: nat, run: Run, url: string)
    requires Bounded(limit, run, 0) && !Exhausted(limit, run)
    ensures Bounded(limit, Fetched(run, url, MAX_LINKS_PER_PAGE), 1)
  {
    assert Fetched(run, url, MAX_LINKS_PER_PAGE).log[..|run.log|] == run.log;
  }

  lemma ReportBounded(limit: nat, run: Run, o: Outcome)
    requires Bounded(limit, run, 1)
    ensures Bounded(limit, Report(run, o), 0)
  {
  }

  lemma SeedCapturedBounded(w: World, limit: nat, run: Run, fetched: Run, url: string, c: Candidate)
    requires Bounded(limit, fetched, 1) && fetched.outcomes == run.outcomes
    ensures var (drafted, out) := Drafted(w, fetched, url, c); var after := Report(drafted, out);
      && Bounded(limit, after, 0) && run.outcomes <= after.outcomes
      && after.outcomes[|run.outcomes|..] == [out] && out.url == url
  {
    DraftedShape(w, fetched, url, c);
    var (drafted, out) := Drafted(w, fetched, url, c);
    ReportBounded(limit, drafted, out);
  }

  /** A followed listing ends with its saved drafts, or with one summary row. */
  lemma SeedListingBounded(limit: nat, run: Run, followed: Run, url: string, links: seq<string>)
    requires run.outcomes <= followed.outcomes && NoneFailed(followed.outcomes[|run.outcomes|..])
    requires Bounded(limit, followed, if |followed.outcomes| > |run.outcomes| then 0 else 1)
    ensures |followed.outcomes| > |run.outcomes| ==>
      Bounded(limit, followed, 0) && followed.outcomes[|run.outcomes|..] != []
    ensures |followed.outcomes| == |run.outcomes| ==>
      var after := Report(followed, Outcome(url, Failed(BarrenListing(|links|))));
      && Bounded(limit, after, 0) && run.outcomes <= after.outcomes
      && after.outcomes[|run.outcomes|..] == [Outcome(url, Failed(BarrenListing(|links|)))]
  {
  }

  lemma SeedBounded(w: World, limit: nat, run: Run, raw: string)
    requires Bounded(limit, run, 0) && !Exhausted(limit, run)
    ensures var after := Seed(w, limit, run, raw);
      && Bounded(limit, after, 0) && run.outcomes <= after.outcomes
      && (NewSeed(w, run, raw) ==>
            Answered(Answer(w, run, w.parse(raw).value), w.parse(raw).value, after.outcomes[|run.outcomes|..]))
  {
    if NewSeed(w, run, raw) {
      var url := w.parse(raw).value;
      var fetched, answer := SeedFetched(w, run, url), Answer(w, run, url);
      SeedFetchBounded(limit, run, url);
      if answer.Captured? {
        SeedCapturedBounded(w, limit, run, fetched, url, answer.candidate);
      } else {
        FollowBounded(w, limit, fetched, answer.links, 1);
        SeedListingBounded(limit, run, Follow(w, limit, fetched, answer.links), url, answer.links);
      }
    }
  }

  lemma SeedBudget(w: World, limit: nat, raws: seq<string>, run: Run, raw: string)
    requires WithinBudget(w, limit, raws, run, 0) && !Exhausted(limit, run) && raw in raws
    ensures var after := Seed(w, limit, run, raw);
      && WithinBudget(w, limit, raws, after, 0)
      && run.outcomes <= after.outcomes
      && (NewSeed(w, run, raw) ==>
            Answered(Answer(w, run, w.parse(raw).value), w.parse(raw).value, after.outcomes[|run.outcomes|..]))
  {
    SeedHops(w, limit, raws, run, raw);
    SeedPlaced(w, limit, run, raw);
    SeedBounded(w, limit, run, raw);
  }

  lemma {:induction false} SeedsBudget(w: World, limit: nat, raws: seq<string>, run: Run, rest: seq<string>)
    requires WithinBudget(w, limit, raws, run, 0)
    requires forall r :: r in rest ==> r in raws
    ensures WithinBudget(w, limit, raws, Seeds(w, limit, run, rest), 0)
    decreases |rest|
  {
    if rest != [] && !Exhausted(limit, run) {
      SeedBudget(w, limit, raws, run, rest[0]);
      SeedsBudget(w, limit, raws, Seed(w, limit, run, rest[0]), rest[1..]);
    }
  }

  /** Every request, whatever its pages, its table and its failures, stays in budget. */
  lemma EveryCrawlStaysInBudget(w: World, limit: nat, rows: seq<Row>, raws: seq<string>)
    ensures WithinBudget(w, limit, raws, Seeds(w, limit, Start(rows), raws), 0)
  {
    SeedsBudget(w, limit, raws, Start(rows), raws);
  }
}

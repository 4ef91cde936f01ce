/** What a crawl's outcomes and drafts say about the pages, in terms of the pages' own text:
    who is let in by the ward gate, who is turned away, and that nothing is skipped. */
module CrawlReports {
  import opened Text
  import opened Stores
  import opened Extract
  import opened Crawl
  import CrawlRetry
  import CrawlRuns
  import Drafts

  // ----- the ward gate, spelt out -----

  /** The lower-cased address holds the ward's Japanese name, or its English name with no
      letter a to z right before or after it. */
  ghost predicate NamesWard(w: World, address: string) {
    var a := seq(|address|, k requires 0 <= k < |address| => w.lower(address[k]));
    var ja := seq(|w.ward.nameJa|, k requires 0 <= k < |w.ward.nameJa| => w.lower(w.ward.nameJa[k]));
    var en := seq(|w.ward.nameEn|, k requires 0 <= k < |w.ward.nameEn| => w.lower(w.ward.nameEn[k]));
    || (exists i, j :: 0 <= i <= j <= |a| && a[i..j] == ja)
    || (exists i, j :: 0 <= i <= j <= |a| && a[i..j] == en && Alone(a, i, j))
  }

  /** No letter a to z stands right before or right after the slice. */
  predicate Alone(s: string, i: nat, j: nat)
    requires i <= j <= |s|
  {
    (i > 0 ==> !('a' <= s[i - 1] <= 'z')) && (j < |s| ==> !('a' <= s[j] <= 'z'))
  }

  lemma SliceIsContained(s: string, part: string)
    ensures Contains(s, part) <==> exists i, j :: 0 <= i <= j <= |s| && s[i..j] == part
  {
    if Contains(s, part) {
      var i :| 0 <= i <= |s| - |part| && OccursAt(s, part, i);
      assert s[i..i + |part|] == part;
    }
    if i, j :| 0 <= i <= j <= |s| && s[i..j] == part {
      assert OccursAt(s, part, i);
    }
  }

  lemma SliceIsWord(s: string, word: string)
    ensures (exists i :: 0 <= i <= |s| && WordAt(s, word, i)) <==>
      exists i, j :: 0 <= i <= j <= |s| && s[i..j] == word && Alone(s, i, j)
  {
    if i :| 0 <= i <= |s| && WordAt(s, word, i) {
      assert s[i..i + |word|] == word;
    }
    forall i, j | 0 <= i <= j <= |s| && s[i..j] == word
      ensures j == i + |word| && OccursAt(s, word, i)
    {
    }
    if i, j :| 0 <= i <= j <= |s| && s[i..j] == word && Alone(s, i, j) {
      assert WordAt(s, word, i);
    }
  }

  lemma GateIsNaming(w: World, address: string)
    ensures InWard(w, address) <==> NamesWard(w, address)
  {
    SliceIsContained(Lower(w.lower, address), Lower(w.lower, w.ward.nameJa));
    SliceIsWord(Lower(w.lower, address), Lower(w.lower, w.ward.nameEn));
  }

  /** The page is one restaurant whose address names the ward. */
  ghost predicate InsidePage(w: World, url: string) {
    w.pages(url).Captured? && NamesWard(w, w.pages(url).candidate.address)
  }

  /** The outcome fits its page: saved ones name the ward, ones turned away for it do not. */
  ghost predicate Fits(w: World, o: Outcome) {
    && ((!o.status.Failed? || o.status == Failed(NotSaved)) ==> InsidePage(w, o.url))
    && (o.status == Failed(WrongWard) ==> w.pages(o.url).Captured? && !InsidePage(w, o.url))
    && (o.status == Failed(BadUrl) ==> w.parse(o.url) == None)
  }

  /** The draft is what one page in the ward says, for that ward, and claims nothing more. */
  ghost predicate DraftFits(w: World, f: Fields) {
    && (exists url :: InsidePage(w, url) && Says(w.pages(url).candidate, f))
    && f.ward == w.ward.id && f.status == Draft && f.gfStatus == OnRequest && !f.gfOriented
    && f.latitude == 0.0 && f.longitude == 0.0 && f.priceLevel == 2
    && f.photoUrl == None && f.nameEn == ""
  }

  predicate Says(c: Candidate, f: Fields) {
    && f.name == c.name && f.address == c.address && f.phone == c.phone
    && f.cuisine == c.cuisine && f.sourceUrl == c.sourceUrl
  }

  ghost predicate AllFit(w: World, run: Run) {
    && (forall o :: o in run.outcomes ==> Fits(w, o))
    && (forall f :: f in run.kept ==> DraftFits(w, f))
  }

  lemma DraftedFits(w: World, run: Run, url: string, c: Candidate)
    requires AllFit(w, run) && w.pages(url) == Captured(c)
    ensures var (after, out) := Drafted(w, run, url, c); AllFit(w, after) && Fits(w, out)
  {
    GateIsNaming(w, c.address);
    DraftedShape(w, run, url, c);
    var (after, out) := Drafted(w, run, url, c);
    if InWard(w, c.address) {
      assert Says(c, DraftFields(w, c));
      assert InsidePage(w, url) && DraftFits(w, DraftFields(w, c));
    }
  }

  lemma FollowOneFits(w: World, run: Run, link: string)
    requires AllFit(w, run)
    ensures AllFit(w, FollowOne(w, run, link))
  {
    if link !in run.seen && Answer(w, run, link).Captured? {
      DraftedFits(w, Fetched(run, link, 0), link, Answer(w, run, link).candidate);
    }
  }

  lemma {:induction false} FollowFits(w: World, limit: nat, run: Run, links: seq<string>)
    requires AllFit(w, run)
    ensures AllFit(w, Follow(w, limit, run, links))
    decreases |links|
  {
    if links != [] && !Exhausted(limit, run) {
      FollowOneFits(w, run, links[0]);
      FollowFits(w, limit, FollowOne(w, run, links[0]), links[1..]);
    }
  }

  lemma ReportFits(w: World, run: Run, o: Outcome)
    requires AllFit(w, run) && Fits(w, o)
    ensures AllFit(w, Report(run, o))
  {
  }

  lemma SeedFits(w: World, limit: nat, run: Run, raw: string)
    requires AllFit(w, run)
    ensures AllFit(w, Seed(w, limit, run, raw))
  {
    match w.parse(raw)
    case None => ReportFits(w, run, Outcome(raw, Failed(BadUrl)));
    case Some(url) =>
      if url !in run.seen {
        var fetched := SeedFetched(w, run, url);
        match Answer(w, run, url)
        case Captured(c) =>
          DraftedFits(w, fetched, url, c);
          ReportFits(w, Drafted(w, fetched, url, c).0, Drafted(w, fetched, url, c).1);
        case NotSingle(links) => FollowFits(w, limit, fetched, links);
      }
  }

  lemma {:induction false} SeedsFit(w: World, limit: nat, run: Run, raws: seq<string>)
    requires AllFit(w, run)
    ensures AllFit(w, Seeds(w, limit, run, raws))
    decreases |raws|
  {
    if raws != [] && !Exhausted(limit, run) {
      SeedFits(w, limit, run, raws[0]);
      SeedsFit(w, limit, Seed(w, limit, run, raws[0]), raws[1..]);
    }
  }

  /** Saving only adds rows, each with the columns of some argument. */
  lemma {:induction false} SavedRowsAreArguments(lower: char -> char, rows: seq<Row>, args: seq<Fields>, i: nat)
    requires forall k :: 0 <= k < |args| ==> Drafts.DraftOf(args[k]) == args[k]
    requires |rows| <= i < |Drafts.SaveAll(lower, rows, args)|
    ensures Drafts.SaveAll(lower, rows, args)[i].store.fields in args
  {
    var init, last := args[..|args| - 1], args[|args| - 1];
    assert args == init + [last];
    if i < |Drafts.SaveAll(lower, rows, init)| {
      SavedRowsAreArguments(lower, rows, init, i);
    }
  }

  /** Over every crawl, whatever its pages and failures: only restaurants whose address names
      the ward are reported as saved or stored, with what their page says; and a restaurant
      whose address does name it is never turned away for its ward. */
  lemma WardGateHolds(w: World, limit: nat, rows: seq<Row>, raws: seq<string>)
    ensures var run := Seeds(w, limit, Start(rows), raws);
      && (forall o :: o in run.outcomes ==> Fits(w, o))
      && rows <= run.rows
      && (forall i :: |rows| <= i < |run.rows| ==> DraftFits(w, run.rows[i].store.fields))
  {
    var run := Seeds(w, limit, Start(rows), raws);
    SeedsFit(w, limit, Start(rows), raws);
    CrawlRetry.SeedsSaves(w, limit, Start(rows), raws, rows);
    forall k | 0 <= k < |run.kept|
      ensures Drafts.DraftOf(run.kept[k]) == run.kept[k]
    {
      assert DraftFits(w, run.kept[k]);
    }
    forall i | |rows| <= i < |run.rows|
      ensures DraftFits(w, run.rows[i].store.fields)
    {
      SavedRowsAreArguments(w.lower, rows, run.kept, i);
    }
  }

  // ----- examples -----

  function AsciiLower(c: char): char { if 'A' <= c <= 'Z' then c - 'A' + 'a' else c }

  /** Minato, in English and in Japanese. */
  const MINATO: Ward := Ward(3, "Minato", "\U{6E2F}\U{533A}")

  const HARBOUR: string := "Minatomirai"

  const OFFICE: string := "1 Minato, Tokyo"

  /** A longer name that begins with the ward's is turned away. */
  lemma MinatomiraiIsElsewhere(w: World)
    requires w.ward == MINATO && forall c :: w.lower(c) == AsciiLower(c)
    ensures !NamesWard(w, HARBOUR)
  {
    var a := Lower(w.lower, HARBOUR);
    assert a == "minatomirai";
    assert Lower(w.lower, "Minato") == "minato";
    assert Lower(w.lower, MINATO.nameJa) == MINATO.nameJa;
    forall i, j | 0 <= i <= j <= |a|
      ensures a[i..j] != MINATO.nameJa
      ensures a[i..j] == "minato" ==> i == 0 && j == 6
    {
      if i < j { assert a[i..j][0] == a[i]; }
    }
  }

  /** The ward's name as a word of its own is let in. */
  lemma OfficeIsInMinato(w: World)
    requires w.ward == MINATO && forall c :: w.lower(c) == AsciiLower(c)
    ensures NamesWard(w, OFFICE)
  {
    var b := Lower(w.lower, OFFICE);
    assert b == "1 minato, tokyo";
    assert Lower(w.lower, "Minato") == "minato";
    assert b[2..8] == "minato";
  }

  // ----- nothing is skipped -----

  ghost predicate Widens(run: Run, after: Run) {
    run.outcomes <= after.outcomes && run.log <= after.log && run.seen <= after.seen
  }

  lemma FollowOneWidens(w: World, run: Run, link: string)
    ensures Widens(run, FollowOne(w, run, link)) && link in FollowOne(w, run, link).seen
  {
    CrawlRuns.FollowOneShape(w, run, link);
  }

  lemma {:induction false} FollowWidens(w: World, limit: nat, run: Run, links: seq<string>)
    ensures Widens(run, Follow(w, limit, run, links))
    ensures !Exhausted(limit, Follow(w, limit, run, links)) ==>
      forall l :: l in links ==> l in Follow(w, limit, run, links).seen
    decreases |links|
  {
    if links != [] && !Exhausted(limit, run) {
      FollowOneWidens(w, run, links[0]);
      FollowWidens(w, limit, FollowOne(w, run, links[0]), links[1..]);
    }
  }

  /** The fetch was of a listing among the seeds, with this link. */
  predicate Offers(w: World, f: Fetch, link: string) {
    f.maxLinks > 0 && w.pages(f.url).NotSingle? && link in w.pages(f.url).links
  }

  /** The listing pages among the fetched seeds have had every link looked at. */
  ghost predicate Followed(w: World, run: Run) {
    forall i, l :: 0 <= i < |run.log| && Offers(w, run.log[i], l) ==> l in run.seen
  }

  /** Each fetched restaurant that names the ward is among the outcomes, not as a failure. */
  ghost predicate Reported(w: World, run: Run) {
    forall i :: 0 <= i < |run.log| && InsidePage(w, run.log[i].url) ==> HasSaved(run, run.log[i].url)
  }

  predicate HasSaved(run: Run, url: string) {
    Outcome(url, Created) in run.outcomes || Outcome(url, Duplicate) in run.outcomes
  }

  lemma DraftedReports(w: World, run: Run, url: string, c: Candidate)
    requires CrawlRetry.Clean(w)
    ensures var (after, out) := Drafted(w, run, url, c);
      && after.log == run.log && after.outcomes == run.outcomes && after.seen == run.seen
      && (NamesWard(w, c.address) ==> out == Outcome(url, Created) || out == Outcome(url, Duplicate))
      && (!NamesWard(w, c.address) ==> out == Outcome(url, Failed(WrongWard)))
  {
    GateIsNaming(w, c.address);
    DraftedShape(w, run, url, c);
  }

  lemma StillReported(w: World, run: Run, after: Run, url: string, maxLinks: nat)
    requires Reported(w, run) && run.outcomes <= after.outcomes && after.log == run.log + [Fetch(url, maxLinks)]
    requires InsidePage(w, url) ==> HasSaved(after, url)
    ensures Reported(w, after)
  {
    forall i | 0 <= i < |run.log| && HasSaved(run, run.log[i].url)
      ensures HasSaved(after, after.log[i].url)
    {
      assert after.log[i] == run.log[i];
    }
  }

  lemma FollowOneReports(w: World, run: Run, link: string)
    requires CrawlRetry.Clean(w) && Reported(w, run)
    ensures Reported(w, FollowOne(w, run, link))
  {
    if link !in run.seen {
      if w.pages(link).Captured? {
        DraftedReports(w, Fetched(run, link, 0), link, w.pages(link).candidate);
      }
      CrawlRuns.FollowOneShape(w, run, link);
      StillReported(w, run, FollowOne(w, run, link), link, 0);
    }
  }

  lemma {:induction false} FollowReports(w: World, limit: nat, run: Run, links: seq<string>)
    requires CrawlRetry.Clean(w) && Reported(w, run)
    ensures Reported(w, Follow(w, limit, run, links))
    decreases |links|
  {
    if links != [] && !Exhausted(limit, run) {
      FollowOneReports(w, run, links[0]);
      FollowReports(w, limit, FollowOne(w, run, links[0]), links[1..]);
    }
  }

  lemma SeedReports(w: World, limit: nat, run: Run, raw: string)
    requires CrawlRetry.Clean(w) && Reported(w, run)
    ensures Reported(w, Seed(w, limit, run, raw))
  {
    if CrawlRuns.NewSeed(w, run, raw) {
      var url := w.parse(raw).value;
      var fetched := SeedFetched(w, run, url);
      match w.pages(url)
      case Captured(c) =>
        DraftedReports(w, fetched, url, c);
        StillReported(w, run, Seed(w, limit, run, raw), url, MAX_LINKS_PER_PAGE);
      case NotSingle(links) =>
        StillReported(w, run, fetched, url, MAX_LINKS_PER_PAGE);
        FollowReports(w, limit, fetched, links);
        WiderStillReported(w, Follow(w, limit, fetched, links), Seed(w, limit, run, raw));
    } else if w.parse(raw) == None {
      WiderStillReported(w, run, Seed(w, limit, run, raw));
    }
  }

  lemma WiderStillReported(w: World, run: Run, after: Run)
    requires Reported(w, run) && run.outcomes <= after.outcomes
    ensures after.log == run.log ==> Reported(w, after)
  {
  }

  /** What one seed leaves: a bad URL is reported, another page is fetched, and if it is a
      listing all its links are looked at unless a budget runs out. */
  lemma SeedWidens(w: World, limit: nat, run: Run, raw: string)
    requires CrawlRetry.Clean(w)
    ensures var after := Seed(w, limit, run, raw);
      && Widens(run, after)
      && (w.parse(raw) == None ==> Outcome(raw, Failed(BadUrl)) in after.outcomes)
      && (w.parse(raw).Some? ==> w.parse(raw).value in after.seen)
  {
    if CrawlRuns.NewSeed(w, run, raw) && w.pages(w.parse(raw).value).NotSingle? {
      FollowWidens(w, limit, SeedFetched(w, run, w.parse(raw).value), w.pages(w.parse(raw).value).links);
    }
  }

  lemma FollowOneKeepsFollowed(w: World, run: Run, link: string)
    requires Followed(w, run)
    ensures Followed(w, FollowOne(w, run, link))
  {
    CrawlRuns.FollowOneShape(w, run, link);
  }

  lemma {:induction false} FollowKeepsFollowed(w: World, limit: nat, run: Run, links: seq<string>)
    requires forall i, l :: 0 <= i < |run.log| && Offers(w, run.log[i], l) ==> l in run.seen || l in links
    ensures !Exhausted(limit, Follow(w, limit, run, links)) ==> Followed(w, Follow(w, limit, run, links))
    decreases |links|
  {
    if links != [] && !Exhausted(limit, run) {
      var one := FollowOne(w, run, links[0]);
      CrawlRuns.FollowOneShape(w, run, links[0]);
      assert forall l :: l in links ==> l == links[0] || l in links[1..];
      FollowKeepsFollowed(w, limit, one, links[1..]);
    }
  }

  lemma SeedKeepsFollowed(w: World, limit: nat, run: Run, raw: string)
    requires CrawlRetry.Clean(w) && Followed(w, run)
    ensures !Exhausted(limit, Seed(w, limit, run, raw)) ==> Followed(w, Seed(w, limit, run, raw))
  {
    if CrawlRuns.NewSeed(w, run, raw) {
      var url := w.parse(raw).value;
      var fetched := SeedFetched(w, run, url);
      match w.pages(url)
      case Captured(c) => DraftedReports(w, fetched, url, c);
      case NotSingle(links) =>
        forall i, l | 0 <= i < |fetched.log| && Offers(w, fetched.log[i], l)
          ensures l in fetched.seen || l in links
        {
          if i < |run.log| { assert fetched.log[i] == run.log[i]; }
        }
        FollowKeepsFollowed(w, limit, fetched, links);
    }
  }

  /** Every seed is dealt with. */
  ghost predicate Covered(w: World, run: Run, raws: seq<string>) {
    forall raw :: raw in raws ==>
      && (w.parse(raw) == None ==> Outcome(raw, Failed(BadUrl)) in run.outcomes)
      && (w.parse(raw).Some? ==> w.parse(raw).value in run.seen)
  }

  lemma {:induction false} SeedsCover(w: World, limit: nat, run: Run, raws: seq<string>, done: seq<string>)
    requires CrawlRetry.Clean(w) && Reported(w, run) && Covered(w, run, done)
    requires !Exhausted(limit, run) ==> Followed(w, run)
    ensures var after := Seeds(w, limit, run, raws);
      && Widens(run, after) && Reported(w, after)
      && (!Exhausted(limit, after) ==> Followed(w, after) && Covered(w, after, done + raws))
    decreases |raws|
  {
    if raws == [] || Exhausted(limit, run) {
      assert done + [] == done;
    } else {
      var one := Seed(w, limit, run, raws[0]);
      SeedWidens(w, limit, run, raws[0]);
      SeedReports(w, limit, run, raws[0]);
      SeedKeepsFollowed(w, limit, run, raws[0]);
      assert Covered(w, one, done + [raws[0]]);
      SeedsCover(w, limit, one, raws[1..], done + [raws[0]]);
      assert done + [raws[0]] + raws[1..] == done + raws;
    }
  }

  /** In an undisturbed crawl nothing is skipped: every fetched restaurant that names the ward
      is reported as created or duplicate; and unless the outcomes fill the limit or twelve
      pages were fetched, every bad URL is reported, every other seed was fetched, and so was
      every link of every listing among the seeds. */
  lemma CleanCrawlSkipsNothing(w: World, limit: nat, rows: seq<Row>, raws: seq<string>)
    requires forall k :: w.fault(k) == Fine
    ensures var run := Seeds(w, limit, Start(rows), raws);
      && Reported(w, run) && |run.log| <= 12 && |run.outcomes| <= limit
      && (forall i :: 0 <= i < |run.log| ==> run.log[i].maxLinks == 6 || run.log[i].maxLinks == 0)
      && (forall url :: url in run.seen ==> exists i :: 0 <= i < |run.log| && run.log[i].url == url)
      && (|run.outcomes| < limit && |run.log| < 12 ==> Covered(w, run, raws) && Followed(w, run))
  {
    SeedsCover(w, limit, Start(rows), raws, []);
    assert [] + raws == raws;
    CrawlRuns.EveryCrawlStaysInBudget(w, limit, rows, raws);
  }

  // ----- what "created" means -----

  function Creations(outcomes: seq<Outcome>): nat {
    if outcomes == [] then 0
    else Creations(outcomes[..|outcomes| - 1]) + if outcomes[|outcomes| - 1].status == Created then 1 else 0
  }

  lemma OneMoreOutcome(outcomes: seq<Outcome>, o: Outcome)
    ensures Creations(outcomes + [o]) == Creations(outcomes) + if o.status == Created then 1 else 0
  {
    assert (outcomes + [o])[..|outcomes|] == outcomes;
  }

  /** The table grew by the reported creations, or by more where a save went through unreported. */
  ghost predicate Grown(w: World, n: nat, run: Run) {
    && n + Creations(run.outcomes) <= |run.rows|
    && (CrawlRetry.Clean(w) ==> |run.rows| == n + Creations(run.outcomes))
  }

  /** One draft: the table grows by a row exactly if it is created, unless the save fails. */
  lemma DraftedGrows(w: World, run: Run, url: string, c: Candidate)
    ensures var (after, out) := Drafted(w, run, url, c);
      && |run.rows| + (if out.status == Created then 1 else 0) <= |after.rows|
      && (CrawlRetry.Clean(w) ==> |after.rows| == |run.rows| + if out.status == Created then 1 else 0)
  {
  }

  lemma FollowOneGrows(w: World, n: nat, run: Run, link: string)
    requires Grown(w, n, run)
    ensures Grown(w, n, FollowOne(w, run, link))
  {
    if link !in run.seen && Answer(w, run, link).Captured? {
      var c := Answer(w, run, link).candidate;
      DraftedGrows(w, Fetched(run, link, 0), link, c);
      DraftedShape(w, Fetched(run, link, 0), link, c);
      OneMoreOutcome(run.outcomes, Drafted(w, Fetched(run, link, 0), link, c).1);
    }
  }

  lemma {:induction false} FollowGrows(w: World, limit: nat, n: nat, run: Run, links: seq<string>)
    requires Grown(w, n, run)
    ensures Grown(w, n, Follow(w, limit, run, links))
    decreases |links|
  {
    if links != [] && !Exhausted(limit, run) {
      FollowOneGrows(w, n, run, links[0]);
      FollowGrows(w, limit, n, FollowOne(w, run, links[0]), links[1..]);
    }
  }

  lemma FailureGrows(w: World, n: nat, run: Run, o: Outcome)
    requires Grown(w, n, run) && o.status.Failed?
    ensures Grown(w, n, Report(run, o))
  {
    OneMoreOutcome(run.outcomes, o);
  }

  lemma SeedGrows(w: World, limit: nat, n: nat, run: Run, raw: string)
    requires Grown(w, n, run)
    ensures Grown(w, n, Seed(w, limit, run, raw))
  {
    match w.parse(raw)
    case None => FailureGrows(w, n, run, Outcome(raw, Failed(BadUrl)));
    case Some(url) =>
      if url !in run.seen {
        var fetched := SeedFetched(w, run, url);
        match Answer(w, run, url)
        case Captured(c) =>
          DraftedGrows(w, fetched, url, c);
          DraftedShape(w, fetched, url, c);
          OneMoreOutcome(run.outcomes, Drafted(w, fetched, url, c).1);
        case NotSingle(links) =>
          FollowGrows(w, limit, n, fetched, links);
          FailureGrows(w, n, fetched, Outcome(url, Failed(CaptureFailed)));
          FailureGrows(w, n, Follow(w, limit, fetched, links), Outcome(url, Failed(BarrenListing(|links|))));
      }
  }

  lemma {:induction false} SeedsGrow(w: World, limit: nat, n: nat, run: Run, raws: seq<string>)
    requires Grown(w, n, run)
    ensures Grown(w, n, Seeds(w, limit, run, raws))
    decreases |raws|
  {
    if raws != [] && !Exhausted(limit, run) {
      SeedGrows(w, limit, n, run, raws[0]);
      SeedsGrow(w, limit, n, Seed(w, limit, run, raws[0]), raws[1..]);
    }
  }

  /** Every outcome "created" stands for one new row, and in an undisturbed crawl every new row
      for one such outcome. */
  lemma CreatedMeansANewRow(w: World, limit: nat, rows: seq<Row>, raws: seq<string>)
    ensures var run := Seeds(w, limit, Start(rows), raws);
      && |rows| + Creations(run.outcomes) <= |run.rows|
      && ((forall k :: w.fault(k) == Fine) ==> |run.rows| == |rows| + Creations(run.outcomes))
  {
    SeedsGrow(w, limit, |rows|, Start(rows), raws);
  }
}

/** The budgeted two-stage crawl behind POST /internal/discovery. */
module Crawl {
  import opened Text
  import opened Stores
  import opened Extract
  import Drafts
  import StoreDb

  const MAX_FETCHES: nat := 12
  const MAX_LINKS_PER_PAGE: nat := 6

  /** What capturing a page yields: one restaurant, or links to follow (possibly none). */
  datatype Capture = Captured(candidate: Candidate) | NotSingle(links: seq<string>)

  /** Everything outside the handler. `parse` canonicalises an acceptable URL, `pages`
      is what each page yields, and `fault(k)` is how the k-th fetch or save ends. */
  datatype World = World(
    parse: string -> Option<string>,
    pages: string -> Capture,
    lower: char -> char,
    ward: Ward,
    fault: nat -> Fault)

  datatype Reason = BadUrl | CaptureFailed | WrongWard | NotSaved | BarrenListing(links: nat)

  datatype OutcomeStatus = Created | Duplicate | Failed(reason: Reason)

  datatype Outcome = Outcome(url: string, status: OutcomeStatus)

  datatype Fetch = Fetch(url: string, maxLinks: nat)

  /** The state of one request: the reported outcomes, the seen URLs, the fetches made,
      the calls made so far, the drafts whose transaction committed and when, the linked pages
      whose fetch or save failed, whether a seed page's fetch failed, and the table. */
  datatype Run = Run(
    outcomes: seq<Outcome>,
    seen: set<string>,
    log: seq<Fetch>,
    clock: nat,
    kept: seq<Fields>,
    at: seq<nat>,
    misses: nat,
    blind: bool,
    rows: seq<Row>)

  function Start(rows: seq<Row>): Run { Run([], {}, [], 0, [], [], 0, false, rows) }

  predicate IsLetter(c: char) { 'a' <= c <= 'z' }

  /** `word` stands in s with no letter on either side. */
  predicate WordAt(s: string, word: string, i: int) {
    && OccursAt(s, word, i)
    && (i > 0 ==> !IsLetter(s[i - 1]))
    && (i + |word| < |s| ==> !IsLetter(s[i + |word|]))
  }

  predicate InWard(w: World, address: string) {
    var a := Lower(w.lower, address);
    || Contains(a, Lower(w.lower, w.ward.nameJa))
    || exists i :: 0 <= i <= |a| && WordAt(a, Lower(w.lower, w.ward.nameEn), i)
  }

  function DraftFields(w: World, c: Candidate): Fields {
    Fields(w.ward.id, c.name, c.address, 0.0, 0.0, false, Draft, c.cuisine, 2, OnRequest,
           None, "", c.phone, c.sourceUrl, "")
  }

  /** The fetch is recorded before it is made; a failed one yields nothing. */
  function Fetched(run: Run, url: string, maxLinks: nat): Run {
    run.(seen := run.seen + {url}, log := run.log + [Fetch(url, maxLinks)], clock := run.clock + 1)
  }

  function Answer(w: World, run: Run, url: string): Capture {
    if w.fault(run.clock) == Fine then w.pages(url) else NotSingle([])
  }

  /** Record a captured candidate, saving it only when its address lies in the ward. */
  function Drafted(w: World, run: Run, url: string, c: Candidate): (Run, Outcome) {
    if !InWard(w, c.address) then (run, Outcome(url, Failed(WrongWard)))
    else
      var f, ticked := DraftFields(w, c), run.(clock := run.clock + 1);
      var saved := ticked.(kept := run.kept + [f], at := run.at + [run.clock],
        rows := Drafts.Save(w.lower, run.rows, f));
      match w.fault(run.clock)
      case Lost => (ticked, Outcome(url, Failed(NotSaved)))
      case Committed => (saved, Outcome(url, Failed(NotSaved)))
      case Fine => (saved, Outcome(url, if Drafts.Refused(w.lower, run.rows, f) then Duplicate else Created))
  }

  /** A draft is saved, or nothing happens to the table. */
  lemma DraftedShape(w: World, run: Run, url: string, c: Candidate)
    ensures var (after, out) := Drafted(w, run, url, c); var f := DraftFields(w, c);
      && out.url == url
      && (if InWard(w, c.address) && w.fault(run.clock) != Lost then
            && after.kept == run.kept + [f] && after.at == run.at + [run.clock]
            && after.rows == Drafts.Save(w.lower, run.rows, f)
          else after.kept == run.kept && after.at == run.at && after.rows == run.rows)
      && (if InWard(w, c.address) then
                after.clock == run.clock + 1 && (out.status == Failed(NotSaved) <==> w.fault(run.clock) != Fine)
          else after == run && out.status == Failed(WrongWard))
      && (out.status.Failed? ==> out.status.reason == NotSaved || out.status.reason == WrongWard)
      && after.outcomes == run.outcomes && after.seen == run.seen && after.log == run.log
      && after.misses == run.misses && after.blind == run.blind
  {
  }

  function Report(run: Run, o: Outcome): Run { run.(outcomes := run.outcomes + [o]) }

  function Missed(run: Run): Run { run.(misses := run.misses + 1) }

  predicate Exhausted(limit: nat, run: Run) {
    |run.outcomes| >= limit || |run.log| >= MAX_FETCHES
  }

  /** One linked page: only a saved draft is reported. */
  function FollowOne(w: World, run: Run, link: string): Run {
    if link in run.seen then run
    else
      var fetched := Fetched(run, link, 0);
      match Answer(w, run, link)
      case NotSingle(_) => if w.fault(run.clock) == Fine then fetched else Missed(fetched)
      case Captured(c) =>
        var (drafted, out) := Drafted(w, fetched, link, c);
        if out.status == Failed(NotSaved) then Missed(drafted)
        else if out.status.Failed? then drafted
        else Report(drafted, out)
  }

  function Follow(w: World, limit: nat, run: Run, links: seq<string>): Run
    decreases |links|
  {
    if links == [] || Exhausted(limit, run) then run
    else Follow(w, limit, FollowOne(w, run, links[0]), links[1..])
  }

  function SeedFetched(w: World, run: Run, url: string): Run {
    Fetched(run, url, MAX_LINKS_PER_PAGE).(blind := run.blind || w.fault(run.clock) != Fine)
  }

  function Seed(w: World, limit: nat, run: Run, raw: string): Run {
    match w.parse(raw)
    case None => Report(run, Outcome(raw, Failed(BadUrl)))
    case Some(url) =>
      if url in run.seen then run
      else
        var fetched := SeedFetched(w, run, url);
        match Answer(w, run, url)
        case Captured(c) => var (drafted, out) := Drafted(w, fetched, url, c); Report(drafted, out)
        case NotSingle(links) =>
          if links == [] then Report(fetched, Outcome(url, Failed(CaptureFailed)))
          else
            var followed := Follow(w, limit, fetched, links);
            if |followed.outcomes| == |run.outcomes| then Report(followed, Outcome(url, Failed(BarrenListing(|links|))))
            else followed
  }

  function Seeds(w: World, limit: nat, run: Run, raws: seq<string>): Run
    decreases |raws|
  {
    if raws == [] || Exhausted(limit, run) then run
    else Seeds(w, limit, Seed(w, limit, run, raws[0]), raws[1..])
  }

  // ----- the handler -----

  method Save(w: World, db: StoreDb.StoreTable, k: nat, f: Fields) returns (ok: bool, created: bool)
    requires db.Valid()
    modifies db`rows, db`past
    ensures db.Valid()
    ensures db.rows == if w.fault(k) == Lost then old(db.rows) else Drafts.Save(w.lower, old(db.rows), f)
    ensures ok <==> w.fault(k) == Fine
    ensures ok ==> (created <==> !Drafts.Refused(w.lower, old(db.rows), f))
  {
    ok, created := w.fault(k) == Fine, false;
    if w.fault(k) != Lost {
      var row;
      row, created := db.CreateDiscoveryDraft(w.lower, f);
    }
  }

  method DraftInto(w: World, db: StoreDb.StoreTable, ghost run: Run, clock0: nat, url: string, c: Candidate)
    returns (out: Outcome, clock: nat)
    requires db.Valid() && run.rows == db.rows && run.clock == clock0
    modifies db`rows, db`past
    ensures db.Valid()
    ensures Drafted(w, run, url, c).1 == out
    ensures Drafted(w, run, url, c).0.rows == db.rows && Drafted(w, run, url, c).0.clock == clock
  {
    clock := clock0;
    if !InWard(w, c.address) {
      return Outcome(url, Failed(WrongWard)), clock;
    }
    DraftedShape(w, run, url, c);
    var ok, created := Save(w, db, clock, DraftFields(w, c));
    clock := clock + 1;
    if !ok {
      return Outcome(url, Failed(NotSaved)), clock;
    }
    out := Outcome(url, if created then Created else Duplicate);
  }

  method FollowLinks(w: World, limit: nat, db: StoreDb.StoreTable, ghost run0: Run,
                     outcomes0: seq<Outcome>, seen0: set<string>, fetches0: nat, clock0: nat, links: seq<string>)
    returns (outcomes: seq<Outcome>, seen: set<string>, fetches: nat, clock: nat, saved: nat)
    requires db.Valid() && run0.rows == db.rows
    requires run0.outcomes == outcomes0 && run0.seen == seen0 && |run0.log| == fetches0 && run0.clock == clock0
    modifies db`rows, db`past
    ensures db.Valid()
    ensures var run := Follow(w, limit, run0, links);
      && run.rows == db.rows && run.outcomes == outcomes && run.seen == seen
      && |run.log| == fetches && run.clock == clock
    ensures |outcomes| == |outcomes0| + saved
  {
    outcomes, seen, fetches, clock, saved := outcomes0, seen0, fetches0, clock0, 0;
    ghost var run := run0;
    var i := 0;
    while i < |links|
      invariant i <= |links|
      invariant db.Valid()
      invariant run.rows == db.rows && run.outcomes == outcomes && run.seen == seen
      invariant |run.log| == fetches && run.clock == clock
      invariant |outcomes| == |outcomes0| + saved
      invariant Follow(w, limit, run, links[i..]) == Follow(w, limit, run0, links)
    {
      if |outcomes| >= limit || fetches >= MAX_FETCHES {
        return;
      }
      var link := links[i];
      assert links[i..][1..] == links[i + 1..];
      ghost var before := run;
      run := FollowOne(w, run, link);
      i := i + 1;
      if link in seen {
        continue;
      }
      seen := seen + {link};
      fetches := fetches + 1;
      clock := clock + 1;
      if w.fault(clock - 1) != Fine || w.pages(link).NotSingle? {
        continue;
      }
      var out;
      out, clock := DraftInto(w, db, Fetched(before, link, 0), clock, link, w.pages(link).candidate);
      if !out.status.Failed? {
        outcomes := outcomes + [out];
        saved := saved + 1;
      }
    }
  }

  /** One round of the outer loop. */
  method CrawlSeed(w: World, limit: nat, db: StoreDb.StoreTable, ghost run0: Run,
                   outcomes0: seq<Outcome>, seen0: set<string>, fetches0: nat, clock0: nat, raw: string)
    returns (outcomes: seq<Outcome>, seen: set<string>, fetches: nat, clock: nat)
    requires db.Valid() && run0.rows == db.rows
    requires run0.outcomes == outcomes0 && run0.seen == seen0 && |run0.log| == fetches0 && run0.clock == clock0
    modifies db`rows, db`past
    ensures db.Valid()
    ensures var run := Seed(w, limit, run0, raw);
      && run.rows == db.rows && run.outcomes == outcomes && run.seen == seen
      && |run.log| == fetches && run.clock == clock
  {
    outcomes, seen, fetches, clock := outcomes0, seen0, fetches0, clock0;
    var u := w.parse(raw);
    if u == None {
      outcomes := outcomes + [Outcome(raw, Failed(BadUrl))];
      return;
    }
    var url := u.value;
    if url in seen {
      return;
    }
    ghost var fetched := SeedFetched(w, run0, url);
    seen := seen + {url};
    fetches := fetches + 1;
    clock := clock + 1;
    var page := if w.fault(clock - 1) == Fine then w.pages(url) else NotSingle([]);
    if page.Captured? {
      var out;
      out, clock := DraftInto(w, db, fetched, clock, url, page.candidate);
      outcomes := outcomes + [out];
      return;
    }
    if page.links == [] {
      outcomes := outcomes + [Outcome(url, Failed(CaptureFailed))];
      return;
    }
    var saved;
    outcomes, seen, fetches, clock, saved :=
      FollowLinks(w, limit, db, fetched, outcomes, seen, fetches, clock, page.links);
    if saved == 0 {
      outcomes := outcomes + [Outcome(url, Failed(BarrenListing(|page.links|)))];
    }
  }

  method CrawlSeeds(w: World, limit: nat, db: StoreDb.StoreTable, urls: seq<string>) returns (outcomes: seq<Outcome>)
    requires db.Valid()
    modifies db`rows, db`past
    ensures db.Valid()
    ensures var run := Seeds(w, limit, Start(old(db.rows)), urls);
      outcomes == run.outcomes && db.rows == run.rows
  {
    outcomes := [];
    var seen: set<string>, fetches, clock := {}, 0, 0;
    ghost var run := Start(db.rows);
    var i := 0;
    while i < |urls|
      invariant i <= |urls|
      invariant db.Valid()
      invariant run.rows == db.rows && run.outcomes == outcomes && run.seen == seen
      invariant |run.log| == fetches && run.clock == clock
      invariant Seeds(w, limit, run, urls[i..]) == Seeds(w, limit, Start(old(db.rows)), urls)
    {
      if |outcomes| >= limit || fetches >= MAX_FETCHES {
        return;
      }
      assert urls[i..][1..] == urls[i + 1..];
      outcomes, seen, fetches, clock := CrawlSeed(w, limit, db, run, outcomes, seen, fetches, clock, urls[i]);
      run := Seed(w, limit, run, urls[i]);
      i := i + 1;
    }
  }

  datatype Request = Request(wardId: int, urls: seq<string>, limit: nat)

  datatype Response = BadRequest | WardsUnread | NoSearchKey | SearchFailed | Results(outcomes: seq<Outcome>)

  /** The URLs to crawl: those given, or else those the search answers, if it does. */
  function Sources(search: Option<Option<seq<string>>>, req: Request): Option<seq<string>> {
    if req.urls != [] then Some(req.urls) else if search.Some? then search.value else None
  }

  /** Acceptable URLs, a ward list, and a listed ward of that id. */
  predicate Accepted(w: World, wards: Option<seq<Ward>>, req: Request) {
    && AllParse(w, req.urls) && wards.Some? && req.wardId != 0
    && exists i :: 0 <= i < |wards.value| && wards.value[i].id == req.wardId
  }

  predicate AllParse(w: World, urls: seq<string>) { forall i :: 0 <= i < |urls| ==> w.parse(urls[i]).Some? }

  /** `wards` is None when they cannot be read, `search` is None without a provider key;
      otherwise it is what the search answers. */
  method InternalDiscover(w: World, wards: Option<seq<Ward>>, search: Option<Option<seq<string>>>,
                          db: StoreDb.StoreTable, req: Request)
    returns (resp: Response)
    requires db.Valid()
    modifies db`rows, db`past
    ensures db.Valid()
    ensures !resp.Results? ==> db.rows == old(db.rows)
    ensures resp == WardsUnread <==> AllParse(w, req.urls) && wards == None
    ensures resp == BadRequest <==> !AllParse(w, req.urls) || (wards.Some? && !Accepted(w, wards, req))
    ensures resp == NoSearchKey <==> Accepted(w, wards, req) && req.urls == [] && search == None
    ensures resp == SearchFailed <==> Accepted(w, wards, req) && req.urls == [] && search == Some(None)
    ensures resp.Results? <==> Accepted(w, wards, req) && Sources(search, req).Some?
    ensures resp.Results? ==>
      exists i :: 0 <= i < |wards.value| && wards.value[i].id == req.wardId
        && (forall k :: 0 <= k < i ==> wards.value[k].id != req.wardId)
        && var run := Seeds(w.(ward := wards.value[i]), if req.limit == 0 then 5 else req.limit,
           Start(old(db.rows)), Sources(search, req).value);
           resp.outcomes == run.outcomes && db.rows == run.rows
  {
    var limit := if req.limit == 0 then 5 else req.limit;
    for i := 0 to |req.urls|
      invariant forall k :: 0 <= k < i ==> w.parse(req.urls[k]).Some?
    {
      if w.parse(req.urls[i]) == None { return BadRequest; }
    }
    if wards == None { return WardsUnread; }
    var listed, j := wards.value, 0;
    while j < |listed| && listed[j].id != req.wardId
      invariant j <= |listed|
      invariant forall k :: 0 <= k < j ==> listed[k].id != req.wardId
    {
      j := j + 1;
    }
    if j == |listed| || listed[j].id == 0 {
      return BadRequest;
    }
    var urls := req.urls;
    if urls == [] {
      if search == None { return NoSearchKey; }
      if search.value == None { return SearchFailed; }
      urls := search.value.value;
    }
    var outcomes := CrawlSeeds(w.(ward := listed[j]), limit, db, urls);
    resp := Results(outcomes);
  }
}

/** Whose password, sessions and links each statement of an operator request touches, told
    from the requests alone: who asked for what, and whom each reset link was sent to. */
module OperatorRequests {
  import opened Text
  import opened OperatorAuth

  /** The event is the first statement of request f. */
  predicate Starts(e: Event, f: nat) {
    (e.LoginCheck? || e.RefreshLookup? || e.ForgotLookup? || e.ResetLookup? || e.ColleagueLookup? || e.ChangeCheck?)
    && e.f == f
  }

  /** What request f came for: its first statement, the latest one under that name. */
  function Asked(es: seq<Event>, f: nat): Option<Event>
    decreases |es|
  {
    if es == [] then None
    else if Starts(es[|es| - 1], f) then Some(es[|es| - 1])
    else Asked(es[..|es| - 1], f)
  }

  function Elapsed(es: seq<Event>): nat
    decreases |es|
  {
    if es == [] then 0
    else Elapsed(es[..|es| - 1]) + if es[|es| - 1].Tick? then es[|es| - 1].d else 0
  }

  /** The operator a link was mailed to, and how long after the start it expires. */
  datatype Letter = Letter(admin: nat, due: int)

  /** Who was asked for by the forgotten-password request that created the link. */
  function Sent(es: seq<Event>, link: nat): Option<Letter>
    decreases |es|
  {
    if es == [] then None
    else
      var before, e := es[..|es| - 1], es[|es| - 1];
      if e.CreateLink? && e.link == link && Asked(before, e.f).Some? && Asked(before, e.f).value.ForgotLookup? then
        Some(Letter(Asked(before, e.f).value.admin, Elapsed(before) + e.ttl))
      else Sent(before, link)
  }

  /** The operator a request is about: the one it names, or the one its link was sent to. */
  function Whom(es: seq<Event>, f: nat): Option<nat> {
    match Asked(es, f)
    case None => None
    case Some(e) =>
      if e.LoginCheck? || e.ForgotLookup? || e.ColleagueLookup? || e.ChangeCheck? then Some(e.admin)
      else if e.ResetLookup? && Sent(es, e.link).Some? then Some(Sent(es, e.link).value.admin)
      else None
  }

  /** How often the operator's password was replaced. */
  function Stored(es: seq<Event>, admin: nat): nat
    decreases |es|
  {
    if es == [] then 0
    else
      var before, e := es[..|es| - 1], es[|es| - 1];
      Stored(before, admin) + if e.StorePassword? && Whom(before, e.f) == Some(admin) then 1 else 0
  }

  /** The run up to where request f last checked or replaced a password. */
  function Under(es: seq<Event>, f: nat): seq<Event>
    decreases |es|
  {
    if es == [] then []
    else
      var e := es[|es| - 1];
      if (e.LoginCheck? || e.StorePassword?) && e.f == f then es else Under(es[..|es| - 1], f)
  }

  /** Some claim of the link was executed. */
  predicate ClaimRan(es: seq<Event>, link: nat)
    decreases |es|
  {
    es != [] &&
      var before, e := es[..|es| - 1], es[|es| - 1];
      (e.Claim? && Asked(before, e.f) == Some(ResetLookup(e.f, link))) || ClaimRan(before, link)
  }

  /** The request in this phase came for that. */
  predicate CameFor(es: seq<Event>, f: nat, p: Phase) {
    match p
    case PasswordAccepted(a, _) => Asked(es, f) == Some(LoginCheck(f, a))
    case SessionFound(sid) => Asked(es, f) == Some(RefreshLookup(f, sid))
    case AdminFound(a) => Asked(es, f) == Some(ForgotLookup(f, a))
    case LinkFound(l, a) => Asked(es, f) == Some(ResetLookup(f, l)) && SentTo(es, l, a)
    case Replacing(a, via) => CameBy(es, f, a, via)
    case Replaced(a, via, _) => CameBy(es, f, a, via)
    case SessionsDone(a, via, _) => CameBy(es, f, a, via)
    case Reissuing(a, _) => Asked(es, f) == Some(ChangeCheck(f, a))
  }

  predicate SentTo(es: seq<Event>, link: nat, admin: nat) {
    Sent(es, link).Some? && Sent(es, link).value.admin == admin
  }

  predicate CameBy(es: seq<Event>, f: nat, admin: nat, via: Via) {
    match via
    case Emailed(l) => Asked(es, f) == Some(ResetLookup(f, l)) && SentTo(es, l, admin) && ClaimRan(es, l)
    case Colleague => Asked(es, f) == Some(ColleagueLookup(f, admin))
    case SelfService => Asked(es, f) == Some(ChangeCheck(f, admin))
  }

  /** The version a request goes on with is that of its own check or replacement. */
  predicate UnderOwn(s0: State, es: seq<Event>, f: nat, p: Phase) {
    match p
    case PasswordAccepted(a, v) => OwnVersion(s0, es, f, a, v)
    case Replaced(a, _, v) => OwnVersion(s0, es, f, a, v)
    case SessionsDone(a, _, v) => OwnVersion(s0, es, f, a, v)
    case Reissuing(a, v) => OwnVersion(s0, es, f, a, v)
    case _ => true
  }

  predicate OwnVersion(s0: State, es: seq<Event>, f: nat, admin: nat, version: nat) {
    admin in s0.versions && version == s0.versions[admin] + Stored(Under(es, f), admin)
  }

  ghost predicate FlowsTraced(s0: State, es: seq<Event>, s: State) {
    forall f :: f in s.flows ==> PhaseTraced(s0, es, f, s.flows[f])
  }

  ghost predicate LinksTraced(s0: State, es: seq<Event>, s: State) {
    && s.now == s0.now + Elapsed(es)
    && (forall l :: l in s.links ==> l in s.minted && LinkTraced(s0, es, l, s.links[l]))
    && (forall l :: l in s.minted <==> Sent(es, l).Some?)
    && (forall l :: ClaimRan(es, l) ==> l in s.minted)
  }

  predicate LinkTraced(s0: State, es: seq<Event>, l: nat, row: Link) {
    && Sent(es, l) == Some(Letter(row.admin, row.expires - s0.now))
    && (row.used <==> ClaimRan(es, l))
  }

  ghost predicate VersionsTraced(s0: State, es: seq<Event>, s: State) {
    && s.versions.Keys == s0.versions.Keys
    && (forall a :: a in s.versions ==> s.versions[a] == s0.versions[a] + Stored(es, a))
  }

  ghost predicate Traced(s0: State, es: seq<Event>, s: State) {
    FlowsTraced(s0, es, s) && LinksTraced(s0, es, s) && VersionsTraced(s0, es, s)
  }

  lemma Snoc(es: seq<Event>, e: Event)
    ensures (es + [e])[..|es|] == es && (es + [e])[|es|] == e
  {
  }

  lemma AskedSnoc(es: seq<Event>, e: Event, f: nat)
    ensures Asked(es + [e], f) == if Starts(e, f) then Some(e) else Asked(es, f)
  {
    Snoc(es, e);
  }

  lemma SentSnoc(es: seq<Event>, e: Event, link: nat)
    ensures Elapsed(es + [e]) == Elapsed(es) + if e.Tick? then e.d else 0
    ensures !(e.CreateLink? && e.link == link) ==> Sent(es + [e], link) == Sent(es, link)
    ensures e.CreateLink? && e.link == link && Asked(es, e.f).Some? && Asked(es, e.f).value.ForgotLookup? ==>
      Sent(es + [e], link) == Some(Letter(Asked(es, e.f).value.admin, Elapsed(es) + e.ttl))
  {
    Snoc(es, e);
  }

  lemma ClaimRanSnoc(es: seq<Event>, e: Event, link: nat)
    ensures ClaimRan(es + [e], link) <==>
      (e.Claim? && Asked(es, e.f) == Some(ResetLookup(e.f, link))) || ClaimRan(es, link)
  {
    Snoc(es, e);
  }

  lemma StoredSnoc(es: seq<Event>, e: Event, admin: nat)
    ensures Stored(es + [e], admin) ==
      Stored(es, admin) + if e.StorePassword? && Whom(es, e.f) == Some(admin) then 1 else 0
  {
    Snoc(es, e);
  }

  lemma UnderSnoc(es: seq<Event>, e: Event, f: nat)
    ensures Under(es + [e], f) == if (e.LoginCheck? || e.StorePassword?) && e.f == f then es + [e] else Under(es, f)
  {
    Snoc(es, e);
  }

  lemma PhaseIsWhom(es: seq<Event>, f: nat, p: Phase)
    requires CameFor(es, f, p) && !p.SessionFound?
    ensures Whom(es, f) == Some(p.admin)
  {
  }

  lemma MintedStep(s0: State, es: seq<Event>, s: State, e: Event, l: nat)
    requires Traced(s0, es, s) && Enabled(s, e)
    ensures l in Next(s, e).minted <==> Sent(es + [e], l).Some?
    ensures ClaimRan(es + [e], l) ==> l in Next(s, e).minted
  {
    SentSnoc(es, e, l);
    ClaimRanSnoc(es, e, l);
    if e.Claim? || e.CreateLink? {
      assert CameFor(es, e.f, s.flows[e.f]);
    }
  }

  lemma NewLinkTraced(s0: State, es: seq<Event>, s: State, e: Event)
    requires Traced(s0, es, s) && Enabled(s, e) && e.CreateLink?
    ensures LinkTraced(s0, es + [e], e.link, Next(s, e).links[e.link])
  {
    SentSnoc(es, e, e.link);
    ClaimRanSnoc(es, e, e.link);
    assert CameFor(es, e.f, s.flows[e.f]);
  }

  lemma ClaimTraced(s0: State, es: seq<Event>, s: State, e: Event, l: nat)
    requires Traced(s0, es, s) && Enabled(s, e) && e.Claim? && l in Next(s, e).links
    ensures LinkTraced(s0, es + [e], l, Next(s, e).links[l])
  {
    SentSnoc(es, e, l);
    ClaimRanSnoc(es, e, l);
    assert CameFor(es, e.f, s.flows[e.f]);
    assert LinkTraced(s0, es, l, s.links[l]);
  }

  lemma LinksStep(s0: State, es: seq<Event>, s: State, e: Event)
    requires Traced(s0, es, s) && Enabled(s, e)
    ensures LinksTraced(s0, es + [e], Next(s, e))
  {
    var t := Next(s, e);
    SentSnoc(es, e, 0);
    forall l
      ensures l in t.minted <==> Sent(es + [e], l).Some?
      ensures ClaimRan(es + [e], l) ==> l in t.minted
    {
      MintedStep(s0, es, s, e, l);
    }
    forall l | l in t.links
      ensures l in t.minted && LinkTraced(s0, es + [e], l, t.links[l])
    {
      if e.CreateLink? && e.link == l {
        NewLinkTraced(s0, es, s, e);
      } else if e.Claim? {
        ClaimTraced(s0, es, s, e, l);
      } else {
        SentSnoc(es, e, l);
        ClaimRanSnoc(es, e, l);
        LinkRowStays(s, e, l);
      }
    }
  }

  lemma LinkRowStays(s: State, e: Event, l: nat)
    requires Enabled(s, e) && !e.Claim? && !(e.CreateLink? && e.link == l) && l in Next(s, e).links
    ensures l in s.links && Next(s, e).links[l] == s.links[l]
  {
  }

  lemma StoreTraced(s0: State, es: seq<Event>, s: State, e: Event)
    requires Traced(s0, es, s) && Enabled(s, e) && e.StorePassword?
    ensures VersionsTraced(s0, es + [e], Next(s, e))
  {
    assert CameFor(es, e.f, s.flows[e.f]);
    PhaseIsWhom(es, e.f, s.flows[e.f]);
    forall a | a in s.versions
      ensures Next(s, e).versions[a] == s0.versions[a] + Stored(es + [e], a)
    {
      StoredSnoc(es, e, a);
    }
  }

  lemma OnlyStoresRaise(s: State, e: Event)
    requires Enabled(s, e) && !e.StorePassword?
    ensures Next(s, e).versions == s.versions
  {
  }

  lemma VersionsStep(s0: State, es: seq<Event>, s: State, e: Event)
    requires Traced(s0, es, s) && Enabled(s, e)
    ensures VersionsTraced(s0, es + [e], Next(s, e))
  {
    if e.StorePassword? {
      StoreTraced(s0, es, s, e);
    } else {
      OnlyStoresRaise(s, e);
      forall a | a in s.versions
        ensures Stored(es + [e], a) == Stored(es, a)
      {
        StoredSnoc(es, e, a);
      }
    }
  }

  /** A request the statement does not belong to stands where it stood. */
  lemma OthersStay(s0: State, es: seq<Event>, s: State, e: Event, f: nat)
    requires Traced(s0, es, s) && Enabled(s, e) && f in Next(s, e).flows
    requires f in s.flows && Next(s, e).flows[f] == s.flows[f] && !Starts(e, f)
    requires (e.LoginCheck? || e.StorePassword?) ==> e.f != f
    ensures PhaseTraced(s0, es + [e], f, s.flows[f])
  {
    assert PhaseTraced(s0, es, f, s.flows[f]);
    AskedSnoc(es, e, f);
    UnderSnoc(es, e, f);
    SentStays(es, s0, s, e, s.flows[f]);
  }

  predicate FromLink(p: Phase) {
    p.LinkFound? || ((p.Replacing? || p.Replaced? || p.SessionsDone?) && p.via.Emailed?)
  }

  function LinkOf(p: Phase): nat
    requires FromLink(p)
  {
    if p.LinkFound? then p.link else p.via.link
  }

  lemma SentStays(es: seq<Event>, s0: State, s: State, e: Event, p: Phase)
    requires LinksTraced(s0, es, s) && Enabled(s, e)
    ensures FromLink(p) && Sent(es, LinkOf(p)).Some? ==> Sent(es + [e], LinkOf(p)) == Sent(es, LinkOf(p))
    ensures FromLink(p) && ClaimRan(es, LinkOf(p)) ==> ClaimRan(es + [e], LinkOf(p))
  {
    if FromLink(p) {
      SentSnoc(es, e, LinkOf(p));
      ClaimRanSnoc(es, e, LinkOf(p));
    }
  }

  ghost predicate PhaseTraced(s0: State, es: seq<Event>, f: nat, p: Phase) {
    CameFor(es, f, p) && UnderOwn(s0, es, f, p)
  }

  lemma StartStep(s0: State, es: seq<Event>, s: State, e: Event, f: nat)
    requires Traced(s0, es, s) && Enabled(s, e) && Starts(e, f) && f in Next(s, e).flows
    ensures PhaseTraced(s0, es + [e], f, Next(s, e).flows[f])
  {
    AskedSnoc(es, e, f);
    UnderSnoc(es, e, f);
    if e.LoginCheck? { StoredSnoc(es, e, e.admin); }
    if e.ResetLookup? { SentSnoc(es, e, e.link); }
  }

  lemma StoreStep(s0: State, es: seq<Event>, s: State, e: Event)
    requires Traced(s0, es, s) && Enabled(s, e) && e.StorePassword?
    ensures PhaseTraced(s0, es + [e], e.f, Next(s, e).flows[e.f])
  {
    var p := s.flows[e.f];
    assert PhaseTraced(s0, es, e.f, p);
    PhaseIsWhom(es, e.f, p);
    AskedSnoc(es, e, e.f);
    UnderSnoc(es, e, e.f);
    SentStays(es, s0, s, e, p);
    StoredSnoc(es, e, p.admin);
  }

  lemma ClaimStep(s0: State, es: seq<Event>, s: State, e: Event)
    requires Traced(s0, es, s) && Enabled(s, e) && e.Claim? && e.f in Next(s, e).flows
    ensures PhaseTraced(s0, es + [e], e.f, Next(s, e).flows[e.f])
  {
    assert PhaseTraced(s0, es, e.f, s.flows[e.f]);
    AskedSnoc(es, e, e.f);
    SentStays(es, s0, s, e, s.flows[e.f]);
    ClaimRanSnoc(es, e, s.flows[e.f].link);
  }

  lemma SessionsCleanedStep(s0: State, es: seq<Event>, s: State, e: Event)
    requires Traced(s0, es, s) && Enabled(s, e) && e.DeleteSessions?
    ensures PhaseTraced(s0, es + [e], e.f, Next(s, e).flows[e.f])
  {
    assert PhaseTraced(s0, es, e.f, s.flows[e.f]);
    AskedSnoc(es, e, e.f);
    UnderSnoc(es, e, e.f);
    SentStays(es, s0, s, e, s.flows[e.f]);
  }

  lemma LinksCleanedStep(s0: State, es: seq<Event>, s: State, e: Event)
    requires Traced(s0, es, s) && Enabled(s, e) && e.DeleteLinks? && e.f in Next(s, e).flows
    ensures PhaseTraced(s0, es + [e], e.f, Next(s, e).flows[e.f])
  {
    assert PhaseTraced(s0, es, e.f, s.flows[e.f]);
    AskedSnoc(es, e, e.f);
    UnderSnoc(es, e, e.f);
  }

  lemma StarterOnly(s: State, e: Event, f: nat)
    requires Enabled(s, e) && !e.Tick? && !e.Logout? && Starts(e, e.f) && e.f != f && f in Next(s, e).flows
    ensures f in s.flows && Next(s, e).flows[f] == s.flows[f]
  {
  }

  lemma OwnerOnly(s: State, e: Event, f: nat)
    requires Enabled(s, e) && (e.Tick? || e.Logout? || (e.f != f && !Starts(e, e.f))) && f in Next(s, e).flows
    ensures f in s.flows && Next(s, e).flows[f] == s.flows[f]
  {
  }

  lemma RequestEnds(s: State, e: Event)
    requires Enabled(s, e) && (e.OpenSession? || e.Renew? || e.CreateLink? || e.Fail?)
    ensures e.f !in Next(s, e).flows
  {
  }

  lemma FlowsStep(s0: State, es: seq<Event>, s: State, e: Event)
    requires Traced(s0, es, s) && Enabled(s, e)
    ensures FlowsTraced(s0, es + [e], Next(s, e))
  {
    forall f | f in Next(s, e).flows
      ensures PhaseTraced(s0, es + [e], f, Next(s, e).flows[f])
    {
      if e.Tick? || e.Logout? || e.f != f {
        if !e.Tick? && !e.Logout? && Starts(e, e.f) { StarterOnly(s, e, f); } else { OwnerOnly(s, e, f); }
        OthersStay(s0, es, s, e, f);
      } else if Starts(e, f) {
        StartStep(s0, es, s, e, f);
      } else if e.StorePassword? {
        StoreStep(s0, es, s, e);
      } else if e.Claim? {
        ClaimStep(s0, es, s, e);
      } else if e.DeleteSessions? {
        SessionsCleanedStep(s0, es, s, e);
      } else if e.DeleteLinks? {
        LinksCleanedStep(s0, es, s, e);
      } else {
        RequestEnds(s, e);
      }
    }
  }

  lemma StepTraced(s0: State, es: seq<Event>, s: State, e: Event)
    requires Traced(s0, es, s) && Enabled(s, e)
    ensures Traced(s0, es + [e], Next(s, e))
  {
    FlowsStep(s0, es, s, e);
    LinksStep(s0, es, s, e);
    VersionsStep(s0, es, s, e);
  }

  // ----- which links and sessions are there -----

  /** A password change of the operator the link was sent to has deleted it. */
  predicate Voided(es: seq<Event>, link: nat)
    decreases |es|
  {
    es != [] &&
      var before, e := es[..|es| - 1], es[|es| - 1];
      || (e.DeleteLinks? && e.ok && Sent(before, link).Some?
          && Whom(before, e.f) == Some(Sent(before, link).value.admin))
      || Voided(before, link)
  }

  /** Whose session it is, how long after the start it expires, and how many replacements of
      that operator's password had been made where the request checked or replaced it. */
  datatype Opening = Opening(admin: nat, due: int, stored: nat)

  function OpenedAs(es: seq<Event>, sid: nat): Option<Opening>
    decreases |es|
  {
    if es == [] then None
    else
      var before, e := es[..|es| - 1], es[|es| - 1];
      if e.OpenSession? && e.sid == sid && Whom(before, e.f).Some? then
        var a := Whom(before, e.f).value;
        Some(Opening(a, Elapsed(before) + e.ttl, Stored(Under(before, e.f), a)))
      else OpenedAs(before, sid)
  }

  /** A logout of that session, or a password change of its operator, has deleted it. */
  predicate Ended(es: seq<Event>, sid: nat)
    decreases |es|
  {
    es != [] &&
      var before, e := es[..|es| - 1], es[|es| - 1];
      || (OpenedAs(before, sid).Some?
          && (e == Logout(sid)
              || (e.DeleteSessions? && e.ok && Whom(before, e.f) == Some(OpenedAs(before, sid).value.admin))))
      || Ended(before, sid)
  }

  predicate LinkThere(es: seq<Event>, s: State, link: nat) {
    && (link in s.links <==> Sent(es, link).Some? && !Voided(es, link))
    && (Voided(es, link) ==> Sent(es, link).Some?)
  }

  predicate SessionThere(s0: State, es: seq<Event>, s: State, sid: nat) {
    && (sid in s.everOpened <==> OpenedAs(es, sid).Some?)
    && (sid in s.sessions <==> OpenedAs(es, sid).Some? && !Ended(es, sid))
    && (Ended(es, sid) ==> OpenedAs(es, sid).Some?)
    && (sid in s.sessions ==>
          var o := OpenedAs(es, sid).value;
          && o.admin in s0.versions
          && s.sessions[sid] == Session(o.admin, s0.now + o.due, s0.versions[o.admin] + o.stored))
  }

  ghost predicate AllThere(s0: State, es: seq<Event>, s: State) {
    && (forall l :: LinkThere(es, s, l))
    && (forall sid :: SessionThere(s0, es, s, sid))
  }

  lemma VoidedSnoc(es: seq<Event>, e: Event, link: nat)
    ensures Voided(es + [e], link) <==>
      || (e.DeleteLinks? && e.ok && Sent(es, link).Some? && Whom(es, e.f) == Some(Sent(es, link).value.admin))
      || Voided(es, link)
  {
    Snoc(es, e);
  }

  lemma OpenedSnoc(es: seq<Event>, e: Event, sid: nat)
    ensures !(e.OpenSession? && e.sid == sid) ==> OpenedAs(es + [e], sid) == OpenedAs(es, sid)
    ensures e.OpenSession? && e.sid == sid && Whom(es, e.f).Some? ==>
      OpenedAs(es + [e], sid) ==
        Some(Opening(Whom(es, e.f).value, Elapsed(es) + e.ttl, Stored(Under(es, e.f), Whom(es, e.f).value)))
  {
    Snoc(es, e);
  }

  lemma EndedSnoc(es: seq<Event>, e: Event, sid: nat)
    ensures Ended(es + [e], sid) <==>
      || (OpenedAs(es, sid).Some?
          && (e == Logout(sid)
              || (e.DeleteSessions? && e.ok && Whom(es, e.f) == Some(OpenedAs(es, sid).value.admin))))
      || Ended(es, sid)
  {
    Snoc(es, e);
  }

  lemma LinkThereStep(s0: State, es: seq<Event>, s: State, e: Event, link: nat)
    requires Traced(s0, es, s) && LinkThere(es, s, link) && Enabled(s, e)
    ensures LinkThere(es + [e], Next(s, e), link)
  {
    SentSnoc(es, e, link);
    VoidedSnoc(es, e, link);
    if e.CreateLink? || e.DeleteLinks? {
      assert PhaseTraced(s0, es, e.f, s.flows[e.f]);
      PhaseIsWhom(es, e.f, s.flows[e.f]);
      if link in s.links { assert LinkTraced(s0, es, link, s.links[link]); }
    } else {
      LinkKeysStay(s, e, link);
    }
  }

  lemma LinkKeysStay(s: State, e: Event, link: nat)
    requires Enabled(s, e) && !e.CreateLink? && !e.DeleteLinks?
    ensures link in Next(s, e).links <==> link in s.links
  {
  }

  lemma SessionsStay(s: State, e: Event)
    requires Enabled(s, e) && !e.OpenSession? && !e.DeleteSessions? && !e.Logout?
    ensures Next(s, e).sessions == s.sessions && Next(s, e).everOpened == s.everOpened
  {
  }

  lemma SessionThereStep(s0: State, es: seq<Event>, s: State, e: Event, sid: nat)
    requires Traced(s0, es, s) && SessionThere(s0, es, s, sid) && Enabled(s, e)
    ensures SessionThere(s0, es + [e], Next(s, e), sid)
  {
    OpenedSnoc(es, e, sid);
    EndedSnoc(es, e, sid);
    if e.OpenSession? || e.DeleteSessions? {
      assert PhaseTraced(s0, es, e.f, s.flows[e.f]);
      PhaseIsWhom(es, e.f, s.flows[e.f]);
    } else if !e.Logout? {
      SessionsStay(s, e);
    }
  }

  lemma {:induction false} RunThere(s0: State, done: seq<Event>, s: State, es: seq<Event>)
    requires Traced(s0, done, s) && AllThere(s0, done, s) && ValidRun(s, es)
    ensures Traced(s0, done + es, Final(s, es)) && AllThere(s0, done + es, Final(s, es))
    decreases |es|
  {
    if es == [] {
      assert done + es == done;
    } else {
      StepTraced(s0, done, s, es[0]);
      forall l ensures LinkThere(done + [es[0]], Next(s, es[0]), l) { LinkThereStep(s0, done, s, es[0], l); }
      forall sid
        ensures SessionThere(s0, done + [es[0]], Next(s, es[0]), sid)
      {
        SessionThereStep(s0, done, s, es[0], sid);
      }
      RunThere(s0, done + [es[0]], Next(s, es[0]), es[1..]);
      assert done + [es[0]] + es[1..] == done + es;
    }
  }

  lemma EveryRunIsTraced(s0: State, es: seq<Event>)
    requires Init(s0) && ValidRun(s0, es)
    ensures Traced(s0, es, Final(s0, es)) && AllThere(s0, es, Final(s0, es))
  {
    RunThere(s0, [], s0, es);
    assert [] + es == es;
  }

  // ----- main results -----

  lemma StoreGoesToTheAsker(s0: State, es: seq<Event>, s: State, e: Event)
    requires Traced(s0, es, s) && Enabled(s, e) && e.StorePassword?
    ensures Asked(es, e.f).Some? && Whom(es, e.f).Some?
    ensures var asked, a := Asked(es, e.f).value, Whom(es, e.f).value;
      && a in s.versions && Next(s, e).versions == s.versions[a := s.versions[a] + 1]
      && (asked == ChangeCheck(e.f, a) || asked == ColleagueLookup(e.f, a)
          || (asked.ResetLookup? && SentTo(es, asked.link, a) && ClaimRan(es, asked.link)))
  {
    assert PhaseTraced(s0, es, e.f, s.flows[e.f]);
    PhaseIsWhom(es, e.f, s.flows[e.f]);
  }

  /** In every interleaving a stored password is that of exactly the operator its request is
      about: the one named by a colleague or signed in, or the one the reset link was sent to.
      Nothing else changes a password. */
  lemma PasswordsGoToTheAsker(s0: State, es: seq<Event>, e: Event)
    requires Init(s0) && ValidRun(s0, es) && Enabled(Final(s0, es), e)
    ensures var s, t := Final(s0, es), Next(Final(s0, es), e);
      if e.StorePassword? then
        && Asked(es, e.f).Some? && Whom(es, e.f).Some?
        && var asked, a := Asked(es, e.f).value, Whom(es, e.f).value;
           && a in s.versions && t.versions == s.versions[a := s.versions[a] + 1]
           && (asked == ChangeCheck(e.f, a) || asked == ColleagueLookup(e.f, a)
               || (asked.ResetLookup? && SentTo(es, asked.link, a) && ClaimRan(es, asked.link)))
      else t.versions == s.versions
  {
    EveryRunIsTraced(s0, es);
    if e.StorePassword? {
      StoreGoesToTheAsker(s0, es, Final(s0, es), e);
    } else {
      OnlyStoresRaise(Final(s0, es), e);
    }
  }

  /** After every run the tables hold what the requests account for: each operator's password
      was replaced as often as requests about them did; the links are those sent and not
      voided, used where claimed; the sessions are those opened and not ended, of the operator
      who signed in, under the password that request had checked or stored. */
  lemma TablesFollowTheRequests(s0: State, es: seq<Event>)
    requires Init(s0) && ValidRun(s0, es)
    ensures var t := Final(s0, es);
      && t.now == s0.now + Elapsed(es) && t.versions.Keys == s0.versions.Keys
      && (forall a :: a in t.versions ==> t.versions[a] == s0.versions[a] + Stored(es, a))
      && (forall l :: l in t.links <==> Sent(es, l).Some? && !Voided(es, l))
      && (forall l :: l in t.links ==>
            t.links[l] == Link(Sent(es, l).value.admin, s0.now + Sent(es, l).value.due, ClaimRan(es, l)))
      && (forall sid :: sid in t.sessions <==> OpenedAs(es, sid).Some? && !Ended(es, sid))
      && (forall sid :: sid in t.sessions ==>
            var o := OpenedAs(es, sid).value;
            && o.admin in s0.versions
            && t.sessions[sid] == Session(o.admin, s0.now + o.due, s0.versions[o.admin] + o.stored))
  {
    EveryRunIsTraced(s0, es);
    var t := Final(s0, es);
    forall l
      ensures l in t.links <==> Sent(es, l).Some? && !Voided(es, l)
      ensures l in t.links ==> LinkTraced(s0, es, l, t.links[l])
    {
      assert LinkThere(es, t, l);
    }
    forall sid
      ensures sid in t.sessions <==> OpenedAs(es, sid).Some? && !Ended(es, sid)
    {
      assert SessionThere(s0, es, t, sid);
    }
    forall sid | sid in t.sessions
      ensures var o := OpenedAs(es, sid).value;
        && o.admin in s0.versions
        && t.sessions[sid] == Session(o.admin, s0.now + o.due, s0.versions[o.admin] + o.stored)
    {
      assert SessionThere(s0, es, t, sid);
    }
  }

  /** A reset link is found exactly while it was sent, is neither claimed nor voided and is
      not past its time; and a claim wins exactly if the link still is neither. */
  lemma LinkIsGoodExactlyWhen(s0: State, es: seq<Event>, e: Event)
    requires Init(s0) && ValidRun(s0, es) && Enabled(Final(s0, es), e)
    ensures e.ResetLookup? ==>
      (e.f in Next(Final(s0, es), e).flows <==>
        && Sent(es, e.link).Some? && !Voided(es, e.link) && !ClaimRan(es, e.link)
        && Elapsed(es) <= Sent(es, e.link).value.due)
    ensures e.Claim? ==>
      && Asked(es, e.f).Some? && Asked(es, e.f).value.ResetLookup?
      && var l := Asked(es, e.f).value.link;
         (e.f in Next(Final(s0, es), e).flows <==> !Voided(es, l) && !ClaimRan(es, l))
  {
    TablesFollowTheRequests(s0, es);
    if e.Claim? {
      EveryRunIsTraced(s0, es);
      assert PhaseTraced(s0, es, e.f, Final(s0, es).flows[e.f]);
    }
  }

  /** A refresh finds a session exactly while it was opened, is not ended and is not past its
      time; and what a request renews is the session it looked up. */
  lemma SessionIsGoodExactlyWhen(s0: State, es: seq<Event>, e: Event)
    requires Init(s0) && ValidRun(s0, es) && Enabled(Final(s0, es), e)
    ensures e.RefreshLookup? ==>
      (e.f in Next(Final(s0, es), e).flows <==>
        && OpenedAs(es, e.sid).Some? && !Ended(es, e.sid) && Elapsed(es) <= OpenedAs(es, e.sid).value.due)
    ensures e.Renew? ==>
      && Asked(es, e.f).Some? && Asked(es, e.f).value.RefreshLookup?
      && Next(Final(s0, es), e).renewed == Final(s0, es).renewed + [Asked(es, e.f).value.sid]
  {
    TablesFollowTheRequests(s0, es);
    if e.Renew? {
      EveryRunIsTraced(s0, es);
      assert PhaseTraced(s0, es, e.f, Final(s0, es).flows[e.f]);
    }
  }

  function Mailing(f: nat, admin: nat, link: nat, ttl: int): seq<Event> {
    [ForgotLookup(f, admin), CreateLink(f, link, ttl)]
  }

  function Redeeming(g: nat, link: nat): seq<Event> {
    [ResetLookup(g, link), Claim(g), StorePassword(g)]
  }

  lemma MailingRuns(s: State, f: nat, admin: nat, link: nat, ttl: int)
    requires f !in s.flows && admin in s.versions && link !in s.minted
    ensures ValidRun(s, Mailing(f, admin, link, ttl))
    ensures Final(s, Mailing(f, admin, link, ttl)) ==
      s.(links := s.links[link := Link(admin, s.now + ttl, false)], minted := s.minted + {link})
  {
    var looked := Next(s, ForgotLookup(f, admin));
    RunsOn(looked, CreateLink(f, link, ttl), []);
    RunsOn(s, ForgotLookup(f, admin), [CreateLink(f, link, ttl)]);
    assert [ForgotLookup(f, admin)] + [CreateLink(f, link, ttl)] == Mailing(f, admin, link, ttl);
    assert s.flows[f := AdminFound(admin)] - {f} == s.flows;
  }

  lemma RedeemingRuns(s: State, g: nat, link: nat, admin: nat, expires: int)
    requires g !in s.flows && admin in s.versions && link in s.links && s.links[link] == Link(admin, expires, false)
    requires s.now <= expires
    ensures ValidRun(s, Redeeming(g, link))
    ensures Final(s, Redeeming(g, link)).versions == s.versions[admin := s.versions[admin] + 1]
  {
    var found := Next(s, ResetLookup(g, link));
    var claimed := Next(found, Claim(g));
    RunsOn(claimed, StorePassword(g), []);
    RunsOn(found, Claim(g), [StorePassword(g)]);
    RunsOn(s, ResetLookup(g, link), [Claim(g)] + [StorePassword(g)]);
    assert Redeeming(g, link) == [ResetLookup(g, link)] + ([Claim(g)] + [StorePassword(g)]);
  }

  lemma TooLateStops(s: State, g: nat, link: nat)
    requires g !in s.flows && link in s.links && s.now > s.links[link].expires
    ensures !ValidRun(s, Redeeming(g, link))
  {
    assert Redeeming(g, link)[1..][0] == Claim(g);
    assert !ValidRun(s, Redeeming(g, link)[1..]);
  }

  /** A link asked for by f, sent, and redeemed by g after some time: the redeeming goes
      through exactly within the link's time, and then the operator who had asked has a new
      password, nobody else. */
  lemma ResetChangesTheAsker(s: State, f: nat, g: nat, admin: nat, link: nat, ttl: int, d: nat)
    requires f !in s.flows && g !in s.flows && admin in s.versions && link !in s.minted
    ensures ValidRun(s, Mailing(f, admin, link, ttl))
    ensures var sent := Next(Final(s, Mailing(f, admin, link, ttl)), Tick(d));
      && (ValidRun(sent, Redeeming(g, link)) <==> d <= ttl)
      && (d <= ttl ==> Final(sent, Redeeming(g, link)).versions == s.versions[admin := s.versions[admin] + 1])
  {
    MailingRuns(s, f, admin, link, ttl);
    var sent := Next(Final(s, Mailing(f, admin, link, ttl)), Tick(d));
    if d <= ttl {
      RedeemingRuns(sent, g, link, admin, s.now + ttl);
    } else {
      TooLateStops(sent, g, link);
    }
  }
}

/** Operator sessions, password changes and emailed reset links: every handler as its
    database statements, interleaved with any number of others. */
module OperatorAuth {
  import opened Text

  /** `version` is the password version the session was opened under. */
  datatype Session = Session(admin: nat, expires: int, version: nat)

  datatype Link = Link(admin: nat, expires: int, used: bool)

  datatype Via = Emailed(link: nat) | Colleague | SelfService

  /** Where a request in flight stands between two statements. */
  datatype Phase =
    | PasswordAccepted(admin: nat, version: nat)
    | SessionFound(sid: nat)
    | AdminFound(admin: nat)
    | LinkFound(link: nat, admin: nat)
    | Replacing(admin: nat, via: Via)
    | Replaced(admin: nat, via: Via, version: nat)
    | SessionsDone(admin: nat, via: Via, version: nat)
    | Reissuing(admin: nat, version: nat)

  /** The tables, the requests in flight, and what happened so far: every session ever
      opened, links ever created, links claimed, passwords stored through a link, and
      sessions renewed. */
  datatype State = State(
    now: int,
    versions: map<nat, nat>,
    sessions: map<nat, Session>,
    links: map<nat, Link>,
    flows: map<nat, Phase>,
    everOpened: map<nat, Session>,
    minted: set<nat>,
    claims: seq<nat>,
    changes: seq<nat>,
    renewed: seq<nat>)

  /** f names the request; `ok` says whether a best-effort cleanup statement worked. */
  datatype Event =
    | Tick(d: nat)
    | LoginCheck(f: nat, admin: nat)
    | OpenSession(f: nat, sid: nat, ttl: int)
    | RefreshLookup(f: nat, sid: nat)
    | Renew(f: nat)
    | Logout(sid: nat)
    | ForgotLookup(f: nat, admin: nat)
    | CreateLink(f: nat, link: nat, ttl: int)
    | ResetLookup(f: nat, link: nat)
    | Claim(f: nat)
    | ColleagueLookup(f: nat, admin: nat)
    | ChangeCheck(f: nat, admin: nat)
    | StorePassword(f: nat)
    | DeleteSessions(f: nat, ok: bool)
    | DeleteLinks(f: nat, ok: bool)
    | Fail(f: nat)

  predicate Enabled(s: State, e: Event) {
    match e
    case Tick(_) => true
    case Logout(_) => true
    case LoginCheck(f, a) => f !in s.flows && a in s.versions
    case ForgotLookup(f, a) => f !in s.flows && a in s.versions
    case ColleagueLookup(f, a) => f !in s.flows && a in s.versions
    case ChangeCheck(f, a) => f !in s.flows && a in s.versions
    case RefreshLookup(f, _) => f !in s.flows
    case ResetLookup(f, _) => f !in s.flows
    case OpenSession(f, sid, _) =>
      f in s.flows && (s.flows[f].PasswordAccepted? || s.flows[f].Reissuing?) && sid !in s.everOpened
    case Renew(f) => f in s.flows && s.flows[f].SessionFound?
    case CreateLink(f, link, _) => f in s.flows && s.flows[f].AdminFound? && link !in s.minted
    case Claim(f) => f in s.flows && s.flows[f].LinkFound?
    case StorePassword(f) => f in s.flows && s.flows[f].Replacing? && s.flows[f].admin in s.versions
    case DeleteSessions(f, _) => f in s.flows && s.flows[f].Replaced?
    case DeleteLinks(f, _) => f in s.flows && s.flows[f].SessionsDone?
    case Fail(f) => f in s.flows
  }

  function To(s: State, f: nat, p: Phase): State { s.(flows := s.flows[f := p]) }

  function Done(s: State, f: nat): State { s.(flows := s.flows - {f}) }

  function WithoutSessionsOf(m: map<nat, Session>, admin: nat): map<nat, Session> {
    map sid | sid in m && m[sid].admin != admin :: m[sid]
  }

  function WithoutLinksOf(m: map<nat, Link>, admin: nat): map<nat, Link> {
    map link | link in m && m[link].admin != admin :: m[link]
  }

  /** Present, not used and not expired. */
  predicate Redeemable(s: State, link: nat) {
    link in s.links && !s.links[link].used && s.now <= s.links[link].expires
  }

  function Next(s: State, e: Event): State
    requires Enabled(s, e)
  {
    match e
    case Tick(d) => s.(now := s.now + d)
    case Logout(sid) => s.(sessions := s.sessions - {sid})
    case LoginCheck(f, a) => To(s, f, PasswordAccepted(a, s.versions[a]))
    case ForgotLookup(f, a) => To(s, f, AdminFound(a))
    case ColleagueLookup(f, a) => To(s, f, Replacing(a, Colleague))
    case ChangeCheck(f, a) => To(s, f, Replacing(a, SelfService))
    case RefreshLookup(f, sid) =>
      if sid in s.sessions && s.now <= s.sessions[sid].expires then To(s, f, SessionFound(sid)) else s
    case ResetLookup(f, link) =>
      if Redeemable(s, link) then To(s, f, LinkFound(link, s.links[link].admin)) else s
    case OpenSession(f, sid, ttl) =>
      var p := s.flows[f];
      var row := Session(p.admin, s.now + ttl, p.version);
      Done(s, f).(sessions := s.sessions[sid := row], everOpened := s.everOpened[sid := row])
    case Renew(f) => Done(s, f).(renewed := s.renewed + [s.flows[f].sid])
    case CreateLink(f, link, ttl) =>
      Done(s, f).(links := s.links[link := Link(s.flows[f].admin, s.now + ttl, false)], minted := s.minted + {link})
    case Claim(f) =>
      var link := s.flows[f].link;
      // UPDATE ... WHERE id = link AND used_at IS NULL
      if link in s.links && !s.links[link].used then
        To(s, f, Replacing(s.flows[f].admin, Emailed(link)))
          .(links := s.links[link := s.links[link].(used := true)], claims := s.claims + [link])
      else Done(s, f)
    case StorePassword(f) =>
      var a, via := s.flows[f].admin, s.flows[f].via;
      To(s, f, Replaced(a, via, s.versions[a] + 1))
        .(versions := s.versions[a := s.versions[a] + 1],
          changes := if via.Emailed? then s.changes + [via.link] else s.changes)
    case DeleteSessions(f, ok) =>
      var p := s.flows[f];
      To(s, f, SessionsDone(p.admin, p.via, p.version))
        .(sessions := if ok then WithoutSessionsOf(s.sessions, p.admin) else s.sessions)
    case DeleteLinks(f, ok) =>
      var p := s.flows[f];
      (if p.via.SelfService? then To(s, f, Reissuing(p.admin, p.version)) else Done(s, f))
        .(links := if ok then WithoutLinksOf(s.links, p.admin) else s.links)
    case Fail(f) => Done(s, f)
  }

  predicate ValidRun(s: State, es: seq<Event>)
    decreases |es|
  {
    es == [] || (Enabled(s, es[0]) && ValidRun(Next(s, es[0]), es[1..]))
  }

  function Final(s: State, es: seq<Event>): State
    requires ValidRun(s, es)
    decreases |es|
  {
    if es == [] then s else Final(Next(s, es[0]), es[1..])
  }

  /** Nothing has happened yet, and every operator has a password. */
  predicate Init(s: State) {
    && s.sessions == map[] && s.links == map[] && s.flows == map[]
    && s.everOpened == map[] && s.minted == {} && s.claims == [] && s.changes == [] && s.renewed == []
  }

  ghost predicate NoRepeats(xs: seq<nat>) {
    forall i, j :: 0 <= i < j < |xs| ==> xs[i] != xs[j]
  }

  // ----- reset links are single-use -----

  ghost predicate LinksKept(s: State) {
    && s.links.Keys <= s.minted
    && NoRepeats(s.claims)
    && (forall l :: l in s.claims ==> l in s.minted)
    && (forall l :: l in s.links ==> (s.links[l].used <==> l in s.claims))
  }

  predicate ChangingBy(s: State, f: nat, link: nat) {
    f in s.flows && s.flows[f].Replacing? && s.flows[f].via == Emailed(link)
  }

  /** Each claim backs one request that may still store a password, or one that has. */
  ghost predicate ChangesKept(s: State) {
    && NoRepeats(s.changes)
    && (forall l :: l in s.changes ==> l in s.claims)
    && (forall f, l :: ChangingBy(s, f, l) ==> l in s.claims && l !in s.changes)
    && (forall f, g, l :: ChangingBy(s, f, l) && ChangingBy(s, g, l) ==> f == g)
  }

  lemma LinksCarry(s: State, s': State)
    requires LinksKept(s) && s'.claims == s.claims && s.minted <= s'.minted
    requires forall l :: l in s'.links ==> l in s.links && s'.links[l] == s.links[l]
    ensures LinksKept(s')
  {
  }

  lemma ClaimKeepsLinks(s: State, f: nat)
    requires LinksKept(s) && Enabled(s, Claim(f))
    ensures LinksKept(Next(s, Claim(f)))
  {
    var s' := Next(s, Claim(f));
    assert forall l :: l in s'.claims ==> l in s.claims || l == s.flows[f].link;
  }

  lemma StepKeepsLinks(s: State, e: Event)
    requires LinksKept(s) && Enabled(s, e)
    ensures LinksKept(Next(s, e))
  {
    if e.Claim? {
      ClaimKeepsLinks(s, e.f);
    } else if !e.CreateLink? {
      LinksCarry(s, Next(s, e));
    }
  }

  lemma ChangesCarry(s: State, s': State)
    requires ChangesKept(s) && s'.changes == s.changes
    requires forall l :: l in s.claims ==> l in s'.claims
    requires forall g, l :: ChangingBy(s', g, l) ==> ChangingBy(s, g, l)
    ensures ChangesKept(s')
  {
  }

  lemma StorePasswordKeepsChanges(s: State, f: nat)
    requires ChangesKept(s) && Enabled(s, StorePassword(f))
    ensures ChangesKept(Next(s, StorePassword(f)))
  {
    var s' := Next(s, StorePassword(f));
    if s.flows[f].via.Emailed? {
      assert ChangingBy(s, f, s.flows[f].via.link);
    }
    assert forall g, l :: ChangingBy(s', g, l) ==> g != f && ChangingBy(s, g, l);
  }

  lemma ClaimKeepsChanges(s: State, f: nat)
    requires LinksKept(s) && ChangesKept(s) && Enabled(s, Claim(f))
    ensures ChangesKept(Next(s, Claim(f)))
  {
    var s' := Next(s, Claim(f));
    assert forall g, l :: ChangingBy(s', g, l) ==>
      (g == f && l == s.flows[f].link && l !in s.claims) || (g != f && ChangingBy(s, g, l));
  }

  lemma ChangingStays(s: State, e: Event, g: nat, link: nat)
    requires Enabled(s, e) && !e.StorePassword? && !e.Claim? && ChangingBy(Next(s, e), g, link)
    ensures ChangingBy(s, g, link)
  {
  }

  lemma StepKeepsChanges(s: State, e: Event)
    requires LinksKept(s) && ChangesKept(s) && Enabled(s, e)
    ensures ChangesKept(Next(s, e))
  {
    if e.StorePassword? {
      StorePasswordKeepsChanges(s, e.f);
    } else if e.Claim? {
      ClaimKeepsChanges(s, e.f);
    } else {
      forall g, l | ChangingBy(Next(s, e), g, l)
        ensures ChangingBy(s, g, l)
      {
        ChangingStays(s, e, g, l);
      }
      ChangesCarry(s, Next(s, e));
    }
  }

  lemma {:induction false} RunKeepsLinks(s: State, es: seq<Event>)
    requires LinksKept(s) && ChangesKept(s) && ValidRun(s, es)
    ensures LinksKept(Final(s, es)) && ChangesKept(Final(s, es))
    decreases |es|
  {
    if es != [] {
      StepKeepsLinks(s, es[0]);
      StepKeepsChanges(s, es[0]);
      RunKeepsLinks(Next(s, es[0]), es[1..]);
    }
  }

  function ToSet(xs: seq<nat>): set<nat> { set x | x in xs }

  lemma {:induction false} SetOfNoRepeats(xs: seq<nat>)
    requires NoRepeats(xs)
    ensures |ToSet(xs)| == |xs|
  {
    if xs != [] {
      var init, last := xs[..|xs| - 1], xs[|xs| - 1];
      SetOfNoRepeats(init);
      assert xs == init + [last];
      assert ToSet(xs) == ToSet(init) + {last};
      assert last !in init;
    }
  }

  lemma SubsetSize(a: set<nat>, b: set<nat>)
    requires a <= b
    ensures |a| <= |b|
  {
    assert b == a + (b - a);
  }

  /** In every interleaving each link is claimed at most once and changes a password at
      most once, so emailed changes never exceed claims nor claims the links sent. */
  lemma LinksAreSingleUse(s: State, es: seq<Event>)
    requires Init(s) && ValidRun(s, es)
    ensures var t := Final(s, es);
      && NoRepeats(t.claims) && NoRepeats(t.changes)
      && (forall l :: l in t.changes ==> l in t.claims) && (forall l :: l in t.claims ==> l in t.minted)
      && |t.changes| <= |t.claims| <= |t.minted|
  {
    RunKeepsLinks(s, es);
    var t := Final(s, es);
    SetOfNoRepeats(t.claims);
    SetOfNoRepeats(t.changes);
    SubsetSize(ToSet(t.changes), ToSet(t.claims));
    SubsetSize(ToSet(t.claims), t.minted);
  }

  lemma GoneLinkStep(s: State, e: Event, link: nat)
    requires Enabled(s, e) && link in s.minted && link !in s.links
    ensures var t := Next(s, e); link in t.minted && link !in t.links && (link in t.claims ==> link in s.claims)
  {
  }

  /** A link whose row is gone is never claimed again, not even by a request that had
      already looked it up. */
  lemma {:induction false} GoneLinkIsNeverClaimed(s: State, es: seq<Event>, link: nat)
    requires ValidRun(s, es) && link in s.minted && link !in s.links
    ensures var t := Final(s, es); link !in t.links && (link in t.claims ==> link in s.claims)
    decreases |es|
  {
    if es != [] {
      GoneLinkStep(s, es[0], link);
      GoneLinkIsNeverClaimed(Next(s, es[0]), es[1..], link);
    }
  }

  /** So the reset cleanup of any password change voids for ever every link of that
      operator not claimed by then. */
  lemma CleanupVoidsUnclaimedLinks(s0: State, es0: seq<Event>, f: nat, es: seq<Event>, link: nat)
    requires Init(s0) && ValidRun(s0, es0)
    requires var s := Final(s0, es0);
      && Enabled(s, DeleteLinks(f, true)) && ValidRun(Next(s, DeleteLinks(f, true)), es)
      && link in s.links && s.links[link].admin == s.flows[f].admin && link !in s.claims
    ensures var s := Final(s0, es0); link !in Final(Next(s, DeleteLinks(f, true)), es).claims
  {
    RunKeepsLinks(s0, es0);
    GoneLinkIsNeverClaimed(Next(Final(s0, es0), DeleteLinks(f, true)), es, link);
  }

  // ----- revoked sessions stay revoked -----

  ghost predicate SessionsKept(s: State) {
    && (forall sid :: sid in s.sessions ==> sid in s.everOpened && s.everOpened[sid] == s.sessions[sid])
    && (forall f :: f in s.flows && s.flows[f].SessionFound? ==> s.flows[f].sid in s.everOpened)
  }

  lemma FoundStep(s: State, e: Event, f: nat)
    requires Enabled(s, e) && f in Next(s, e).flows && Next(s, e).flows[f].SessionFound?
    ensures (f in s.flows && s.flows[f] == Next(s, e).flows[f])
      || (e == RefreshLookup(f, Next(s, e).flows[f].sid) && e.sid in s.sessions)
  {
  }

  lemma SessionStep(s: State, e: Event, sid: nat)
    requires Enabled(s, e) && sid in Next(s, e).sessions
    ensures var t := Next(s, e);
      || (sid in s.sessions && t.sessions[sid] == s.sessions[sid])
      || (e.OpenSession? && e.sid == sid && sid in t.everOpened && t.everOpened[sid] == t.sessions[sid])
  {
  }

  lemma OpenedOnce(s: State, e: Event, sid: nat)
    requires Enabled(s, e) && sid in s.everOpened
    ensures sid in Next(s, e).everOpened && Next(s, e).everOpened[sid] == s.everOpened[sid]
  {
  }

  lemma StepKeepsSessions(s: State, e: Event)
    requires SessionsKept(s) && Enabled(s, e)
    ensures SessionsKept(Next(s, e))
  {
    var t := Next(s, e);
    forall sid | sid in t.sessions
      ensures sid in t.everOpened && t.everOpened[sid] == t.sessions[sid]
    {
      SessionStep(s, e, sid);
      if sid in s.everOpened { OpenedOnce(s, e, sid); }
    }
    forall f | f in t.flows && t.flows[f].SessionFound?
      ensures t.flows[f].sid in t.everOpened
    {
      FoundStep(s, e, f);
      OpenedOnce(s, e, t.flows[f].sid);
    }
  }

  lemma {:induction false} RunKeepsSessions(s: State, es: seq<Event>)
    requires SessionsKept(s) && ValidRun(s, es)
    ensures SessionsKept(Final(s, es))
    decreases |es|
  {
    if es != [] {
      StepKeepsSessions(s, es[0]);
      RunKeepsSessions(Next(s, es[0]), es[1..]);
    }
  }

  predicate LookedUp(s: State, sid: nat) {
    exists f :: f in s.flows && s.flows[f] == SessionFound(sid)
  }

  lemma RevokedIsNotFound(s: State, e: Event, sid: nat)
    requires Enabled(s, e) && sid in s.everOpened && sid !in s.sessions && !LookedUp(s, sid)
    ensures var t := Next(s, e); sid in t.everOpened && sid !in t.sessions && !LookedUp(t, sid)
  {
    var t := Next(s, e);
    forall f | f in t.flows && t.flows[f] == SessionFound(sid)
      ensures f in s.flows && s.flows[f] == SessionFound(sid)
    {}
  }

  lemma RevokedStep(s: State, e: Event, sid: nat)
    requires Enabled(s, e) && sid in s.everOpened && sid !in s.sessions && !LookedUp(s, sid)
    ensures var t := Next(s, e);
      && sid in t.everOpened && sid !in t.sessions && !LookedUp(t, sid)
      && s.renewed <= t.renewed && sid !in t.renewed[|s.renewed|..]
  {
    RevokedIsNotFound(s, e, sid);
    RenewedStep(s, e);
    if e.Renew? {
      assert s.flows[e.f] == SessionFound(s.flows[e.f].sid);
    }
  }

  lemma RenewedStep(s: State, e: Event)
    requires Enabled(s, e)
    ensures Next(s, e).renewed == s.renewed + if e.Renew? then [s.flows[e.f].sid] else []
  {
  }

  lemma NotAdded(from: seq<nat>, mid: seq<nat>, to: seq<nat>, x: nat)
    requires from <= mid <= to && x !in mid[|from|..] && x !in to[|mid|..]
    ensures from <= to && x !in to[|from|..]
  {
    assert to[|from|..] == mid[|from|..] + to[|mid|..];
  }

  /** Once its row is deleted, by a logout or a password change, a session never comes
      back, no later lookup of it succeeds, and it is not renewed again unless some
      request had looked it up before. */
  lemma {:induction false} RevokedStaysRevoked(s: State, es: seq<Event>, sid: nat)
    requires ValidRun(s, es) && sid in s.everOpened && sid !in s.sessions && !LookedUp(s, sid)
    ensures var t := Final(s, es);
      && sid !in t.sessions && !LookedUp(t, sid)
      && s.renewed <= t.renewed && sid !in t.renewed[|s.renewed|..]
    decreases |es|
  {
    if es != [] {
      RevokedStep(s, es[0], sid);
      RevokedStaysRevoked(Next(s, es[0]), es[1..], sid);
      NotAdded(s.renewed, Next(s, es[0]).renewed, Final(s, es).renewed, sid);
    }
  }

  lemma {:induction false} GoneSessionStaysGone(s: State, es: seq<Event>, sid: nat)
    requires ValidRun(s, es) && sid in s.everOpened && sid !in s.sessions
    ensures sid in Final(s, es).everOpened && sid !in Final(s, es).sessions
    decreases |es|
  {
    if es != [] {
      GoneSessionStaysGone(Next(s, es[0]), es[1..], sid);
    }
  }

  /** Whatever happened before and after, a refresh that looks a session up after a
      logout or a password change deleted it finds nothing. */
  lemma RevocationIsFinal(s0: State, es0: seq<Event>, revoke: Event, es: seq<Event>, sid: nat, f: nat)
    requires Init(s0) && ValidRun(s0, es0)
    requires var s := Final(s0, es0);
      && Enabled(s, revoke) && ValidRun(Next(s, revoke), es)
      && sid in s.sessions
      && (revoke == Logout(sid)
          || (revoke.DeleteSessions? && revoke.ok && s.flows[revoke.f].admin == s.sessions[sid].admin))
    ensures var t := Final(Next(Final(s0, es0), revoke), es);
      sid !in t.sessions && (f !in t.flows ==> Next(t, RefreshLookup(f, sid)) == t)
  {
    RunKeepsSessions(s0, es0);
    GoneSessionStaysGone(Next(Final(s0, es0), revoke), es, sid);
  }

  /** An operator's sessions are always the ones there at the start and the ones
      inserted since; so after a successful cleanup, only those inserted after it. */
  lemma {:induction false} SessionsComeFromInserts(s: State, es: seq<Event>, sid: nat)
    requires ValidRun(s, es) && sid in Final(s, es).sessions
    ensures (sid in s.sessions && Final(s, es).sessions[sid] == s.sessions[sid])
      || exists i :: 0 <= i < |es| && es[i].OpenSession? && es[i].sid == sid
    decreases |es|
  {
    if es != [] {
      SessionsComeFromInserts(Next(s, es[0]), es[1..], sid);
      if sid in Next(s, es[0]).sessions { SessionStep(s, es[0], sid); }
      if i :| 0 <= i < |es[1..]| && es[1..][i].OpenSession? && es[1..][i].sid == sid {
        assert es[i + 1] == es[1..][i];
      }
    }
  }

  /** The statements of one self-service change, nothing in between. */
  function OwnChange(f: nat, admin: nat, linksOk: bool, sid: nat, ttl: int): seq<Event> {
    [ChangeCheck(f, admin), StorePassword(f), DeleteSessions(f, true),
     DeleteLinks(f, linksOk), OpenSession(f, sid, ttl)]
  }

  /** Undisturbed, with its session cleanup working, it leaves the operator exactly the
      one new session, opened under the new password, and other operators' alone. */
  lemma OwnChangeLeavesOneSession(s: State, f: nat, admin: nat, linksOk: bool, sid: nat, ttl: int)
    requires f !in s.flows && admin in s.versions && sid !in s.everOpened && SessionsKept(s)
    ensures ValidRun(s, OwnChange(f, admin, linksOk, sid, ttl))
    ensures var t := Final(s, OwnChange(f, admin, linksOk, sid, ttl));
      && t.versions == s.versions[admin := s.versions[admin] + 1]
      && t.flows == s.flows
      && (forall k :: k in t.sessions && t.sessions[k].admin == admin ==> k == sid)
      && sid in t.sessions && t.sessions[sid] == Session(admin, s.now + ttl, t.versions[admin])
      && (forall k :: k in s.sessions && s.sessions[k].admin != admin ==>
            k in t.sessions && t.sessions[k] == s.sessions[k])
  {
    OwnStart(s, f, admin);
    var start, clean := [ChangeCheck(f, admin), StorePassword(f)], OwnClean(f, linksOk, sid, ttl);
    OwnCleanup(Final(s, start), f, linksOk, sid, ttl);
    RunsJoin(s, start, clean);
    assert OwnChange(f, admin, linksOk, sid, ttl) == start + clean;
    assert s.flows[f := Replaced(admin, SelfService, s.versions[admin] + 1)] - {f} == s.flows;
  }

  lemma OwnStart(s: State, f: nat, admin: nat)
    requires f !in s.flows && admin in s.versions
    ensures var es := [ChangeCheck(f, admin), StorePassword(f)];
      && ValidRun(s, es)
      && Final(s, es) == s.(versions := s.versions[admin := s.versions[admin] + 1],
                            flows := s.flows[f := Replaced(admin, SelfService, s.versions[admin] + 1)])
  {
    var s1 := Next(s, ChangeCheck(f, admin));
    RunsOn(s1, StorePassword(f), []);
    RunsOn(s, ChangeCheck(f, admin), [StorePassword(f)]);
    assert [ChangeCheck(f, admin), StorePassword(f)] == [ChangeCheck(f, admin)] + [StorePassword(f)];
  }

  function OwnClean(f: nat, linksOk: bool, sid: nat, ttl: int): seq<Event> {
    [DeleteSessions(f, true), DeleteLinks(f, linksOk), OpenSession(f, sid, ttl)]
  }

  lemma OwnCleanup(s: State, f: nat, linksOk: bool, sid: nat, ttl: int)
    requires f in s.flows && s.flows[f].Replaced? && s.flows[f].via == SelfService && sid !in s.everOpened
    ensures var es := OwnClean(f, linksOk, sid, ttl);
      && ValidRun(s, es)
      && var t, p := Final(s, es), s.flows[f];
         && t.flows == s.flows - {f} && t.versions == s.versions
         && t.sessions == WithoutSessionsOf(s.sessions, p.admin)[sid := Session(p.admin, s.now + ttl, p.version)]
  {
    var s3 := Next(s, DeleteSessions(f, true));
    var s4 := Next(s3, DeleteLinks(f, linksOk));
    RunsOn(s4, OpenSession(f, sid, ttl), []);
    RunsOn(s3, DeleteLinks(f, linksOk), [OpenSession(f, sid, ttl)]);
    RunsOn(s, DeleteSessions(f, true), [DeleteLinks(f, linksOk)] + [OpenSession(f, sid, ttl)]);
    assert OwnClean(f, linksOk, sid, ttl) ==
      [DeleteSessions(f, true)] + ([DeleteLinks(f, linksOk)] + [OpenSession(f, sid, ttl)]);
  }

  lemma RunsOn(s: State, e: Event, es: seq<Event>)
    requires Enabled(s, e) && ValidRun(Next(s, e), es)
    ensures ValidRun(s, [e] + es)
    ensures Final(s, [e] + es) == Final(Next(s, e), es)
  {
    assert ([e] + es)[1..] == es;
  }

  // ----- sessions opened under an old password -----

  /** The request will open a session for the operator under that password version. */
  function Pending(p: Phase): Option<(nat, nat)> {
    match p
    case PasswordAccepted(a, v) => Some((a, v))
    case Replaced(a, via, v) => if via.SelfService? then Some((a, v)) else None
    case SessionsDone(a, via, v) => if via.SelfService? then Some((a, v)) else None
    case Reissuing(a, v) => Some((a, v))
    case _ => None
  }

  ghost predicate OldInFlight(s: State, admin: nat, version: nat) {
    exists f :: f in s.flows && Pending(s.flows[f]).Some? &&
      Pending(s.flows[f]).value.0 == admin && Pending(s.flows[f]).value.1 < version
  }

  ghost predicate OldSession(s: State, admin: nat, version: nat) {
    exists sid :: sid in s.sessions && s.sessions[sid].admin == admin && s.sessions[sid].version < version
  }

  lemma InFlightStays(s: State, e: Event, f: nat)
    requires Enabled(s, e) && f in Next(s, e).flows && Pending(Next(s, e).flows[f]).Some?
    requires !e.LoginCheck? && !e.StorePassword?
    ensures f in s.flows && Pending(s.flows[f]) == Pending(Next(s, e).flows[f])
  {
  }

  /** A request comes to be in flight under the version of that moment. */
  lemma InFlightStep(s: State, e: Event, f: nat)
    requires Enabled(s, e) && f in Next(s, e).flows && Pending(Next(s, e).flows[f]).Some?
    ensures var p := Pending(Next(s, e).flows[f]).value;
      || (f in s.flows && Pending(s.flows[f]) == Some(p))
      || (p.0 in s.versions && p.1 >= s.versions[p.0])
  {
    if !e.LoginCheck? && !e.StorePassword? { InFlightStays(s, e, f); }
  }

  lemma OpenedStep(s: State, e: Event, sid: nat)
    requires Enabled(s, e) && sid in Next(s, e).sessions
    ensures var row := Next(s, e).sessions[sid];
      || (sid in s.sessions && row == s.sessions[sid])
      || (e.OpenSession? && Pending(s.flows[e.f]) == Some((row.admin, row.version)))
  {
  }

  lemma VersionsStep(s: State, e: Event, admin: nat)
    requires Enabled(s, e) && admin in s.versions
    ensures admin in Next(s, e).versions && Next(s, e).versions[admin] >= s.versions[admin]
  {
  }

  lemma NoneInFlightStep(s: State, e: Event, admin: nat, version: nat)
    requires Enabled(s, e) && admin in s.versions && s.versions[admin] >= version
    requires !OldInFlight(s, admin, version) && !OldSession(s, admin, version)
    ensures var t := Next(s, e);
      && admin in t.versions && t.versions[admin] >= version
      && !OldInFlight(t, admin, version) && !OldSession(t, admin, version)
  {
    var t := Next(s, e);
    VersionsStep(s, e, admin);
    forall f | f in t.flows && Pending(t.flows[f]).Some? && Pending(t.flows[f]).value.0 == admin
      ensures Pending(t.flows[f]).value.1 >= version
    {
      InFlightStep(s, e, f);
    }
    forall sid | sid in t.sessions && t.sessions[sid].admin == admin
      ensures t.sessions[sid].version >= version
    {
      OpenedStep(s, e, sid);
    }
  }

  lemma {:induction false} NoneInFlightNoneLater(s: State, es: seq<Event>, admin: nat, version: nat)
    requires ValidRun(s, es) && admin in s.versions && s.versions[admin] >= version
    requires !OldInFlight(s, admin, version) && !OldSession(s, admin, version)
    ensures !OldSession(Final(s, es), admin, version)
    decreases |es|
  {
    if es != [] {
      NoneInFlightStep(s, es[0], admin, version);
      NoneInFlightNoneLater(Next(s, es[0]), es[1..], admin, version);
    }
  }

  lemma UnusedId(ids: set<nat>) returns (n: nat)
    ensures n !in ids
  {
    n := 0;
    var below: set<nat> := {};
    while n in ids
      invariant below <= ids && forall k :: k in below <==> 0 <= k < n
      decreases |ids - below|
    {
      assert |ids - below| == |ids - (below + {n})| + 1 by {
        assert ids - below == (ids - (below + {n})) + {n};
      }
      below := below + {n};
      n := n + 1;
    }
  }

  /** What remains to do for a request that will open a session. */
  function Rest(s: State, f: nat, sid: nat): seq<Event>
    requires f in s.flows
  {
    (if s.flows[f].Replaced? then [DeleteSessions(f, false), DeleteLinks(f, false)]
     else if s.flows[f].SessionsDone? then [DeleteLinks(f, false)] else []) + [OpenSession(f, sid, 0)]
  }

  /** The session that a request opens is there, as the request meant it. */
  predicate Opened(s: State, t: State, f: nat, sid: nat)
    requires f in s.flows
  {
    && sid in t.sessions && Pending(s.flows[f]) == Some((t.sessions[sid].admin, t.sessions[sid].version))
    && t.sessions[sid].expires == t.now && t.renewed == s.renewed
    && sid in t.everOpened && t.everOpened[sid] == t.sessions[sid]
  }

  lemma OpensAtOnce(s: State, f: nat, sid: nat)
    requires f in s.flows && (s.flows[f].PasswordAccepted? || s.flows[f].Reissuing?) && sid !in s.everOpened
    ensures ValidRun(s, [OpenSession(f, sid, 0)]) && Opened(s, Final(s, [OpenSession(f, sid, 0)]), f, sid)
  {
    RunsOn(s, OpenSession(f, sid, 0), []);
    assert [OpenSession(f, sid, 0)] + [] == [OpenSession(f, sid, 0)];
  }

  lemma OpensAfterLinks(s: State, f: nat, sid: nat)
    requires f in s.flows && s.flows[f].SessionsDone? && s.flows[f].via.SelfService? && sid !in s.everOpened
    ensures var es := [DeleteLinks(f, false), OpenSession(f, sid, 0)];
      ValidRun(s, es) && Opened(s, Final(s, es), f, sid)
  {
    var t := Next(s, DeleteLinks(f, false));
    assert Pending(t.flows[f]) == Pending(s.flows[f]);
    OpensAtOnce(t, f, sid);
    RunsOn(s, DeleteLinks(f, false), [OpenSession(f, sid, 0)]);
    assert [DeleteLinks(f, false), OpenSession(f, sid, 0)] == [DeleteLinks(f, false)] + [OpenSession(f, sid, 0)];
  }

  lemma OpensAfterSessions(s: State, f: nat, sid: nat)
    requires f in s.flows && s.flows[f].Replaced? && s.flows[f].via.SelfService? && sid !in s.everOpened
    ensures var es := [DeleteSessions(f, false), DeleteLinks(f, false), OpenSession(f, sid, 0)];
      ValidRun(s, es) && Opened(s, Final(s, es), f, sid)
  {
    var t := Next(s, DeleteSessions(f, false));
    assert Pending(t.flows[f]) == Pending(s.flows[f]);
    OpensAfterLinks(t, f, sid);
    var rest := [DeleteLinks(f, false), OpenSession(f, sid, 0)];
    RunsOn(s, DeleteSessions(f, false), rest);
    assert [DeleteSessions(f, false), DeleteLinks(f, false), OpenSession(f, sid, 0)] ==
      [DeleteSessions(f, false)] + rest;
  }

  lemma InFlightCanFinish(s: State, f: nat, sid: nat)
    requires f in s.flows && Pending(s.flows[f]).Some? && sid !in s.everOpened
    ensures ValidRun(s, Rest(s, f, sid)) && Opened(s, Final(s, Rest(s, f, sid)), f, sid)
  {
    if s.flows[f].Replaced? {
      OpensAfterSessions(s, f, sid);
      assert Rest(s, f, sid) == [DeleteSessions(f, false), DeleteLinks(f, false), OpenSession(f, sid, 0)];
    } else if s.flows[f].SessionsDone? {
      OpensAfterLinks(s, f, sid);
      assert Rest(s, f, sid) == [DeleteLinks(f, false), OpenSession(f, sid, 0)];
    } else {
      OpensAtOnce(s, f, sid);
      assert Rest(s, f, sid) == [OpenSession(f, sid, 0)];
    }
  }

  lemma OldRequestOpens(s: State, admin: nat, version: nat) returns (es: seq<Event>)
    requires OldInFlight(s, admin, version)
    ensures ValidRun(s, es) && OldSession(Final(s, es), admin, version)
  {
    var f :| f in s.flows && Pending(s.flows[f]).Some? &&
      Pending(s.flows[f]).value.0 == admin && Pending(s.flows[f]).value.1 < version;
    var sid := UnusedId(s.everOpened.Keys);
    InFlightCanFinish(s, f, sid);
    es := Rest(s, f, sid);
    assert Final(s, es).sessions[sid].admin == admin;
  }

  /** Right after a password change revoked an operator's sessions, the promise that
      no session of an older password exists from then on, whatever happens next,
      holds exactly when no request past its password check is still in flight. */
  lemma OldPasswordsAreOutExactlyWhen(s: State, admin: nat)
    requires admin in s.versions && (forall sid :: sid in s.sessions ==> s.sessions[sid].admin != admin)
    ensures !OldInFlight(s, admin, s.versions[admin]) <==>
      forall es :: ValidRun(s, es) ==> !OldSession(Final(s, es), admin, s.versions[admin])
  {
    var version := s.versions[admin];
    if OldInFlight(s, admin, version) {
      var es := OldRequestOpens(s, admin, version);
      assert exists run :: ValidRun(s, run) && OldSession(Final(s, run), admin, version);
    } else {
      forall es | ValidRun(s, es)
        ensures !OldSession(Final(s, es), admin, version)
      {
        NoneInFlightNoneLater(s, es, admin, version);
      }
    }
  }

  // ----- renewals under an old password -----

  /** The session was opened by this operator under an older password. */
  predicate Old(s: State, sid: nat, admin: nat, version: nat) {
    sid in s.everOpened && s.everOpened[sid].admin == admin && s.everOpened[sid].version < version
  }

  /** A refresh has looked such a session up and not answered yet. */
  ghost predicate OldFound(s: State, admin: nat, version: nat) {
    exists f :: f in s.flows && s.flows[f].SessionFound? && Old(s, s.flows[f].sid, admin, version)
  }

  /** Between s and t such a session was renewed. */
  ghost predicate OldRenewal(s: State, t: State, admin: nat, version: nat)
    requires s.renewed <= t.renewed
  {
    exists sid :: sid in t.renewed[|s.renewed|..] && Old(t, sid, admin, version)
  }

  lemma {:induction false} RenewedGrows(s: State, es: seq<Event>)
    requires ValidRun(s, es)
    ensures s.renewed <= Final(s, es).renewed
    decreases |es|
  {
    if es != [] {
      RenewedStep(s, es[0]);
      RenewedGrows(Next(s, es[0]), es[1..]);
    }
  }

  lemma {:induction false} OpenedStays(s: State, es: seq<Event>, sid: nat)
    requires ValidRun(s, es) && sid in s.everOpened
    ensures sid in Final(s, es).everOpened && Final(s, es).everOpened[sid] == s.everOpened[sid]
    decreases |es|
  {
    if es != [] {
      OpenedOnce(s, es[0], sid);
      OpenedStays(Next(s, es[0]), es[1..], sid);
    }
  }

  /** Nothing old is there, on its way in, or found. */
  ghost predicate AllNew(s: State, admin: nat, version: nat) {
    && SessionsKept(s) && admin in s.versions && s.versions[admin] >= version
    && !OldInFlight(s, admin, version) && !OldSession(s, admin, version) && !OldFound(s, admin, version)
  }

  lemma StepFindsNothingOld(s: State, e: Event, admin: nat, version: nat)
    requires AllNew(s, admin, version) && Enabled(s, e)
    ensures !OldFound(Next(s, e), admin, version)
  {
    var t := Next(s, e);
    forall f | f in t.flows && t.flows[f].SessionFound?
      ensures !Old(t, t.flows[f].sid, admin, version)
    {
      var sid := t.flows[f].sid;
      FoundStep(s, e, f);
      OpenedOnce(s, e, sid);
    }
  }

  lemma StepKeepsAllNew(s: State, e: Event, admin: nat, version: nat)
    requires AllNew(s, admin, version) && Enabled(s, e)
    ensures AllNew(Next(s, e), admin, version)
    ensures e.Renew? ==> s.flows[e.f].sid in s.everOpened && !Old(s, s.flows[e.f].sid, admin, version)
  {
    StepKeepsSessions(s, e);
    NoneInFlightStep(s, e, admin, version);
    StepFindsNothingOld(s, e, admin, version);
  }

  lemma {:induction false} NothingOldIsRenewed(s: State, es: seq<Event>, admin: nat, version: nat)
    requires AllNew(s, admin, version) && ValidRun(s, es)
    ensures s.renewed <= Final(s, es).renewed
    ensures forall sid :: sid in Final(s, es).renewed[|s.renewed|..] ==> !Old(Final(s, es), sid, admin, version)
    decreases |es|
  {
    if es != [] {
      var e, t := es[0], Final(s, es);
      StepKeepsAllNew(s, e, admin, version);
      NothingOldIsRenewed(Next(s, e), es[1..], admin, version);
      if e.Renew? {
        var sid := s.flows[e.f].sid;
        OpenedStays(s, es, sid);
        SplitRenewed(s.renewed, sid, t.renewed);
      }
    }
  }

  lemma SplitRenewed(before: seq<nat>, sid: nat, after: seq<nat>)
    requires before + [sid] <= after
    ensures before <= after && after[|before|..] == [sid] + after[|before| + 1..]
  {
    assert (before + [sid])[|before|] == sid;
  }

  lemma {:induction false} RunsJoin(s: State, a: seq<Event>, b: seq<Event>)
    requires ValidRun(s, a) && ValidRun(Final(s, a), b)
    ensures ValidRun(s, a + b) && Final(s, a + b) == Final(Final(s, a), b)
    decreases |a|
  {
    if a == [] {
      assert a + b == b;
    } else {
      RunsJoin(Next(s, a[0]), a[1..], b);
      assert (a + b)[1..] == a[1..] + b;
    }
  }

  /** A session that is there can be renewed by a new request. */
  lemma LiveSessionRenews(s: State, sid: nat) returns (es: seq<Event>)
    requires sid in s.sessions && s.now <= s.sessions[sid].expires
    ensures ValidRun(s, es)
    ensures Final(s, es).renewed == s.renewed + [sid] && Final(s, es).everOpened == s.everOpened
  {
    var f := UnusedId(s.flows.Keys);
    es := [RefreshLookup(f, sid), Renew(f)];
    RunsOn(Next(s, RefreshLookup(f, sid)), Renew(f), []);
    RunsOn(s, RefreshLookup(f, sid), [Renew(f)]);
    assert es == [RefreshLookup(f, sid)] + [Renew(f)];
  }

  lemma InFlightCanRenew(s: State, f: nat) returns (es: seq<Event>, sid: nat)
    requires f in s.flows && Pending(s.flows[f]).Some?
    ensures ValidRun(s, es)
    ensures var t := Final(s, es);
      && t.renewed == s.renewed + [sid] && sid in t.everOpened
      && (t.everOpened[sid].admin, t.everOpened[sid].version) == Pending(s.flows[f]).value
  {
    sid := UnusedId(s.everOpened.Keys);
    InFlightCanFinish(s, f, sid);
    var opens := Rest(s, f, sid);
    var renews := LiveSessionRenews(Final(s, opens), sid);
    RunsJoin(s, opens, renews);
    es := opens + renews;
  }

  lemma OldRequestRenews(s: State, admin: nat, version: nat) returns (es: seq<Event>)
    requires OldInFlight(s, admin, version) || OldFound(s, admin, version)
    ensures ValidRun(s, es) && s.renewed <= Final(s, es).renewed && OldRenewal(s, Final(s, es), admin, version)
  {
    var sid: nat;
    if OldFound(s, admin, version) {
      var f :| f in s.flows && s.flows[f].SessionFound? && Old(s, s.flows[f].sid, admin, version);
      sid := s.flows[f].sid;
      es := [Renew(f)];
      RunsOn(s, Renew(f), []);
      assert [Renew(f)] + [] == es;
    } else {
      var f :| f in s.flows && Pending(s.flows[f]).Some? &&
        Pending(s.flows[f]).value.0 == admin && Pending(s.flows[f]).value.1 < version;
      es, sid := InFlightCanRenew(s, f);
    }
    var t := Final(s, es);
    SplitRenewed(s.renewed, sid, t.renewed);
    assert t.renewed[|s.renewed|..][0] == sid && Old(t, sid, admin, version);
  }

  /** After any run, in any state in which an operator has no session, as right after a
      password change revoked them: the promise that no session opened with an older password
      is renewed from then on holds exactly when no request of theirs is past its password
      check under one, and no refresh has such a session already looked up. */
  lemma OldPasswordsRenewNothingExactlyWhen(s0: State, es0: seq<Event>, admin: nat)
    requires Init(s0) && ValidRun(s0, es0)
    requires var s := Final(s0, es0);
      admin in s.versions && forall sid :: sid in s.sessions ==> s.sessions[sid].admin != admin
    ensures var s := Final(s0, es0); var version := s.versions[admin];
      !OldInFlight(s, admin, version) && !OldFound(s, admin, version) <==>
      forall es :: ValidRun(s, es) ==> s.renewed <= Final(s, es).renewed && !OldRenewal(s, Final(s, es), admin, version)
  {
    var s := Final(s0, es0);
    var version := s.versions[admin];
    RunKeepsSessions(s0, es0);
    if OldInFlight(s, admin, version) || OldFound(s, admin, version) {
      var es := OldRequestRenews(s, admin, version);
    } else {
      forall es | ValidRun(s, es)
        ensures s.renewed <= Final(s, es).renewed && !OldRenewal(s, Final(s, es), admin, version)
      {
        NothingOldIsRenewed(s, es, admin, version);
      }
    }
  }

  /** One operator, numbered 7, with a first password. */
  const FRESH: State := State(0, map[7 := 0], map[], map[], map[], map[], {}, [], [], [])

  /** A colleague stores a password and revokes the sessions. */
  function Revocation(f: nat, admin: nat): seq<Event> {
    [ColleagueLookup(f, admin), StorePassword(f), DeleteSessions(f, true)]
  }

  /** The refresh has found the session when a colleague changes the password. */
  const FOUND_FIRST: seq<Event> := [LoginCheck(1, 7), OpenSession(1, 5, 10), RefreshLookup(2, 5)] + Revocation(3, 7)

  /** The login is past its password check when a colleague changes the password. */
  const CHECKED_FIRST: seq<Event> := [LoginCheck(1, 7)] + Revocation(3, 7)

  lemma ReplacingRuns(s: State, f: nat, admin: nat)
    requires f !in s.flows && admin in s.versions
    ensures var es := [ColleagueLookup(f, admin), StorePassword(f)]; var v := s.versions[admin] + 1;
      ValidRun(s, es)
      && Final(s, es) == s.(flows := s.flows[f := Replaced(admin, Colleague, v)],
         versions := s.versions[admin := v])
  {
    var s1 := Next(s, ColleagueLookup(f, admin));
    RunsOn(s1, StorePassword(f), []);
    RunsOn(s, ColleagueLookup(f, admin), [StorePassword(f)]);
    assert [ColleagueLookup(f, admin), StorePassword(f)] == [ColleagueLookup(f, admin)] + [StorePassword(f)];
  }

  lemma DeletionRuns(s: State, f: nat)
    requires f in s.flows && s.flows[f].Replaced?
    ensures var p := s.flows[f];
      ValidRun(s, [DeleteSessions(f, true)]) && Final(s, [DeleteSessions(f, true)]) ==
      s.(flows := s.flows[f := SessionsDone(p.admin, p.via, p.version)],
         sessions := WithoutSessionsOf(s.sessions, p.admin))
  {
    RunsOn(s, DeleteSessions(f, true), []);
    assert [DeleteSessions(f, true)] + [] == [DeleteSessions(f, true)];
  }

  lemma RevocationRuns(s: State, f: nat, admin: nat)
    requires f !in s.flows && admin in s.versions
    ensures ValidRun(s, Revocation(f, admin))
    ensures var v := s.versions[admin] + 1;
      Final(s, Revocation(f, admin)) ==
      s.(flows := s.flows[f := SessionsDone(admin, Colleague, v)], versions := s.versions[admin := v],
         sessions := WithoutSessionsOf(s.sessions, admin))
  {
    var first := [ColleagueLookup(f, admin), StorePassword(f)];
    ReplacingRuns(s, f, admin);
    DeletionRuns(Final(s, first), f);
    RunsJoin(s, first, [DeleteSessions(f, true)]);
    assert Revocation(f, admin) == first + [DeleteSessions(f, true)];
    var v := s.versions[admin] + 1;
    assert s.flows[f := Replaced(admin, Colleague, v)][f := SessionsDone(admin, Colleague, v)] ==
      s.flows[f := SessionsDone(admin, Colleague, v)];
  }

  /** The state in which the session has been opened and found. */
  function AfterLookup(): State {
    FRESH.(sessions := map[5 := Session(7, 10, 0)], everOpened := map[5 := Session(7, 10, 0)],
           flows := map[2 := SessionFound(5)])
  }

  lemma LookupRuns()
    ensures var es := [LoginCheck(1, 7), OpenSession(1, 5, 10), RefreshLookup(2, 5)];
      ValidRun(FRESH, es) && Final(FRESH, es) == AfterLookup()
  {
    var s1 := Next(FRESH, LoginCheck(1, 7));
    var s2 := Next(s1, OpenSession(1, 5, 10));
    assert s2.flows == map[];
    assert Next(s2, RefreshLookup(2, 5)) == AfterLookup();
    RunsOn(s2, RefreshLookup(2, 5), []);
    RunsOn(s1, OpenSession(1, 5, 10), [RefreshLookup(2, 5)]);
    RunsOn(FRESH, LoginCheck(1, 7), [OpenSession(1, 5, 10)] + [RefreshLookup(2, 5)]);
    assert [LoginCheck(1, 7), OpenSession(1, 5, 10), RefreshLookup(2, 5)]
      == [LoginCheck(1, 7)] + ([OpenSession(1, 5, 10)] + [RefreshLookup(2, 5)]);
  }

  lemma FoundFirstRuns()
    ensures ValidRun(FRESH, FOUND_FIRST)
    ensures var s := Final(FRESH, FOUND_FIRST);
      && s.flows == map[2 := SessionFound(5), 3 := SessionsDone(7, Colleague, 1)] && s.versions == map[7 := 1]
      && s.sessions == map[] && s.everOpened == map[5 := Session(7, 10, 0)] && s.renewed == []
  {
    LookupRuns();
    RevocationRuns(AfterLookup(), 3, 7);
    RunsJoin(FRESH, [LoginCheck(1, 7), OpenSession(1, 5, 10), RefreshLookup(2, 5)], Revocation(3, 7));
  }

  lemma CheckedFirstRuns()
    ensures ValidRun(FRESH, CHECKED_FIRST)
    ensures var s := Final(FRESH, CHECKED_FIRST);
      && s.flows == map[1 := PasswordAccepted(7, 0), 3 := SessionsDone(7, Colleague, 1)] && s.versions == map[7 := 1]
      && s.sessions == map[] && s.everOpened == map[] && s.renewed == []
  {
    RevocationRuns(Next(FRESH, LoginCheck(1, 7)), 3, 7);
    RunsOn(FRESH, LoginCheck(1, 7), Revocation(3, 7));
  }

  /** Both runs start from nothing, end with every session of the operator revoked, and can
      still renew a session opened with the password just replaced; in the first, no request
      past its password check was in flight. */
  lemma OldPasswordStillRenews()
    ensures Init(FRESH) && ValidRun(FRESH, FOUND_FIRST) && ValidRun(FRESH, CHECKED_FIRST)
    ensures var s := Final(FRESH, FOUND_FIRST);
      && s.sessions == map[] && s.versions == map[7 := 1] && !OldInFlight(s, 7, 1)
      && ValidRun(s, [Renew(2)]) && s.renewed <= Final(s, [Renew(2)]).renewed
      && OldRenewal(s, Final(s, [Renew(2)]), 7, 1)
    ensures var s := Final(FRESH, CHECKED_FIRST);
      && s.sessions == map[] && s.versions == map[7 := 1] && !OldFound(s, 7, 1)
      && exists es :: ValidRun(s, es) && s.renewed <= Final(s, es).renewed && OldRenewal(s, Final(s, es), 7, 1)
  {
    FoundFirstRuns();
    CheckedFirstRuns();
    var found, checked := Final(FRESH, FOUND_FIRST), Final(FRESH, CHECKED_FIRST);
    RunsOn(found, Renew(2), []);
    assert [Renew(2)] + [] == [Renew(2)];
    var t := Final(found, [Renew(2)]);
    assert t.renewed[0..] == [5] && Old(t, 5, 7, 1);
    assert checked.flows[1] == PasswordAccepted(7, 0);
    assert Pending(checked.flows[1]).value.1 < 1;
    var es := OldRequestRenews(checked, 7, 1);
  }
}

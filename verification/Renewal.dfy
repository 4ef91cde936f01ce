/** Access-token renewal against the two refresh-session tables. */
module Renewal {

  datatype Role = User | StoreAdmin | Internal

  /** A signed token; only tokens the server issued verify. */
  datatype Token = Token(id: nat, user: nat, email: string, role: Role, expires: int)

  datatype SessionRow = SessionRow(owner: nat, refresh: Token, blocked: bool, expires: int)

  datatype State = State(
    issued: set<Token>,
    drawn: set<nat>,
    userSessions: map<nat, SessionRow>,
    internalSessions: map<nat, SessionRow>)

  datatype Verdict =
    | Invalid
    | WrongRole
    | NotFound
    | Blocked
    | WrongOwner
    | Mismatched
    | Expired
    | Renewed(user: nat, email: string, role: Role)

  predicate Verifies(s: State, t: Token, now: int) { t in s.issued && now < t.expires }

  /** The checks both handlers make against the row found under the token's id. */
  function CheckRow(row: SessionRow, t: Token, now: int, role: Role): Verdict {
    if row.blocked then Blocked
    else if row.owner != t.user then WrongOwner
    else if row.refresh != t then Mismatched
    else if now > row.expires then Expired
    else Renewed(t.user, t.email, role)
  }

  /** renewAccessToken: it never looks at the presented token's role. */
  function RenewUser(s: State, t: Token, verifiedAt: int, checkedAt: int): Verdict {
    if !Verifies(s, t, verifiedAt) then Invalid
    else if t.id !in s.userSessions then NotFound
    else CheckRow(s.userSessions[t.id], t, checkedAt, User)
  }

  function RenewInternal(s: State, t: Token, verifiedAt: int, checkedAt: int): Verdict {
    if !Verifies(s, t, verifiedAt) then Invalid
    else if t.role != Internal then WrongRole
    else if t.id !in s.internalSessions then NotFound
    else CheckRow(s.internalSessions[t.id], t, checkedAt, Internal)
  }

  /** Every way a token is minted or a session row written or deleted. A login, of an
      app user or of an operator, draws two ids; `stored` says whether its session
      insert succeeded. */
  datatype Event =
    | Login(role: Role, user: nat, email: string, access: nat, refresh: nat,
            at: int, accessTtl: int, refreshTtl: int, stored: bool)
    | StoreAdminLogin(user: nat, email: string, access: nat, at: int, accessTtl: int)
    | Renew(role: Role, t: Token, verifiedAt: int, checkedAt: int, access: nat, accessTtl: int)
    | InternalLogout(t: Token, at: int)
    | RevokeInternal(owner: nat)

  predicate Enabled(s: State, e: Event) {
    match e
    case Login(role, _, _, a, r, _, _, _, _) => role != StoreAdmin && a !in s.drawn && r !in s.drawn && a != r
    case StoreAdminLogin(_, _, a, _, _) => a !in s.drawn
    case Renew(role, _, _, _, a, _) => role != StoreAdmin && a !in s.drawn
    case InternalLogout(_, _) => true
    case RevokeInternal(_) => true
  }

  function Mint(s: State, t: Token): State { s.(issued := s.issued + {t}, drawn := s.drawn + {t.id}) }

  /** A login mints an access and a refresh token and stores the session under the
      refresh token's id, in the table of its role. */
  function Issued(s: State, access: Token, refresh: Token, stored: bool): State {
    var minted := Mint(Mint(s, access), refresh);
    var row := SessionRow(refresh.user, refresh, false, refresh.expires);
    if !stored then minted
    else if refresh.role == User then minted.(userSessions := s.userSessions[refresh.id := row])
    else minted.(internalSessions := s.internalSessions[refresh.id := row])
  }

  function Granted(s: State, v: Verdict, access: nat, expires: int): State {
    if v.Renewed? then Mint(s, Token(access, v.user, v.email, v.role, expires)) else s
  }

  function Next(s: State, e: Event): State
    requires Enabled(s, e)
  {
    match e
    case Login(role, u, email, a, r, at, attl, rttl, stored) =>
      Issued(s, Token(a, u, email, role, at + attl), Token(r, u, email, role, at + rttl), stored)
    case StoreAdminLogin(u, email, a, at, attl) => Mint(s, Token(a, u, email, StoreAdmin, at + attl))
    case Renew(role, t, v, c, a, ttl) =>
      Granted(s, if role == User then RenewUser(s, t, v, c) else RenewInternal(s, t, v, c), a, c + ttl)
    case InternalLogout(t, at) =>
      if Verifies(s, t, at) then s.(internalSessions := s.internalSessions - {t.id}) else s
    case RevokeInternal(owner) =>
      s.(internalSessions := map id | id in s.internalSessions && s.internalSessions[id].owner != owner
         :: s.internalSessions[id])
  }

  predicate ValidRun(s: State, es: seq<Event>)
    decreases |es|
  {
    es == [] || (Enabled(s, es[0]) && ValidRun(Next(s, es[0]), es[1..]))
  }

  function Final(s: State, es: seq<Event>): State
    requires ValidRun(s, es)
    decreases |es|
  {
    if es == [] then s else Final(Next(s, es[0]), es[1..])
  }

  const EMPTY: State := State({}, {}, map[], map[])

  /** A table holds, under each id, the unblocked row of an issued token with that id
      and the table's role. */
  ghost predicate TableKept(s: State, table: map<nat, SessionRow>, role: Role) {
    forall id :: id in table ==>
      var row := table[id];
      row.refresh in s.issued && row.refresh.id == id && row.refresh.role == role &&
      row.owner == row.refresh.user && row.expires == row.refresh.expires && !row.blocked
  }

  ghost predicate Inv(s: State) {
    && (forall t :: t in s.issued ==> t.id in s.drawn)
    && (forall t, u :: t in s.issued && u in s.issued && t.id == u.id ==> t == u)
    && TableKept(s, s.userSessions, User)
    && TableKept(s, s.internalSessions, Internal)
  }

  lemma MintKeepsInv(s: State, t: Token)
    requires Inv(s) && t.id !in s.drawn
    ensures Inv(Mint(s, t))
  {
  }

  lemma StoreKeepsInv(s: State, t: Token)
    requires Inv(s) && t in s.issued
    ensures var row := SessionRow(t.user, t, false, t.expires);
      && (t.role == User ==> Inv(s.(userSessions := s.userSessions[t.id := row])))
      && (t.role == Internal ==> Inv(s.(internalSessions := s.internalSessions[t.id := row])))
  {
  }

  lemma SameKeepsInv(s: State, t: State)
    requires Inv(s) && s == t
    ensures Inv(t)
  {
  }

  lemma LoginKeepsInv(s: State, e: Event)
    requires Inv(s) && Enabled(s, e) && e.Login?
    ensures Inv(Next(s, e))
  {
    var access := Token(e.access, e.user, e.email, e.role, e.at + e.accessTtl);
    var refresh := Token(e.refresh, e.user, e.email, e.role, e.at + e.refreshTtl);
    IssueKeepsInv(s, access, refresh, e.stored);
    SameKeepsInv(Issued(s, access, refresh, e.stored), Next(s, e));
  }

  lemma StepKeepsInv(s: State, e: Event)
    requires Inv(s) && Enabled(s, e)
    ensures Inv(Next(s, e))
  {
    match e
    case Login(_, _, _, _, _, _, _, _, _) => LoginKeepsInv(s, e);
    case StoreAdminLogin(u, email, a, at, attl) =>
      MintKeepsInv(s, Token(a, u, email, StoreAdmin, at + attl));
      SameKeepsInv(Mint(s, Token(a, u, email, StoreAdmin, at + attl)), Next(s, e));
    case Renew(role, t, v, c, a, ttl) =>
      var verdict := if role == User then RenewUser(s, t, v, c) else RenewInternal(s, t, v, c);
      GrantKeepsInv(s, verdict, a, c + ttl);
      SameKeepsInv(Granted(s, verdict, a, c + ttl), Next(s, e));
    case InternalLogout(_, _) => DeleteKeepsInv(s, e);
    case RevokeInternal(_) => DeleteKeepsInv(s, e);
  }

  lemma GrantKeepsInv(s: State, v: Verdict, access: nat, expires: int)
    requires Inv(s) && access !in s.drawn
    ensures Inv(Granted(s, v, access, expires))
  {
    if v.Renewed? {
      MintKeepsInv(s, Token(access, v.user, v.email, v.role, expires));
    }
  }

  lemma IssueKeepsInv(s: State, access: Token, refresh: Token, stored: bool)
    requires Inv(s) && access.id !in s.drawn && refresh.id !in s.drawn && access.id != refresh.id
    requires refresh.role == User || refresh.role == Internal
    ensures Inv(Issued(s, access, refresh, stored))
  {
    MintKeepsInv(s, access);
    MintKeepsInv(Mint(s, access), refresh);
    StoreKeepsInv(Mint(Mint(s, access), refresh), refresh);
  }

  lemma DeleteKeepsInv(s: State, e: Event)
    requires Inv(s) && (e.InternalLogout? || e.RevokeInternal?)
    ensures Inv(Next(s, e))
  {
    var fewer := Next(s, e).internalSessions;
    assert forall id :: id in fewer ==> id in s.internalSessions && fewer[id] == s.internalSessions[id];
  }

  lemma {:induction false} RunKeepsInv(s: State, es: seq<Event>)
    requires Inv(s) && ValidRun(s, es)
    ensures Inv(Final(s, es))
    decreases |es|
  {
    if es != [] {
      StepKeepsInv(s, es[0]);
      RunKeepsInv(Next(s, es[0]), es[1..]);
    }
  }

  /** In every reachable state, whatever token is presented: the blocked, owner and
      token-match checks never fail, and a renewal succeeds exactly for a verified
      token of the table's own role whose row is present and not past its expiry,
      carrying that token's user, e-mail and role. */
  lemma RenewalCarriesTheRefreshToken(es: seq<Event>, t: Token, verifiedAt: int, checkedAt: int)
    requires ValidRun(EMPTY, es)
    ensures var s := Final(EMPTY, es);
      var u, i := RenewUser(s, t, verifiedAt, checkedAt), RenewInternal(s, t, verifiedAt, checkedAt);
      && (u == Renewed(t.user, t.email, t.role) <==>
            Verifies(s, t, verifiedAt) && t.role == User && t.id in s.userSessions && checkedAt <= t.expires)
      && (i == Renewed(t.user, t.email, t.role) <==>
            Verifies(s, t, verifiedAt) && t.role == Internal && t.id in s.internalSessions && checkedAt <= t.expires)
      && (!u.Renewed? ==> u == Invalid || u == NotFound || u == Expired)
      && (!i.Renewed? ==> i == Invalid || i == WrongRole || i == NotFound || i == Expired)
      && (u.Renewed? ==> u == Renewed(t.user, t.email, t.role))
      && (i.Renewed? ==> i == Renewed(t.user, t.email, t.role))
  {
    RunKeepsInv(EMPTY, es);
  }

  /** In every reachable state a renewal issues exactly one token, for the same user, e-mail and
      role as the refresh token presented, expiring `accessTtl` after the check, if that token
      verifies, is of the handler's role, and its row is there and not past its expiry; and
      nothing otherwise. It touches no session. */
  lemma RenewalMintsTheSameIdentity(es: seq<Event>, e: Event)
    requires ValidRun(EMPTY, es) && Enabled(Final(EMPTY, es), e) && e.Renew?
    ensures var s, t := Final(EMPTY, es), Next(Final(EMPTY, es), e);
      var there := e.t.id in (if e.role == User then s.userSessions else s.internalSessions);
      var good := e.t in s.issued && e.verifiedAt < e.t.expires && e.t.role == e.role && there
        && e.checkedAt <= e.t.expires;
      && t.userSessions == s.userSessions && t.internalSessions == s.internalSessions
      && (good ==> t.issued == s.issued + {Token(e.access, e.t.user, e.t.email, e.t.role, e.checkedAt + e.accessTtl)})
      && (!good ==> t.issued == s.issued)
  {
    RenewalCarriesTheRefreshToken(es, e.t, e.verifiedAt, e.checkedAt);
  }

  // ----- where identities and sessions come from -----

  /** The event is a login of that user, with that e-mail and role. */
  predicate LogsIn(e: Event, t: Token) {
    || (e.Login? && t.user == e.user && t.email == e.email && t.role == e.role)
    || (e.StoreAdminLogin? && t.user == e.user && t.email == e.email && t.role == StoreAdmin)
  }

  ghost predicate FromALogin(es: seq<Event>, t: Token) {
    exists i :: 0 <= i < |es| && LogsIn(es[i], t)
  }

  lemma TokenStep(s: State, e: Event, t: Token)
    requires Inv(s) && Enabled(s, e) && t in Next(s, e).issued
    ensures || t in s.issued || LogsIn(e, t)
            || (e.Renew? && e.t in s.issued && t.user == e.t.user && t.email == e.t.email && t.role == e.t.role)
  {
  }

  lemma OriginsStep(done: seq<Event>, s: State, e: Event)
    requires Inv(s) && Enabled(s, e) && forall t :: t in s.issued ==> FromALogin(done, t)
    ensures forall t :: t in Next(s, e).issued ==> FromALogin(done + [e], t)
  {
    forall t | t in Next(s, e).issued
      ensures FromALogin(done + [e], t)
    {
      TokenStep(s, e, t);
      if LogsIn(e, t) {
        assert LogsIn((done + [e])[|done|], t);
      } else {
        var from := if t in s.issued then t else e.t;
        var i :| 0 <= i < |done| && LogsIn(done[i], from);
        assert LogsIn((done + [e])[i], t);
      }
    }
  }

  lemma {:induction false} RunKeepsOrigins(done: seq<Event>, s: State, es: seq<Event>)
    requires Inv(s) && ValidRun(s, es) && forall t :: t in s.issued ==> FromALogin(done, t)
    ensures forall t :: t in Final(s, es).issued ==> FromALogin(done + es, t)
    decreases |es|
  {
    if es == [] {
      assert done + es == done;
    } else {
      OriginsStep(done, s, es[0]);
      StepKeepsInv(s, es[0]);
      RunKeepsOrigins(done + [es[0]], Next(s, es[0]), es[1..]);
      assert done + [es[0]] + es[1..] == done + es;
    }
  }

  /** However often tokens are renewed, each one carries the user, e-mail and role of some login
      of the run; nobody gains another's identity or another role. */
  lemma EveryTokenComesFromALogin(es: seq<Event>, t: Token)
    requires ValidRun(EMPTY, es) && t in Final(EMPTY, es).issued
    ensures exists i :: 0 <= i < |es| && LogsIn(es[i], t)
  {
    RunKeepsOrigins([], EMPTY, es);
    assert [] + es == es;
  }

  /** A login whose insert succeeded opens this session; it lasts, unchanged, until an operator's
      own log-out with a token of that id that verifies, or the revocation of that operator's
      sessions. App users' sessions are never ended. */
  lemma SessionsLastUntilEnded(s: State, e: Event, id: nat)
    requires Inv(s) && Enabled(s, e)
    ensures var opens := e.Login? && e.stored && e.refresh == id;
      var ends := (e.InternalLogout? && e.t in s.issued && e.at < e.t.expires && e.t.id == id)
        || (e.RevokeInternal? && id in s.internalSessions && s.internalSessions[id].owner == e.owner);
      var t := Next(s, e);
      && (id in t.userSessions <==> id in s.userSessions || (opens && e.role == User))
      && (id in t.internalSessions <==> (id in s.internalSessions && !ends) || (opens && e.role == Internal))
      && (opens ==>
            var row := SessionRow(e.user, Token(id, e.user, e.email, e.role, e.at + e.refreshTtl), false,
                                  e.at + e.refreshTtl);
            if e.role == User then t.userSessions[id] == row else t.internalSessions[id] == row)
      && (!opens && id in t.userSessions ==> t.userSessions[id] == s.userSessions[id])
      && (!opens && id in t.internalSessions ==> t.internalSessions[id] == s.internalSessions[id])
  {
  }
}

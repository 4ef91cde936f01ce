/** The users and subscription_receipts tables, and the two handlers that write them. */
module Subscriptions {
  import opened Text

  type UserId = nat
  type TxId = string

  datatype ReceiptStatus = Active | Expired | Revoked | BillingRetry

  datatype UserStatus = Free | Subscribed | Lapsed | Withdrawn

  datatype Environment = Sandbox | Production

  /** A verified transaction; dates are in milliseconds, 0 when absent. */
  datatype Transaction = Transaction(original: TxId, product: string, environment: string, expires: int, revoked: int)

  datatype Receipt = Receipt(owner: UserId, product: string, environment: Environment,
    status: ReceiptStatus, expires: Option<int>)

  datatype User = User(status: UserStatus, expires: Option<int>)

  /** How far a handler's two writes get: the database may refuse either. */
  datatype Cut = Whole | NoReceipt | ReceiptOnly

  datatype Event =
    | Register(user: UserId)
    | Verify(user: UserId, tx: Transaction, now: int, cut: Cut)
    | Notify(kind: string, payload: Option<Transaction>, at: int, cut: Cut)

  datatype State = State(receipts: map<TxId, Receipt>, users: map<UserId, User>)

  datatype Answer = MissingTransaction | ServerError | Verified(user: User, receipt: Receipt) | Unhandled | Handled

  const NANOS_PER_MILLI: int := 1_000_000

  // ----- statuses -----

  /** The user status a receipt status stands for. */
  function Project(s: ReceiptStatus): UserStatus {
    match s
    case Active => Subscribed
    case BillingRetry => Subscribed
    case Expired => Lapsed
    case Revoked => Withdrawn
  }

  /** The transaction's own expiry lies before `now`, a time in nanoseconds. */
  predicate Over(tx: Transaction, now: int) {
    tx.expires > 0 && tx.expires * NANOS_PER_MILLI < now
  }

  function DeriveStatus(tx: Transaction, now: int): (ReceiptStatus, UserStatus) {
    if tx.revoked > 0 then (Revoked, Withdrawn)
    else if Over(tx, now) then (Expired, Lapsed)
    else (Active, Subscribed)
  }

  function StatusFromNotification(kind: string, tx: Transaction, now: int): (ReceiptStatus, UserStatus) {
    if kind == "SUBSCRIBED" || kind == "DID_RENEW" then (Active, Subscribed)
    else if kind == "DID_FAIL_TO_RENEW" then (BillingRetry, Subscribed)
    else if kind == "EXPIRED" then (Expired, Lapsed)
    else if kind == "REVOKE" then (Revoked, Withdrawn)
    else DeriveStatus(tx, now)
  }

  function Expiry(ms: int): Option<int> { if ms <= 0 then None else Some(ms) }

  function AsciiLower(c: char): char { if 'A' <= c <= 'Z' then c - 'A' + 'a' else c }

  /** strings.EqualFold(env, "Production"); no letter of it folds to a non-ASCII one. */
  function EnvironmentOf(env: string): Environment {
    if Lower(AsciiLower, env) == "production" then Production else Sandbox
  }

  // ----- meaning of the handlers -----

  /** INSERT ... ON CONFLICT (original_tx_id) DO UPDATE: the owner column is not updated. */
  function Upserted(receipts: map<TxId, Receipt>, user: UserId, tx: Transaction, status: ReceiptStatus): map<TxId,
      Receipt> {
    var owner := if tx.original in receipts then receipts[tx.original].owner else user;
    receipts[tx.original := Receipt(owner, tx.product, EnvironmentOf(tx.environment), status, Expiry(tx.expires))]
  }

  /** An insert needs an existing user; an update on conflict does not look. */
  predicate Upsertable(st: State, user: UserId, tx: Transaction) {
    tx.original in st.receipts || user in st.users
  }

  /** Both writes, as far as they get. */
  function Record(st: State, user: UserId, tx: Transaction, status: (ReceiptStatus, UserStatus), cut: Cut): (bool,
      State) {
    if cut == NoReceipt || !Upsertable(st, user, tx) then (false, st)
    else
      var half := st.(receipts := Upserted(st.receipts, user, tx, status.0));
      if cut == ReceiptOnly || user !in st.users then (false, half)
      else (true, half.(users := st.users[user := User(status.1, Expiry(tx.expires))]))
  }

  function VerifyOn(st: State, user: UserId, tx: Transaction, now: int, cut: Cut): (Answer, State) {
    if tx.original == "" then (MissingTransaction, st)
    else
      var (done, after) := Record(st, user, tx, DeriveStatus(tx, now), cut);
      (if done && tx.original in after.receipts && user in after.users
       then Verified(after.users[user], after.receipts[tx.original]) else ServerError, after)
  }

  function NotifyOn(st: State, kind: string, payload: Option<Transaction>, now: int, cut: Cut): (Answer, State) {
    if payload == None || payload.value.original == "" || payload.value.original !in st.receipts then (Unhandled, st)
    else
      var tx := payload.value;
      var (done, after) := Record(st, st.receipts[tx.original].owner, tx, StatusFromNotification(kind, tx, now), cut);
      (if done then Handled else ServerError, after)
  }

  function Apply(st: State, e: Event): State {
    match e
    case Register(user) => if user in st.users then st else st.(users := st.users[user := User(Free, None)])
    case Verify(user, tx, now, cut) => VerifyOn(st, user, tx, now, cut).1
    case Notify(kind, payload, now, cut) => NotifyOn(st, kind, payload, now, cut).1
  }

  const EMPTY: State := State(map[], map[])

  function Run(es: seq<Event>): State {
    if es == [] then EMPTY else Apply(Run(es[..|es| - 1]), es[|es| - 1])
  }

  // ----- the tables and the handlers -----

  class SubscriptionDb {
    var receipts: map<TxId, Receipt>
    var users: map<UserId, User>

    constructor ()
      ensures receipts == map[] && users == map[]
    {
      receipts, users := map[], map[];
    }

    ghost function Contents(): State reads this { State(receipts, users) }

    method CreateUser(id: UserId) returns (ok: bool)
      modifies this`users
      ensures Contents() == Apply(old(Contents()), Register(id)) && ok == (id !in old(users))
    {
      ok := id !in users;
      if ok { users := users[id := User(Free, None)]; }
    }

    method UpsertSubscriptionReceipt(user: UserId, tx: Transaction, status: ReceiptStatus) returns (r: Option<Receipt>)
      modifies this`receipts
      ensures r == None <==> !Upsertable(old(Contents()), user, tx)
      ensures r == None ==> receipts == old(receipts)
      ensures r.Some? ==> receipts == Upserted(old(receipts), user, tx, status) && r.value == receipts[tx.original]
    {
      if tx.original in receipts {
        var row := receipts[tx.original];
        r := Some(row.(product := tx.product, environment := EnvironmentOf(tx.environment),
          status := status, expires := Expiry(tx.expires)));
      } else if user in users {
        r := Some(Receipt(user, tx.product, EnvironmentOf(tx.environment), status, Expiry(tx.expires)));
      } else {
        return None;
      }
      receipts := receipts[tx.original := r.value];
    }

    method UpdateSubscription(id: UserId, status: UserStatus, expires: Option<int>) returns (u: Option<User>)
      modifies this`users
      ensures id !in old(users) ==> u == None && users == old(users)
      ensures id in old(users) ==> u == Some(User(status, expires)) && users == old(users)[id := u.value]
    {
      if id !in users { return None; }
      u := Some(User(status, expires));
      users := users[id := u.value];
    }

    method VerifySubscription(user: UserId, tx: Transaction, now: int, cut: Cut) returns (answer: Answer)
      modifies this
      ensures (answer, Contents()) == VerifyOn(old(Contents()), user, tx, now, cut)
    {
      if tx.original == "" { return MissingTransaction; }
      var (receiptStatus, userStatus) := DeriveStatus(tx, now);
      if cut == NoReceipt { return ServerError; }
      var receipt := UpsertSubscriptionReceipt(user, tx, receiptStatus);
      if receipt == None || cut == ReceiptOnly { return ServerError; }
      var updated := UpdateSubscription(user, userStatus, Expiry(tx.expires));
      if updated == None { return ServerError; }
      answer := Verified(updated.value, receipt.value);
    }

    method AppleWebhook(kind: string, payload: Option<Transaction>, now: int, cut: Cut) returns (answer: Answer)
      modifies this
      ensures (answer, Contents()) == NotifyOn(old(Contents()), kind, payload, now, cut)
    {
      if payload == None || payload.value.original == "" { return Unhandled; }
      var tx := payload.value;
      if tx.original !in receipts { return Unhandled; }
      var owner := receipts[tx.original].owner;
      var (receiptStatus, userStatus) := StatusFromNotification(kind, tx, now);
      if cut == NoReceipt { return ServerError; }
      var receipt := UpsertSubscriptionReceipt(owner, tx, receiptStatus);
      if receipt == None || cut == ReceiptOnly { return ServerError; }
      var updated := UpdateSubscription(owner, userStatus, Expiry(tx.expires));
      if updated == None { return ServerError; }
      answer := Handled;
    }
  }

  // ----- ownership -----

  /** e is the kind of event that can bring a receipt for t into being. */
  predicate Claims(st: State, e: Event, t: TxId) {
    e.Verify? && e.tx.original == t && t != "" && e.user in st.users && e.cut != NoReceipt
  }

  predicate ClaimsAt(es: seq<Event>, i: nat, t: TxId)
    requires i < |es|
  {
    Claims(Run(es[..i]), es[i], t)
  }

  predicate FirstClaim(es: seq<Event>, i: nat, t: TxId) {
    i < |es| && ClaimsAt(es, i, t) && forall j :: 0 <= j < i ==> !ClaimsAt(es, j, t)
  }

  lemma OwnerNeverChanges(st: State, e: Event, t: TxId)
    requires t in st.receipts
    ensures t in Apply(st, e).receipts && Apply(st, e).receipts[t].owner == st.receipts[t].owner
  {
  }

  lemma ClaimsBefore(es: seq<Event>, i: nat, t: TxId)
    requires i + 1 < |es|
    ensures ClaimsAt(es[..|es| - 1], i, t) == ClaimsAt(es, i, t)
  {
    assert es[..|es| - 1][..i] == es[..i];
  }

  lemma OneFirstClaim(es: seq<Event>, i: nat, k: nat, t: TxId)
    requires FirstClaim(es, i, t) && FirstClaim(es, k, t)
    ensures i == k
  {
  }

  /** There is a receipt for a transaction exactly when somebody registered verified it, and its
      owner is the first who did, whatever anybody sent since. */
  lemma {:induction false} OwnerIsFirstVerifier(es: seq<Event>, t: TxId)
    ensures t in Run(es).receipts <==> exists i: nat :: FirstClaim(es, i, t)
    ensures forall i: nat :: FirstClaim(es, i, t) && t in Run(es).receipts ==> Run(es).receipts[t].owner == es[i].user
    ensures t !in Run(es).receipts ==> forall i :: 0 <= i < |es| ==> !ClaimsAt(es, i, t)
  {
    if es != [] {
      var n := |es| - 1;
      var init := es[..n];
      OwnerIsFirstVerifier(init, t);
      forall j | 0 <= j < n
        ensures ClaimsAt(init, j, t) == ClaimsAt(es, j, t)
      {
        ClaimsBefore(es, j, t);
      }
      if t in Run(init).receipts {
        OwnerNeverChanges(Run(init), es[n], t);
        var i: nat :| FirstClaim(init, i, t);
        assert FirstClaim(es, i, t);
        forall k: nat | FirstClaim(es, k, t)
          ensures k == i
        {
          OneFirstClaim(es, i, k, t);
        }
      } else {
        assert es[..n] == init;
        if ClaimsAt(es, n, t) { assert FirstClaim(es, n, t); }
      }
    }
  }

  // ----- the last event decides -----

  /** Whom e updates in this state, and to what. */
  function Reach(st: State, e: Event): Option<(UserId, User)> {
    match e
    case Register(_) => None
    case Verify(user, tx, now, cut) =>
      if tx.original != "" && cut == Whole && user in st.users then
        Some((user, User(DeriveStatus(tx, now).1, Expiry(tx.expires))))
      else None
    case Notify(kind, payload, now, cut) =>
      if payload.Some? && payload.value.original != "" && payload.value.original in st.receipts && cut == Whole
         && st.receipts[payload.value.original].owner in st.users
      then Some((st.receipts[payload.value.original].owner,
                 User(StatusFromNotification(kind, payload.value, now).1, Expiry(payload.value.expires))))
      else None
  }

  predicate Reaches(es: seq<Event>, i: nat, user: UserId)
    requires i < |es|
  {
    Reach(Run(es[..i]), es[i]).Some? && Reach(Run(es[..i]), es[i]).value.0 == user
  }

  /** Event i reached the user, and no later one did. */
  predicate LastReach(es: seq<Event>, i: nat, user: UserId) {
    i < |es| && Reaches(es, i, user) && forall j :: i < j < |es| ==> !Reaches(es, j, user)
  }

  /** A user is as the last event that reached them left them, or as registered. */
  ghost predicate LastReached(es: seq<Event>, user: UserId, u: User) {
    || (u == User(Free, None) && forall i :: 0 <= i < |es| ==> !Reaches(es, i, user))
    || (exists i: nat :: LastReach(es, i, user) && u == Reach(Run(es[..i]), es[i]).value.1)
  }

  lemma SameReach(es: seq<Event>, i: nat, user: UserId)
    requires i + 1 < |es|
    ensures Reach(Run(es[..|es| - 1][..i]), es[..|es| - 1][i]) == Reach(Run(es[..i]), es[i])
    ensures Reaches(es[..|es| - 1], i, user) == Reaches(es, i, user)
  {
    assert es[..|es| - 1][..i] == es[..i];
  }

  lemma StillUnreached(es: seq<Event>, init: seq<Event>, from: int, user: UserId)
    requires es != [] && init == es[..|es| - 1] && !Reaches(es, |es| - 1, user)
    requires forall j :: from < j < |init| && 0 <= j ==> !Reaches(init, j, user)
    ensures forall j :: from < j < |es| && 0 <= j ==> !Reaches(es, j, user)
  {
    forall j | from < j < |es| && 0 <= j
      ensures !Reaches(es, j, user)
    {
      if j < |es| - 1 { SameReach(es, j, user); }
    }
  }

  lemma ReachesBefore(es: seq<Event>, user: UserId, u: User)
    requires es != [] && LastReached(es[..|es| - 1], user, u) && !Reaches(es, |es| - 1, user)
    ensures LastReached(es, user, u)
  {
    var init := es[..|es| - 1];
    if i: nat :| LastReach(init, i, user) && u == Reach(Run(init[..i]), init[i]).value.1 {
      SameReach(es, i, user);
      StillUnreached(es, init, i, user);
      assert LastReach(es, i, user);
    } else {
      StillUnreached(es, init, -1, user);
    }
  }

  lemma ApplyReaches(st: State, e: Event, user: UserId)
    requires user in Apply(st, e).users
    ensures var r := Reach(st, e);
      if r.Some? && r.value.0 == user then Apply(st, e).users[user] == r.value.1
      else if user in st.users then Apply(st, e).users[user] == st.users[user]
      else e == Register(user) && Apply(st, e).users[user] == User(Free, None)
  {
  }

  lemma {:induction false} StrangersAreNotReached(es: seq<Event>, user: UserId)
    requires user !in Run(es).users
    ensures forall i :: 0 <= i < |es| ==> !Reaches(es, i, user)
  {
    if es != [] {
      var n := |es| - 1;
      StrangersAreNotReached(es[..n], user);
      forall i | 0 <= i < |es|
        ensures !Reaches(es, i, user)
      {
        if i < n {
          assert es[..n][..i] == es[..i];
          assert !Reaches(es[..n], i, user);
        }
      }
    }
  }

  lemma {:induction false} UserIsWhatTheLastEventSaid(es: seq<Event>, user: UserId)
    requires user in Run(es).users
    ensures LastReached(es, user, Run(es).users[user])
  {
    var n := |es| - 1;
    var init, e := es[..n], es[n];
    ApplyReaches(Run(init), e, user);
    if Reaches(es, n, user) {
      assert LastReach(es, n, user);
    } else if user in Run(init).users {
      UserIsWhatTheLastEventSaid(init, user);
      ReachesBefore(es, user, Run(init).users[user]);
    } else {
      StrangersAreNotReached(init, user);
      assert LastReached(init, user, User(Free, None));
      ReachesBefore(es, user, User(Free, None));
    }
  }

  // ----- a user and a transaction paired one to one -----

  predicate Paired(es: seq<Event>, user: UserId, t: TxId) {
    forall e :: e in es && e.Verify? ==> (e.user == user <==> e.tx.original == t)
  }

  predicate InStep(st: State, user: UserId, t: TxId) {
    t in st.receipts ==>
      user in st.users && st.users[user] == User(Project(st.receipts[t].status), st.receipts[t].expires)
  }

  /** e writes the receipt of t. */
  predicate Writes(st: State, e: Event, t: TxId) {
    match e
    case Register(_) => false
    case Verify(user, tx, _, cut) => tx.original == t && t != "" && cut != NoReceipt && Upsertable(st, user, tx)
    case Notify(_, payload, _, cut) =>
      payload.Some? && payload.value.original == t && t != "" && cut != NoReceipt && t in st.receipts
  }

  /** The last event that wrote the receipt of t also wrote the user. */
  predicate LastWriteWhole(es: seq<Event>, t: TxId) {
    es != [] ==>
      if Writes(Run(es[..|es| - 1]), es[|es| - 1], t) then es[|es| - 1].cut == Whole
      else LastWriteWhole(es[..|es| - 1], t)
  }

  lemma StatusesAgree(kind: string, tx: Transaction, now: int)
    ensures Project(DeriveStatus(tx, now).0) == DeriveStatus(tx, now).1
    ensures Project(StatusFromNotification(kind, tx, now).0) == StatusFromNotification(kind, tx, now).1
  {
  }

  /** Kinds of notification whose status does not depend on the transaction. */
  const DECISIVE: seq<string> := ["SUBSCRIBED", "DID_RENEW", "DID_FAIL_TO_RENEW", "EXPIRED", "REVOKE"]

  lemma AccessFromNotification(kind: string, tx: Transaction, now: int)
    ensures StatusFromNotification(kind, tx, now).1 == Subscribed <==>
      if kind in DECISIVE then kind in ["SUBSCRIBED", "DID_RENEW", "DID_FAIL_TO_RENEW"]
      else tx.revoked <= 0 && !Over(tx, now)
  {
  }

  /** An event after which the user it reaches has access: a purchase, renewal or billing
      retry, or a transaction neither revoked nor over when it was sent. */
  predicate GivesAccess(e: Event) {
    match e
    case Register(_) => false
    case Verify(_, tx, now, _) => tx.revoked <= 0 && !Over(tx, now)
    case Notify(kind, payload, now, _) =>
      if kind in DECISIVE then kind in ["SUBSCRIBED", "DID_RENEW", "DID_FAIL_TO_RENEW"]
      else payload.Some? && payload.value.revoked <= 0 && !Over(payload.value, now)
  }

  lemma OneLastReach(es: seq<Event>, i: nat, j: nat, user: UserId)
    requires LastReach(es, i, user) && LastReach(es, j, user)
    ensures i == j
  {
  }

  /** After any history a user has access exactly when some event reached them and the last
      that did gives it: billing retry keeps it, expiry and revocation end it, and later
      events for others do not matter. */
  lemma AccessExactlyWhen(es: seq<Event>, user: UserId)
    requires user in Run(es).users
    ensures Run(es).users[user].status == Subscribed <==> exists i: nat :: LastReach(es, i, user) && GivesAccess(es[i])
  {
    var u := Run(es).users[user];
    UserIsWhatTheLastEventSaid(es, user);
    if i: nat :| LastReach(es, i, user) && u == Reach(Run(es[..i]), es[i]).value.1 {
      ReachGives(Run(es[..i]), es[i]);
      forall j: nat | LastReach(es, j, user)
        ensures j == i
      {
        OneLastReach(es, i, j, user);
      }
    }
  }

  lemma ReachGives(st: State, e: Event)
    requires Reach(st, e).Some?
    ensures Reach(st, e).value.1.status == Subscribed <==> GivesAccess(e)
  {
    if e.Notify? { AccessFromNotification(e.kind, e.payload.value, e.at); }
  }

  predicate OwnsOnly(st: State, user: UserId, t: TxId) {
    && (forall x :: x in st.receipts ==> (st.receipts[x].owner == user <==> x == t))
    && (t in st.receipts ==> user in st.users)
  }

  lemma {:induction false} PairedOwnership(es: seq<Event>, user: UserId, t: TxId)
    requires Paired(es, user, t)
    ensures OwnsOnly(Run(es), user, t)
  {
    if es != [] {
      PairedOwnership(es[..|es| - 1], user, t);
    }
  }

  lemma UntouchedStaysInStep(st: State, e: Event, user: UserId, t: TxId)
    requires OwnsOnly(st, user, t) && InStep(st, user, t) && !Writes(st, e, t)
    requires e.Verify? ==> (e.user == user <==> e.tx.original == t)
    ensures InStep(Apply(st, e), user, t)
  {
  }

  lemma WholeWriteIsInStep(st: State, e: Event, user: UserId, t: TxId)
    requires OwnsOnly(st, user, t) && Writes(st, e, t) && e.cut == Whole
    requires e.Verify? ==> (e.user == user <==> e.tx.original == t)
    ensures InStep(Apply(st, e), user, t)
  {
    if e.Verify? {
      StatusesAgree("", e.tx, e.now);
    } else {
      StatusesAgree(e.kind, e.payload.value, e.at);
    }
  }

  /** For a user and a transaction paired one to one, the user's status is the projection of
      the receipt's status and their expiries agree, whenever the last event that wrote the
      receipt also wrote the user: a run cut between the two writes is healed by the next. */
  lemma {:induction false} PairedUserFollowsReceipt(es: seq<Event>, user: UserId, t: TxId)
    requires Paired(es, user, t) && LastWriteWhole(es, t)
    ensures InStep(Run(es), user, t)
  {
    if es != [] {
      var init, e := es[..|es| - 1], es[|es| - 1];
      PairedOwnership(init, user, t);
      assert e in es;
      if Writes(Run(init), e, t) {
        WholeWriteIsInStep(Run(init), e, user, t);
      } else {
        PairedUserFollowsReceipt(init, user, t);
        UntouchedStaysInStep(Run(init), e, user, t);
      }
    }
  }

  // ----- delivered again -----

  /** The same event delivered again: at another time, and its writes get as far as they get. */
  function Again(e: Event, now: int, cut: Cut): Event
    requires !e.Register?
  {
    if e.Verify? then e.(now := now, cut := cut) else e.(at := now, cut := cut)
  }

  function TransactionOf(e: Event): Option<Transaction> {
    match e
    case Register(_) => None
    case Verify(_, tx, _, _) => if tx.original == "" then None else Some(tx)
    case Notify(_, payload, _, _) => if payload.Some? && payload.value.original == "" then None else payload
  }

  function TimeOf(e: Event): int
    requires !e.Register?
  {
    if e.Verify? then e.now else e.at
  }

  /** The status comes from the clock, not from the kind of event. */
  predicate TimeDerived(e: Event) {
    e.Verify? || (e.Notify? && e.kind !in DECISIVE)
  }

  /** Between the two deliveries a time-derived, unrevoked transaction ran out. */
  predicate RanOut(e: Event, now: int)
    requires !e.Register?
  {
    && TimeDerived(e) && TransactionOf(e).Some?
    && TransactionOf(e).value.revoked <= 0
    && !Over(TransactionOf(e).value, TimeOf(e)) && Over(TransactionOf(e).value, now)
  }

  function Reaching(cut: Cut): nat {
    match cut case NoReceipt => 0 case ReceiptOnly => 1 case Whole => 2
  }

  /** Writes that get at least as far as earlier ones leave no trace of them. */
  lemma RecordOver(st: State, user: UserId, tx: Transaction, first: (ReceiptStatus, UserStatus), cut: Cut,
                   second: (ReceiptStatus, UserStatus), further: Cut)
    requires Reaching(cut) <= Reaching(further)
    ensures Record(Record(st, user, tx, first, cut).1, user, tx, second, further).1 ==
      Record(st, user, tx, second, further).1
  {
    var over := Record(Record(st, user, tx, first, cut).1, user, tx, second, further).1;
    var alone := Record(st, user, tx, second, further).1;
    assert over.receipts == alone.receipts && over.users == alone.users;
  }

  /** Healing: a delivery that gets at least as far as the one before decides alone. */
  lemma LastDeliveryDecides(st: State, e: Event, now: int, cut: Cut)
    requires !e.Register? && Reaching(e.cut) <= Reaching(cut)
    ensures Apply(Apply(st, e), Again(e, now, cut)) == Apply(st, Again(e, now, cut))
  {
    match e
    case Register(_) =>
    case Verify(user, tx, at, c) =>
      RecordOver(st, user, tx, DeriveStatus(tx, at), c, DeriveStatus(tx, now), cut);
    case Notify(kind, payload, at, c) =>
      if payload.Some? && payload.value.original in st.receipts {
        var tx, owner := payload.value, st.receipts[payload.value.original].owner;
        RecordOver(st, owner, tx, StatusFromNotification(kind, tx, at), c, StatusFromNotification(kind, tx, now), cut);
      }
  }

  function Deliver(st: State, e: Event, tries: seq<(int, Cut)>): State
    requires !e.Register?
  {
    if tries == [] then st
    else
      var last := tries[|tries| - 1];
      Apply(Deliver(st, e, tries[..|tries| - 1]), Again(e, last.0, last.1))
  }

  /** However many deliveries were cut short before it, one that gets through leaves what it
      alone would have left. */
  lemma {:induction false} RetriedUntilWhole(st: State, e: Event, tries: seq<(int, Cut)>, now: int)
    requires !e.Register?
    ensures Apply(Deliver(st, e, tries), Again(e, now, Whole)) == Apply(st, Again(e, now, Whole))
  {
    if tries != [] {
      var init, last := tries[..|tries| - 1], tries[|tries| - 1];
      LastDeliveryDecides(Deliver(st, e, init), Again(e, last.0, last.1), now, Whole);
      RetriedUntilWhole(st, e, init, now);
    }
  }

  /** The receipt the event would leave is the one already there. */
  predicate ReceiptSays(st: State, e: Event)
    requires TransactionOf(e).Some?
  {
    var tx := TransactionOf(e).value;
    && tx.original in st.receipts
    && st.receipts[tx.original] ==
       Receipt(st.receipts[tx.original].owner, tx.product, EnvironmentOf(tx.environment),
               StatusesOf(e).0, Expiry(tx.expires))
  }

  function StatusesOf(e: Event): (ReceiptStatus, UserStatus)
    requires TransactionOf(e).Some?
  {
    if e.Verify? then DeriveStatus(e.tx, e.now) else StatusFromNotification(e.kind, e.payload.value, e.at)
  }

  /** The second delivery writes the receipt, and the first wrote another status or missed
      a write that was due. */
  predicate ReceiptMoves(st: State, e: Event, now: int, cut: Cut)
    requires !e.Register?
  {
    && TransactionOf(e).Some?
    && var t, again := TransactionOf(e).value.original, Again(e, now, cut);
       Writes(st, again, t) && if Writes(st, e, t) then RanOut(e, now) else !ReceiptSays(st, again)
  }

  /** Likewise for the user. */
  predicate UserMoves(st: State, e: Event, now: int, cut: Cut)
    requires !e.Register?
  {
    var reach := Reach(st, Again(e, now, cut));
    && reach.Some?
    && if Reach(st, e).Some? then RanOut(e, now)
       else st.users[reach.value.0] != reach.value.1
  }

  lemma RunsOutOnce(e: Event, now: int, cut: Cut)
    requires !e.Register? && now >= TimeOf(e) && TransactionOf(e).Some?
    ensures RanOut(e, now) ==>
      StatusesOf(e) == (Active, Subscribed) && StatusesOf(Again(e, now, cut)) == (Expired, Lapsed)
    ensures !RanOut(e, now) ==> StatusesOf(e) == StatusesOf(Again(e, now, cut))
  {
  }

  /** What one event does to both tables, row by row. */
  lemma AppliedReceipts(st: State, e: Event)
    requires !e.Register?
    ensures var after := Apply(st, e);
      if TransactionOf(e).Some? && Writes(st, e, TransactionOf(e).value.original) then
        var tx := TransactionOf(e).value;
        after.receipts ==
          Upserted(st.receipts, if e.Verify? then e.user else st.receipts[tx.original].owner, tx, StatusesOf(e).0)
      else after.receipts == st.receipts
    ensures var after := Apply(st, e);
      after.users == if Reach(st, e).Some? then st.users[Reach(st, e).value.0 := Reach(st, e).value.1] else st.users
    ensures Reach(st, e).Some? ==>
      && TransactionOf(e).Some? && Reach(st, e).value.0 in st.users
      && Reach(st, e).value.1 == User(StatusesOf(e).1, Expiry(TransactionOf(e).value.expires))
  {
  }

  /** The first delivery does not change whom and what the second one writes. */
  lemma SameTargets(st: State, e: Event, now: int, cut: Cut)
    requires !e.Register?
    ensures var one, again := Apply(st, e), Again(e, now, cut);
      && TransactionOf(again) == TransactionOf(e)
      && Reach(one, again) == Reach(st, again)
      && (TransactionOf(e).Some? ==>
            Writes(one, again, TransactionOf(e).value.original) ==
            Writes(st, again, TransactionOf(e).value.original))
  {
  }

  lemma ReceiptsExactlyWhen(st: State, e: Event, now: int, cut: Cut)
    requires !e.Register? && now >= TimeOf(e)
    ensures Apply(Apply(st, e), Again(e, now, cut)).receipts == Apply(st, e).receipts
       <==> !ReceiptMoves(st, e, now, cut)
  {
    var one, again := Apply(st, e), Again(e, now, cut);
    SameTargets(st, e, now, cut);
    AppliedReceipts(st, e);
    AppliedReceipts(one, again);
    if TransactionOf(e).Some? {
      RunsOutOnce(e, now, cut);
      var t := TransactionOf(e).value.original;
      if Writes(one, again, t) {
        var two := Apply(one, again);
        assert two.receipts[t].status == StatusesOf(again).0;
        assert (two.receipts == one.receipts) <==> (t in one.receipts && two.receipts[t] == one.receipts[t]);
      }
    }
  }

  lemma UsersExactlyWhen(st: State, e: Event, now: int, cut: Cut)
    requires !e.Register? && now >= TimeOf(e)
    ensures Apply(Apply(st, e), Again(e, now, cut)).users == Apply(st, e).users <==> !UserMoves(st, e, now, cut)
  {
    var one, again := Apply(st, e), Again(e, now, cut);
    SameTargets(st, e, now, cut);
    AppliedReceipts(st, e);
    AppliedReceipts(one, again);
    if Reach(one, again).Some? {
      RunsOutOnce(e, now, cut);
      var user := Reach(one, again).value.0;
      assert Reach(st, e).Some? ==> Reach(st, e).value.0 == user;
      assert (Apply(one, again).users == one.users) <==> (Apply(one, again).users[user] == one.users[user]);
    }
  }

  /** Delivering an event again, however far either delivery's writes got, changes something
      exactly when the second writes a row that the first missed and that does not say it
      already, or that the first wrote before the transaction ran out. */
  lemma RedeliveryExactlyWhen(st: State, e: Event, now: int, cut: Cut)
    requires !e.Register? && now >= TimeOf(e)
    ensures Apply(Apply(st, e), Again(e, now, cut)) == Apply(st, e) <==>
      !ReceiptMoves(st, e, now, cut) && !UserMoves(st, e, now, cut)
  {
    ReceiptsExactlyWhen(st, e, now, cut);
    UsersExactlyWhen(st, e, now, cut);
  }

  /** A row that the first delivery wrote goes from active to expired at most, never back. */
  lemma RedeliveryLapses(st: State, e: Event, now: int, cut: Cut)
    requires !e.Register? && now >= TimeOf(e) && TransactionOf(e).Some?
    ensures var one, two, t := Apply(st, e), Apply(Apply(st, e), Again(e, now, cut)), TransactionOf(e).value.original;
      Writes(st, e, t) && two.receipts != one.receipts ==>
        && one.receipts[t].status == Active
        && two.receipts == one.receipts[t := one.receipts[t].(status := Expired)]
    ensures var one, two, reach := Apply(st, e), Apply(Apply(st, e), Again(e, now, cut)), Reach(st, e);
      reach.Some? && two.users != one.users ==>
        && one.users[reach.value.0].status == Subscribed
        && two.users == one.users[reach.value.0 := one.users[reach.value.0].(status := Lapsed)]
  {
    var one, again := Apply(st, e), Again(e, now, cut);
    SameTargets(st, e, now, cut);
    AppliedReceipts(st, e);
    AppliedReceipts(one, again);
    RunsOutOnce(e, now, cut);
  }

  /** A delivery cut between its two writes is made up for by the next: a free user becomes
      subscribed, and so does one who had lapsed. */
  lemma CutDeliveryIsMadeUp(lapsed: bool)
    ensures var before := User(if lapsed then Lapsed else Free, None);
      var tx := Transaction("t", "p", "Production", 0, 0);
      var first := Apply(State(map[], map[1 := before]), Verify(1, tx, 0, ReceiptOnly));
      && first.users[1] == before
      && Apply(first, Verify(1, tx, 0, Whole)).users[1] == User(Subscribed, None)
  {
  }
}

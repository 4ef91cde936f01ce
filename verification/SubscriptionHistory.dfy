/** What users and receipts hold after any history, told from its events alone. */
module SubscriptionHistory {
  import opened Text
  import opened Subscriptions

  // ----- events -----

  predicate Registered(es: seq<Event>, user: UserId) { Register(user) in es }

  /** The transaction an event carries, if it has an id. */
  function Carries(e: Event): Option<Transaction> {
    if e.Verify? && e.tx.original != "" then Some(e.tx)
    else if e.Notify? && e.payload.Some? && e.payload.value.original != "" then e.payload
    else None
  }

  /** The user whose verification of t was the first to be stored. */
  function Owner(es: seq<Event>, t: TxId): Option<UserId>
    decreases |es|
  {
    if es == [] then None
    else
      var before, e := es[..|es| - 1], es[|es| - 1];
      if Owner(before, t).Some? then Owner(before, t)
      else if e.Verify? && e.tx.original == t != "" && e.cut != NoReceipt && Registered(before, e.user) then
        Some(e.user)
      else None
  }

  /** Event i wrote the receipt of t. */
  predicate Saves(es: seq<Event>, i: nat, t: TxId)
    requires i < |es|
  {
    && Carries(es[i]).Some? && Carries(es[i]).value.original == t && es[i].cut != NoReceipt
    && (Owner(es[..i], t).Some? || (es[i].Verify? && Registered(es[..i], es[i].user)))
  }

  /** Event i wrote the user: by themselves while registered, or about a receipt of theirs. */
  predicate Hits(es: seq<Event>, i: nat, user: UserId)
    requires i < |es|
  {
    && Carries(es[i]).Some? && es[i].cut == Whole
    && if es[i].Verify? then es[i].user == user && Registered(es[..i], user)
       else Owner(es[..i], Carries(es[i]).value.original) == Some(user)
  }

  predicate LastHit(es: seq<Event>, i: nat, user: UserId) {
    i < |es| && Hits(es, i, user) && forall j :: i < j < |es| ==> !Hits(es, j, user)
  }

  predicate LastSave(es: seq<Event>, i: nat, t: TxId) {
    i < |es| && Saves(es, i, t) && forall j :: i < j < |es| ==> !Saves(es, j, t)
  }

  function SentAt(e: Event): int
    requires !e.Register?
  {
    match e case Verify(_, _, now, _) => now case Notify(_, _, at, _) => at
  }

  /** A verification, or a notification of another kind than the five that decide alone. */
  predicate ByTransaction(e: Event) {
    || e.Verify?
    || (e.Notify? && e.kind != "SUBSCRIBED" && e.kind != "DID_RENEW" && e.kind != "DID_FAIL_TO_RENEW"
        && e.kind != "EXPIRED" && e.kind != "REVOKE")
  }

  predicate Withdraws(e: Event) {
    || (e.Notify? && e.kind == "REVOKE")
    || (ByTransaction(e) && Carries(e).Some? && Carries(e).value.revoked > 0)
  }

  predicate Lapses(e: Event) {
    || (e.Notify? && e.kind == "EXPIRED")
    || (ByTransaction(e) && Carries(e).Some? && Carries(e).value.revoked <= 0
        && 0 < Carries(e).value.expires && Carries(e).value.expires * 1_000_000 < SentAt(e))
  }

  predicate Retries(e: Event) { e.Notify? && e.kind == "DID_FAIL_TO_RENEW" }

  /** Spelt in any mix of cases. */
  predicate SaysProduction(env: string) {
    |env| == 10 && forall k :: 0 <= k < 10 ==> env[k] == "production"[k] || env[k] == "PRODUCTION"[k]
  }

  /** The user as the event puts it. */
  predicate UserSays(u: User, e: Event)
    requires Carries(e).Some?
  {
    var expires := Carries(e).value.expires;
    && (u.status == Withdrawn <==> Withdraws(e))
    && (u.status == Lapsed <==> Lapses(e))
    && u.status != Free
    && (if expires > 0 then u.expires == Some(expires) else u.expires == None)
  }

  /** The receipt as the event puts it. */
  predicate ReceiptTells(r: Receipt, e: Event)
    requires Carries(e).Some?
  {
    var tx := Carries(e).value;
    && (r.status == Revoked <==> Withdraws(e))
    && (r.status == Expired <==> Lapses(e))
    && (r.status == BillingRetry <==> Retries(e))
    && r.product == tx.product && (r.environment == Production <==> SaysProduction(tx.environment))
    && (if tx.expires > 0 then r.expires == Some(tx.expires) else r.expires == None)
  }

  // ----- the tables know what the events know -----

  lemma LetterSpelt(c: char, k: nat)
    requires k < 10
    ensures AsciiLower(c) == "production"[k] <==> c == "production"[k] || c == "PRODUCTION"[k]
  {
    assert "PRODUCTION"[k] == "production"[k] - 'a' + 'A' by {
      if k < 5 {
        assert k == 0 || k == 1 || k == 2 || k == 3 || k == 4;
      } else {
        assert k == 5 || k == 6 || k == 7 || k == 8 || k == 9;
      }
    }
    assert 'a' <= "production"[k] <= 'z';
  }

  lemma LowerIsSpelling(env: string)
    ensures EnvironmentOf(env) == Production <==> SaysProduction(env)
  {
    var low, word := Lower(AsciiLower, env), "production";
    if |env| == 10 {
      forall k | 0 <= k < 10
        ensures low[k] == word[k] <==> env[k] == "production"[k] || env[k] == "PRODUCTION"[k]
      {
        LetterSpelt(env[k], k);
      }
      assert low == word <==> forall k :: 0 <= k < 10 ==> low[k] == word[k];
    }
  }

  lemma StatusSpelt(e: Event)
    requires TransactionOf(e).Some?
    ensures Carries(e) == TransactionOf(e)
    ensures var (r, u) := StatusesOf(e);
      && (r == Revoked <==> Withdraws(e)) && (r == Expired <==> Lapses(e)) && (r == BillingRetry <==> Retries(e))
      && (u == Withdrawn <==> Withdraws(e)) && (u == Lapsed <==> Lapses(e)) && u != Free
  {
  }

  predicate UserKnown(es: seq<Event>, st: State, user: UserId) {
    user in st.users <==> Registered(es, user)
  }

  predicate ReceiptKnown(es: seq<Event>, st: State, t: TxId) {
    && (t in st.receipts <==> Owner(es, t).Some?)
    && (t in st.receipts ==> st.receipts[t].owner == Owner(es, t).value && st.receipts[t].owner in st.users)
  }

  ghost predicate Known(es: seq<Event>, st: State) {
    && (forall u :: UserKnown(es, st, u))
    && (forall t :: ReceiptKnown(es, st, t))
  }

  lemma OnlyRegisteringAdds(st: State, e: Event, user: UserId)
    ensures user in Apply(st, e).users <==> user in st.users || e == Register(user)
  {
    if !e.Register? { AppliedReceipts(st, e); }
  }

  lemma RegisteredSnoc(es: seq<Event>, e: Event, user: UserId)
    ensures Registered(es + [e], user) <==> Registered(es, user) || e == Register(user)
  {
  }

  lemma UserKnownStep(es: seq<Event>, st: State, e: Event, user: UserId)
    requires UserKnown(es, st, user)
    ensures UserKnown(es + [e], Apply(st, e), user)
  {
    RegisteredSnoc(es, e, user);
    OnlyRegisteringAdds(st, e, user);
  }

  lemma WriteKnown(es: seq<Event>, st: State, e: Event, t: TxId)
    requires Known(es, st)
    ensures Writes(st, e, t) <==>
      && Carries(e).Some? && Carries(e).value.original == t && e.cut != NoReceipt
      && (Owner(es, t).Some? || (e.Verify? && Registered(es, e.user)))
  {
    assert ReceiptKnown(es, st, t);
    if e.Verify? { assert UserKnown(es, st, e.user); }
  }

  lemma ReachKnown(es: seq<Event>, st: State, e: Event, user: UserId)
    requires Known(es, st)
    ensures Reach(st, e).Some? && Reach(st, e).value.0 == user <==>
      && Carries(e).Some? && e.cut == Whole
      && (if e.Verify? then e.user == user && Registered(es, user)
          else Owner(es, Carries(e).value.original) == Some(user))
  {
    if Carries(e).Some? {
      assert ReceiptKnown(es, st, Carries(e).value.original);
      if e.Verify? { assert UserKnown(es, st, e.user); }
    }
  }

  lemma ReceiptKnownStep(es: seq<Event>, t: TxId)
    requires es != [] && Known(es[..|es| - 1], Run(es[..|es| - 1]))
    ensures ReceiptKnown(es, Run(es), t)
  {
    var init, e := es[..|es| - 1], es[|es| - 1];
    var st := Run(init);
    assert ReceiptKnown(init, st, t);
    WriteKnown(init, st, e, t);
    if !e.Register? {
      AppliedReceipts(st, e);
      if e.Verify? { assert UserKnown(init, st, e.user); }
    }
    if t in st.receipts { OwnerNeverChanges(st, e, t); }
  }

  lemma {:induction false} HistoryIsKnown(es: seq<Event>)
    ensures Known(es, Run(es))
    decreases |es|
  {
    if es != [] {
      HistoryIsKnown(es[..|es| - 1]);
      forall u
        ensures UserKnown(es, Run(es), u)
      {
        var init, e := es[..|es| - 1], es[|es| - 1];
        assert UserKnown(init, Run(init), u) && es == init + [e];
        UserKnownStep(init, Run(init), e, u);
      }
      forall t ensures ReceiptKnown(es, Run(es), t) { ReceiptKnownStep(es, t); }
    }
  }

  lemma HitsIsReaches(es: seq<Event>, i: nat, user: UserId)
    requires i < |es|
    ensures Hits(es, i, user) <==> Reaches(es, i, user)
  {
    HistoryIsKnown(es[..i]);
    ReachKnown(es[..i], Run(es[..i]), es[i], user);
  }

  // ----- main results -----

  lemma HitSays(es: seq<Event>, i: nat, user: UserId)
    requires i < |es| && Hits(es, i, user)
    ensures Reach(Run(es[..i]), es[i]).Some? && Reach(Run(es[..i]), es[i]).value.0 == user
    ensures UserSays(Reach(Run(es[..i]), es[i]).value.1, es[i])
  {
    HitsIsReaches(es, i, user);
    AppliedReceipts(Run(es[..i]), es[i]);
    StatusSpelt(es[i]);
  }

  lemma LastHitIsLastReach(es: seq<Event>, i: nat, user: UserId)
    ensures LastHit(es, i, user) <==> LastReach(es, i, user)
  {
    forall j: nat | j < |es|
      ensures Hits(es, j, user) <==> Reaches(es, j, user)
    {
      HitsIsReaches(es, j, user);
    }
  }

  /** After every history the users are those registered. One whom no event has reached is free
      without expiry; any other is withdrawn, lapsed or subscribed, and until when, as the last
      event that reached them says. */
  lemma UserIsAsLastToldToBe(es: seq<Event>, user: UserId)
    ensures user in Run(es).users <==> Register(user) in es
    ensures user in Run(es).users && (forall i :: 0 <= i < |es| ==> !Hits(es, i, user)) ==>
      Run(es).users[user] == User(Free, None)
    ensures forall i: nat :: user in Run(es).users && LastHit(es, i, user) ==> UserSays(Run(es).users[user], es[i])
  {
    HistoryIsKnown(es);
    assert UserKnown(es, Run(es), user);
    if user in Run(es).users {
      UserIsWhatTheLastEventSaid(es, user);
      forall i: nat | LastHit(es, i, user)
        ensures UserSays(Run(es).users[user], es[i])
      {
        LastHitIsLastReach(es, i, user);
        HitSays(es, i, user);
        if j: nat :| LastReach(es, j, user) && Run(es).users[user] == Reach(Run(es[..j]), es[j]).value.1 {
          OneLastReach(es, i, j, user);
        }
      }
      if j: nat :| LastReach(es, j, user) && Run(es).users[user] == Reach(Run(es[..j]), es[j]).value.1 {
        LastHitIsLastReach(es, j, user);
        assert Hits(es, j, user);
      }
    }
  }

  lemma SaveTells(es: seq<Event>, t: TxId)
    requires es != []
    ensures var n := |es| - 1;
      if Saves(es, n, t) then t in Run(es).receipts && ReceiptTells(Run(es).receipts[t], es[n])
      else t in Run(es).receipts ==>
        t in Run(es[..n]).receipts && Run(es).receipts[t] == Run(es[..n]).receipts[t]
  {
    var init, e := es[..|es| - 1], es[|es| - 1];
    HistoryIsKnown(init);
    WriteKnown(init, Run(init), e, t);
    if !e.Register? {
      AppliedReceipts(Run(init), e);
      if Carries(e).Some? {
        StatusSpelt(e);
        LowerIsSpelling(Carries(e).value.environment);
      }
    }
  }

  lemma SameSave(es: seq<Event>, i: nat, t: TxId)
    requires i + 1 < |es|
    ensures Saves(es[..|es| - 1], i, t) == Saves(es, i, t)
  {
    assert es[..|es| - 1][..i] == es[..i];
  }

  lemma SameLastSave(es: seq<Event>, i: nat, t: TxId)
    requires es != [] && !Saves(es, |es| - 1, t)
    ensures LastSave(es, i, t) <==> LastSave(es[..|es| - 1], i, t)
  {
    var init := es[..|es| - 1];
    forall j: nat | j < |init|
      ensures Saves(init, j, t) == Saves(es, j, t)
    {
      SameSave(es, j, t);
    }
  }

  /** After every history there is a receipt exactly where somebody registered verified the
      transaction; it belongs to the first who did, and its status, product, environment and
      expiry are as the last event that wrote it says. */
  lemma {:induction false} ReceiptIsAsLastTold(es: seq<Event>, t: TxId)
    ensures t in Run(es).receipts <==> Owner(es, t).Some?
    ensures t in Run(es).receipts ==> Run(es).receipts[t].owner == Owner(es, t).value
    ensures forall i: nat :: LastSave(es, i, t) ==>
      t in Run(es).receipts && ReceiptTells(Run(es).receipts[t], es[i])
    ensures t in Run(es).receipts ==> exists i: nat :: LastSave(es, i, t)
    decreases |es|
  {
    HistoryIsKnown(es);
    assert ReceiptKnown(es, Run(es), t);
    if es != [] {
      var n := |es| - 1;
      var init := es[..n];
      SaveTells(es, t);
      ReceiptIsAsLastTold(init, t);
      if Saves(es, n, t) {
        assert LastSave(es, n, t);
      } else {
        forall i: nat
          ensures LastSave(es, i, t) <==> LastSave(init, i, t)
        {
          SameLastSave(es, i, t);
        }
        if t in Run(es).receipts {
          var i: nat :| LastSave(init, i, t);
          assert LastSave(es, i, t);
        }
      }
    }
  }

  /** What the two handlers answer: a notification is handled exactly if its transaction is
      someone's and both writes get through, and acknowledged unhandled if it is nobody's; a
      verification answers with both rows exactly if a registered user's writes get through. */
  lemma AnswersTellTheOutcome(es: seq<Event>, e: Event)
    requires !e.Register?
    ensures e.Notify? ==>
      var answer := NotifyOn(Run(es), e.kind, e.payload, e.at, e.cut).0;
      var known := Carries(e).Some? && Owner(es, Carries(e).value.original).Some?;
      && (answer == Unhandled <==> !known) && (answer == Handled <==> known && e.cut == Whole)
      && answer in {Unhandled, Handled, ServerError}
    ensures e.Verify? ==>
      var answer := VerifyOn(Run(es), e.user, e.tx, e.now, e.cut).0;
      var after := Run(es + [e]);
      && (answer == MissingTransaction <==> e.tx.original == "")
      && (answer.Verified? <==> e.tx.original != "" && e.cut == Whole && Registered(es, e.user))
      && (answer.Verified? ==>
            && e.user in after.users && answer.user == after.users[e.user]
            && e.tx.original in after.receipts && answer.receipt == after.receipts[e.tx.original])
      && (answer.Verified? || answer in {MissingTransaction, ServerError})
  {
    HistoryIsKnown(es);
    assert (es + [e])[..|es|] == es;
    if e.Verify? {
      assert UserKnown(es, Run(es), e.user);
    } else if Carries(e).Some? {
      assert ReceiptKnown(es, Run(es), Carries(e).value.original);
    }
  }
}

/** What each statement on the stores table does to one row, and what every
    sequence of statements keeps true of approval stamps and rejection reasons. */
module Lifecycle {
  import opened Text
  import opened Stores

  datatype Op =
    | Submit
    | Approve
    | Reject(reason: string)
    | EditProfile(profile: Profile)
    | EditFull(fields: Fields)
    | SetCoords(latitude: real, longitude: real)

  datatype Event = Event(op: Op, at: int)

  /** The status guard in the statement's WHERE clause. */
  predicate Guard(op: Op, s: Store) {
    match op
    case Submit => s.fields.status == Draft || s.fields.status == Rejected
    case Approve => s.fields.status == Draft || s.fields.status == Pending
    case Reject(_) => s.fields.status == Pending
    case EditProfile(_) => true
    case EditFull(_) => true
    case SetCoords(_, _) => true
  }

  function WithProfile(f: Fields, p: Profile): Fields {
    f.(name := p.name, address := p.address, latitude := p.latitude, longitude := p.longitude,
       gfOriented := p.gfOriented, cuisine := p.cuisine, priceLevel := p.priceLevel,
       gfStatus := p.gfStatus, photoUrl := p.photoUrl)
  }

  function Effect(op: Op, s: Store, now: int): Store {
    match op
    case Submit => Store(s.fields.(status := Pending), None, s.approvedAt)
    case Approve => Store(s.fields.(status := Approved), None, Some(now))
    case Reject(reason) => Store(s.fields.(status := Rejected), TextOrNull(reason), s.approvedAt)
    case EditProfile(p) => s.(fields := WithProfile(s.fields, p))
    case EditFull(f) =>
      s.(fields := f,
         approvedAt := if f.status != Approved then None
                       else if s.approvedAt.Some? then s.approvedAt else Some(now))
    case SetCoords(lat, lng) => s.(fields := s.fields.(latitude := lat, longitude := lng))
  }

  /** A statement whose guard matches no row changes nothing. */
  function Step(s: Store, e: Event): Store {
    if Guard(e.op, s) then Effect(e.op, s, e.at) else s
  }

  /** What an insert writes: no approval stamp and no rejection reason, whatever the status. */
  function Inserted(f: Fields): Store { Store(f, None, None) }

  function Replay(first: Store, es: seq<Event>): Store {
    if es == [] then first else Step(Replay(first, es[..|es| - 1]), es[|es| - 1])
  }

  /** The row as event i found it. */
  function Before(first: Store, es: seq<Event>, i: nat): Store
    requires i <= |es|
  {
    Replay(first, es[..i])
  }

  function StatusAt(first: Store, es: seq<Event>, i: nat): Status
    requires i <= |es|
  {
    Before(first, es, i).fields.status
  }

  /** At every point of every history: which statuses a statement needs, and what it then
      writes; a statement whose status does not fit leaves the row alone. */
  lemma EachStatementDoesThis(first: Fields, es: seq<Event>, i: nat)
    requires i < |es|
    ensures Before(Inserted(first), es, 0) == Store(first, None, None)
    ensures var a, b, now := Before(Inserted(first), es, i), Before(Inserted(first), es, i + 1), es[i].at;
      var was := a.fields.status;
      match es[i].op
      case Submit =>
        if was == Draft || was == Rejected then b == Store(a.fields.(status := Pending), None, a.approvedAt) else b == a
      case Approve =>
        if was == Draft || was == Pending then b == Store(a.fields.(status := Approved), None, Some(now)) else b == a
      case Reject(reason) =>
        if was == Pending then
          && b.fields == a.fields.(status := Rejected) && b.approvedAt == a.approvedAt
          && (if reason == "" then b.rejection == None else b.rejection == Some(reason))
        else b == a
      case EditProfile(p) =>
        && b.rejection == a.rejection && b.approvedAt == a.approvedAt
        && b.fields == Fields(a.fields.ward, p.name, p.address, p.latitude, p.longitude, p.gfOriented, was,
                              p.cuisine, p.priceLevel, p.gfStatus, p.photoUrl,
                              a.fields.nameEn, a.fields.phone, a.fields.sourceUrl, a.fields.notes)
      case EditFull(f) =>
        && b.fields == f && b.rejection == a.rejection
        && (f.status != Approved ==> b.approvedAt == None)
        && (f.status == Approved && a.approvedAt.Some? ==> b.approvedAt == a.approvedAt)
        && (f.status == Approved && a.approvedAt == None ==> b.approvedAt == Some(now))
      case SetCoords(lat, lng) => b == a.(fields := a.fields.(latitude := lat, longitude := lng))
  {
    assert es[..0] == [];
    assert es[..i + 1][..i] == es[..i] && es[..i + 1][i] == es[i];
  }

  /** Event i moved the store into 'approved'. */
  predicate EntersApproved(first: Store, es: seq<Event>, i: nat)
    requires i < |es|
  {
    StatusAt(first, es, i) != Approved && StatusAt(first, es, i + 1) == Approved
  }

  /** Event i is the latest entry into 'approved', and the store has stayed there. */
  ghost predicate LatestEntry(first: Store, es: seq<Event>, i: nat) {
    && i < |es|
    && EntersApproved(first, es, i)
    && forall j :: i < j <= |es| ==> StatusAt(first, es, j) == Approved
  }

  lemma BeforePrefix(first: Store, es: seq<Event>, i: nat)
    requires es != [] && i < |es|
    ensures Before(first, es[..|es| - 1], i) == Before(first, es, i)
  {
    assert es[..|es| - 1][..i] == es[..i];
  }

  lemma LatestEntryGrows(first: Store, es: seq<Event>, i: nat)
    requires es != [] && LatestEntry(first, es[..|es| - 1], i)
    requires Replay(first, es).fields.status == Approved
    ensures LatestEntry(first, es, i)
  {
    var n := |es| - 1;
    assert es[..n + 1] == es;
    forall j | i <= j <= n
      ensures StatusAt(first, es, j) == StatusAt(first, es[..n], j)
    {
      BeforePrefix(first, es, j);
    }
  }

  /** For a store not inserted as 'approved': it carries a stamp exactly while it is
      approved, and the stamp is the time of its latest entry, whatever was edited since. */
  lemma {:induction false} StampIsLatestEntry(first: Fields, es: seq<Event>)
    requires first.status != Approved
    ensures var s := Replay(Inserted(first), es);
      && (s.approvedAt.Some? <==> s.fields.status == Approved)
      && (s.fields.status == Approved ==>
            exists i: nat :: LatestEntry(Inserted(first), es, i) && s.approvedAt == Some(es[i].at))
  {
    if es != [] {
      var n := |es| - 1;
      var s0 := Inserted(first);
      var prev, s := Replay(s0, es[..n]), Replay(s0, es);
      StampIsLatestEntry(first, es[..n]);
      if s.fields.status == Approved {
        assert es[..n + 1] == es;
        if prev.fields.status == Approved {
          var i: nat :| LatestEntry(s0, es[..n], i) && prev.approvedAt == Some(es[..n][i].at);
          LatestEntryGrows(s0, es, i);
          assert LatestEntry(s0, es, i) && s.approvedAt == Some(es[i].at);
        } else {
          assert LatestEntry(s0, es, n) && s.approvedAt == Some(es[n].at);
        }
      }
    }
  }

  lemma {:induction false} ApprovedFromBirth(first: Fields, es: seq<Event>)
    requires first.status == Approved
    ensures var s := Replay(Inserted(first), es);
      && ((forall i :: 0 <= i < |es| ==> !es[i].op.EditFull?) ==> s.fields.status == Approved && s.approvedAt == None)
      && ((exists i :: 0 <= i < |es| && es[i].op.EditFull?) ==> (s.approvedAt.Some? <==> s.fields.status == Approved))
  {
    if es != [] {
      var n := |es| - 1;
      ApprovedFromBirth(first, es[..n]);
      if i :| 0 <= i < |es| && es[i].op.EditFull? {
        assert i < n ==> es[..n][i].op.EditFull?;
      }
    }
  }

  /** The promise "stamped iff approved" holds of every store, whatever its history,
      except of one inserted as 'approved' and not fully edited since. */
  lemma StampExactlyWhen(first: Fields, es: seq<Event>)
    ensures var s := Replay(Inserted(first), es);
      && (s.approvedAt.Some? ==> s.fields.status == Approved)
      && ((s.approvedAt.Some? <==> s.fields.status == Approved) <==>
          !(first.status == Approved && forall i :: 0 <= i < |es| ==> !es[i].op.EditFull?))
  {
    if first.status == Approved {
      ApprovedFromBirth(first, es);
    } else {
      StampIsLatestEntry(first, es);
    }
  }

  /** Reject requests without a reason never reach the table. */
  ghost predicate ReasonsGiven(es: seq<Event>) {
    forall i :: 0 <= i < |es| && es[i].op.Reject? ==> es[i].op.reason != ""
  }

  /** Event i is a review-queue statement that found the store in its state. */
  predicate Verdict(first: Store, es: seq<Event>, i: nat)
    requires i < |es|
  {
    && (es[i].op.Submit? || es[i].op.Approve? || es[i].op.Reject?)
    && Guard(es[i].op, Before(first, es, i))
  }

  /** Event i rejected the store and no later submission or approval took effect. */
  ghost predicate StandingRejection(first: Store, es: seq<Event>, i: nat) {
    && i < |es|
    && es[i].op.Reject?
    && Verdict(first, es, i)
    && forall j :: i < j < |es| && Verdict(first, es, j) ==> es[j].op.Reject?
  }

  lemma VerdictPrefix(first: Store, es: seq<Event>, i: nat)
    requires i < |es| - 1
    ensures Verdict(first, es[..|es| - 1], i) == Verdict(first, es, i)
  {
    BeforePrefix(first, es, i);
  }

  /** An event without a verdict leaves the standing rejections as they are. */
  lemma StandingPrefix(first: Store, es: seq<Event>, i: nat)
    requires i < |es| - 1 && !Verdict(first, es, |es| - 1)
    ensures StandingRejection(first, es[..|es| - 1], i) <==> StandingRejection(first, es, i)
  {
    forall j | i <= j < |es| - 1
      ensures Verdict(first, es[..|es| - 1], j) == Verdict(first, es, j)
    {
      VerdictPrefix(first, es, j);
    }
  }

  lemma ReasonStep(s: Store, e: Event)
    requires e.op.Reject? ==> e.op.reason != ""
    ensures Step(s, e).rejection.Some? <==>
      if (e.op.Submit? || e.op.Approve? || e.op.Reject?) && Guard(e.op, s) then e.op.Reject? else s.rejection.Some?
  {
  }

  /** Over every history, free-form edits included, a rejection reason is present
      exactly when the last review statement that took effect was a rejection. */
  lemma {:induction false} ReasonIffStandingRejection(first: Fields, es: seq<Event>)
    requires ReasonsGiven(es)
    ensures Replay(Inserted(first), es).rejection.Some? <==>
      exists i: nat :: StandingRejection(Inserted(first), es, i)
  {
    if es != [] {
      var n := |es| - 1;
      var s0 := Inserted(first);
      ReasonIffStandingRejection(first, es[..n]);
      ReasonStep(Replay(s0, es[..n]), es[n]);
      if Verdict(s0, es, n) {
        if es[n].op.Reject? {
          assert StandingRejection(s0, es, n);
        }
      } else {
        if i: nat :| StandingRejection(s0, es[..n], i) {
          StandingPrefix(s0, es, i);
        }
        if i: nat :| StandingRejection(s0, es, i) {
          StandingPrefix(s0, es, i);
        }
      }
    }
  }

  /** With the guarded statements and partner edits only, the reason is present
      exactly while the store is rejected. */
  lemma {:induction false} GuardedReasonIffRejected(first: Fields, es: seq<Event>)
    requires first.status != Rejected && ReasonsGiven(es)
    requires forall i :: 0 <= i < |es| ==> !es[i].op.EditFull?
    ensures var s := Replay(Inserted(first), es); s.rejection.Some? <==> s.fields.status == Rejected
  {
    if es != [] {
      GuardedReasonIffRejected(first, es[..|es| - 1]);
    }
  }
}

// When a confirmed interview is final although requests race.
module BookingFinality {
  import opened Wrappers
  import opened SlotConflicts
  import opened Interviews
  import opened BookingSafety
  import opened BookingLife

  // ---------------------------------------------------------------------------
  // Threats
  // ---------------------------------------------------------------------------

  /** A pending write that would take interview `id` out of SCHEDULED. */
  predicate Threatens(p: Plan, id: nat) {
    match p
    case Withdraw(i) => i == id
    case Offer(i, _) => i == id
    case GoLive(i) => i == id
    case Expire(ids) => id in ids
    case _ => false
  }

  ghost predicate Unthreatened(s: Sys, id: nat) {
    forall p :: p in s.pending ==> !Threatens(p, id)
  }

  predicate IsConfirmed(db: Db, id: nat) {
    id in db.interviews && db.interviews[id].status == Scheduled
  }

  /** The row of `id` and its slots are as they were. */
  ghost predicate Stands(db: Db, db': Db, id: nat)
    requires id in db.interviews
  {
    && id in db'.interviews && db'.interviews[id] == db.interviews[id]
    && (forall s :: s in db.slots && db.slots[s].interview == id ==> s in db'.slots && db'.slots[s] == db.slots[s])
    && (forall s :: s in db'.slots && db'.slots[s].interview == id ==> s in db.slots && db.slots[s] == db'.slots[s])
  }

  /** No read of a confirmed interview yields a threat to it. */
  lemma ReadsThreatenNone(db: Db, r: Request, now: int, id: nat)
    requires IsConfirmed(db, id) && Read(db, r, now).Ok?
    ensures !Threatens(Read(db, r, now).value, id)
  {
    hide BuildSlots, AnyClashes, HasFutureSlot, FindStart;
  }

  lemma SettingExpiredStands(db: Db, ids: set<nat>, id: nat)
    requires id in db.interviews && id !in ids
    ensures Stands(db, SetExpired(db, ids), id)
  {
  }

  lemma InsertStands(db: Db, row: Interview, ranges: seq<TimeRange>, id: nat)
    requires WellFormed(db) && id in db.interviews
    ensures Stands(db, WriteInsert(db, row, ranges), id)
  {
  }

  lemma OfferStands(db: Db, other: nat, ranges: seq<TimeRange>, id: nat)
    requires WellFormed(db) && id in db.interviews && other in db.interviews && other != id
    ensures Stands(db, WriteOffer(db, other, ranges), id)
  {
  }

  lemma ClaimStands(db: Db, p: Plan, id: nat)
    requires WellFormed(db) && id in db.interviews && (p.ClaimFixed? || p.ClaimLive?) && p.id in db.interviews && p.id != id
    ensures Stands(db, Claim(db, p), id)
  {
  }

  lemma PruneStands(db: Db, user: nat, booked: nat, range: TimeRange, now: int, id: nat)
    requires IsConfirmed(db, id)
    ensures Stands(db, Prune(db, user, booked, range, now), id)
  {
    hide RangesOverlap, HasFutureSlot;
  }

  lemma CommitStands(db: Db, p: Plan, now: int, id: nat)
    requires WellFormed(db) && IsConfirmed(db, id) && (p.ClaimFixed? || p.ClaimLive?) && p.id in db.interviews && Commit(db, p, now).Ok?
    ensures Stands(db, Commit(db, p, now).value, id)
  {
    hide Claim, Clashes, Prune, WellFormed;
    ClaimStands(db, p, id);
    if p.interviewer.Some? {
      PruneStands(Claim(db, p), p.interviewer.value, p.id, p.range, now, id);
      StandsOn(db, Claim(db, p), Commit(db, p, now).value, id);
    }
  }

  /** A write that is no threat keeps the confirmed row and its slots. */
  lemma WritesStand(db: Db, p: Plan, now: int, id: nat)
    requires WellFormed(db) && IsConfirmed(db, id) && !Threatens(p, id)
    ensures Stands(db, Outcome(db, Write(db, p, now)), id)
  {
    hide WellFormed, Commit, WriteInsert, WriteOffer, SetExpired;
    match p
    case Insert(row, ranges) => InsertStands(db, row, ranges, id);
    case Offer(other, ranges) => if other in db.interviews { OfferStands(db, other, ranges, id); }
    case Expire(ids) => SettingExpiredStands(db, ids, id);
    case ClaimFixed(other, _, _, _) => if other in db.interviews && Commit(db, p, now).Ok? { CommitStands(db, p, now, id); }
    case ClaimLive(other, _, _) => if other in db.interviews && Commit(db, p, now).Ok? { CommitStands(db, p, now, id); }
    case _ =>
  }

  /** And a threat, once written, takes it out of SCHEDULED. */
  lemma ThreatsStrike(db: Db, p: Plan, now: int, id: nat)
    requires IsConfirmed(db, id) && Threatens(p, id)
    ensures !IsConfirmed(Outcome(db, Write(db, p, now)), id)
  {
    hide AddSlots, DropSlots;
    if p.Offer? { OfferReopens(db, p.id, p.ranges); }
  }

  lemma OfferReopens(db: Db, id: nat, ranges: seq<TimeRange>)
    requires id in db.interviews
    ensures id in WriteOffer(db, id, ranges).interviews && WriteOffer(db, id, ranges).interviews[id].status == AwaitingCandidate
  {
  }

  lemma StepStands(s: Sys, a: Action, s': Sys, id: nat)
    requires WellFormed(s.db) && IsConfirmed(s.db, id) && Unthreatened(s, id) && RacyStep(s, a, s')
    ensures Stands(s.db, s'.db, id) && Unthreatened(s', id)
  {
    hide Read, Write, WellFormed, Threatens;
    match a
    case Begin(r, now) => ReadsThreatenNone(s.db, r, now, id);
    case Finish(p, now) => WritesStand(s.db, p, now, id);
    case Do(_, _) => assert false;
  }

  // ---------------------------------------------------------------------------
  // Continuations
  // ---------------------------------------------------------------------------

  /** `longer` is a racy run that goes on from `run`. */
  ghost predicate Continues(run: seq<Sys>, longer: seq<Sys>) {
    run != [] && run <= longer && IsRun(longer, RacyNext)
  }

  lemma {:induction false} UnthreatenedStands(run: seq<Sys>, longer: seq<Sys>, id: nat)
    requires Continues(run, longer) && IsConfirmed(run[|run| - 1].db, id) && Unthreatened(run[|run| - 1], id)
    ensures Stands(run[|run| - 1].db, longer[|longer| - 1].db, id) && Unthreatened(longer[|longer| - 1], id)
    decreases |longer|
  {
    hide RacyStep, WellFormed, NoDoubleBooking, PlanHolds, Unthreatened;
    if |longer| > |run| {
      var init := longer[..|longer| - 1];
      UnthreatenedStands(run, init, id);
      RunIsSafe(init);
      var s, s' := longer[|longer| - 2], longer[|longer| - 1];
      assert init[|init| - 1] == s;
      assert RacyNext(s, s');
      var a :| RacyStep(s, a, s');
      StepStands(s, a, s', id);
      StandsOn(run[|run| - 1].db, s.db, s'.db, id);
    } else {
      assert longer == run;
    }
  }

  lemma StandsOn(a: Db, b: Db, c: Db, id: nat)
    requires id in a.interviews && Stands(a, b, id) && Stands(b, c, id)
    ensures Stands(a, c, id)
  {
  }

  /** In every continuation the interview stays confirmed as it is, with exactly its slots. */
  ghost predicate Final(run: seq<Sys>, id: nat)
    requires run != [] && id in run[|run| - 1].db.interviews
  {
    forall longer: seq<Sys> :: Continues(run, longer) ==> Stands(run[|run| - 1].db, longer[|longer| - 1].db, id)
  }

  lemma ThreatIsFinished(run: seq<Sys>, p: Plan, id: nat) returns (longer: seq<Sys>)
    requires run != [] && IsRun(run, RacyNext) && IsConfirmed(run[|run| - 1].db, id)
    requires p in run[|run| - 1].pending && Threatens(p, id)
    ensures Continues(run, longer) && !IsConfirmed(longer[|longer| - 1].db, id)
  {
    hide Write, Threatens;
    var s := run[|run| - 1];
    var s' := Sys(Outcome(s.db, Write(s.db, p, 0)), s.pending - multiset{p});
    ThreatsStrike(s.db, p, 0, id);
    longer := run + [s'];
    assert longer[..|longer| - 1] == run;
    assert RacyStep(s, Finish(p, 0), s');
    assert RacyNext(s, s');
  }

  /**
   * A confirmed interview is final, its slot row included, in every continuation of
   * a racy run exactly when no request that read it before it was confirmed is
   * still about to write to it.
   */
  lemma FinalExactlyUnthreatened(run: seq<Sys>, id: nat)
    requires run != [] && IsRun(run, RacyNext) && IsConfirmed(run[|run| - 1].db, id)
    ensures Final(run, id) <==> Unthreatened(run[|run| - 1], id)
  {
    hide RacyNext, Threatens, Stands;
    if Unthreatened(run[|run| - 1], id) {
      forall longer: seq<Sys> | Continues(run, longer) ensures Stands(run[|run| - 1].db, longer[|longer| - 1].db, id) {
        UnthreatenedStands(run, longer, id);
      }
    } else {
      var p :| p in run[|run| - 1].pending && Threatens(p, id);
      var longer := ThreatIsFinished(run, p, id);
      assert !Stands(run[|run| - 1].db, longer[|longer| - 1].db, id) by { NotStanding(run[|run| - 1].db, longer[|longer| - 1].db, id); }
    }
  }

  lemma NotStanding(db: Db, db': Db, id: nat)
    requires IsConfirmed(db, id) && !IsConfirmed(db', id)
    ensures !Stands(db, db', id)
  {
  }

  // ---------------------------------------------------------------------------
  // The slot row of a commit
  // ---------------------------------------------------------------------------

  /**
   * Whatever has raced with it, a FIXED claim that is finished becomes a booking
   * without its slot row exactly when the interview can still be claimed, the time
   * is free and the row is gone: the one check the transaction does not make.
   */
  lemma CommitDanglesExactly(db: Db, p: Plan, now: int)
    requires WellFormed(db) && PlanHolds(db, p) && p.ClaimFixed?
    ensures (Commit(db, p, now).Ok? && !RowStands(Commit(db, p, now).value, p.id, p.slotId, p.range))
      <==> (db.interviews[p.id].status == AwaitingCandidate && !RowStands(db, p.id, p.slotId, p.range)
            && (p.interviewer.Some? ==> !Clashes(db, p.interviewer.value, Some(p.id), p.range)))
  {
    hide Clashes, RangesOverlap, HasFutureSlot, WellFormed, PlanHolds;
    InterviewerHolds(db, p);
    if p.interviewer.Some? {
      ClashesIgnoresTheClaim(db, p, p.interviewer.value);
      PruneKeepsOwn(Claim(db, p), p.interviewer.value, p.id, p.range, now);
    }
  }
}

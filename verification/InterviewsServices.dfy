// The interviews service over its two tables, each method as the source runs it.
module InterviewsServices {
  import opened Wrappers
  import opened SlotConflicts
  import opened SlotEngine
  import opened Interviews

  class InterviewsService {
    var interviews: map<nat, Interview>
    var slots: map<nat, Slot>
    var nextInterview: nat
    var nextSlot: nat

    function State(): Db
      reads this
    {
      Db(interviews, slots, nextInterview, nextSlot)
    }

    /** The state after a request that either wrote `r` or failed and wrote nothing. */
    ghost predicate Became(before: Db, r: Result<Db, Failure>)
      reads this
    {
      State() == if r.Ok? then r.value else before
    }

    constructor ()
      ensures State() == EMPTY
    {
      interviews, slots, nextInterview, nextSlot := map[], map[], 0, 0;
    }

    method AddRow(row: Interview, ranges: seq<TimeRange>)
      modifies this
      ensures State() == WriteInsert(old(State()), row, ranges)
    {
      var id := nextInterview;
      interviews := interviews[id := row];
      nextInterview := nextInterview + 1;
      var withSlots := AddSlots(State(), id, ranges);
      slots, nextSlot := withSlots.slots, withSlots.nextSlot;
    }

    /** The query for confirmed interviews and the comparison with each of them. */
    method AssertNoConflicts(interviewer: Option<nat>, candidates: seq<TimeRange>, except: Option<nat>) returns (conflict: bool)
      ensures conflict <==> AnyClashes(State(), interviewer, except, candidates)
    {
      if interviewer.None? || candidates == [] {
        return false;
      }
      var booked := set id | id in interviews && interviews[id].interviewer == interviewer && interviews[id].status == Scheduled
        && except != Some(id) && interviews[id].scheduledAt.Some?
        :: TimeRange(interviews[id].scheduledAt.value, interviews[id].scheduledAt.value + interviews[id].durationMinutes * MS_PER_MINUTE);
      conflict := exists i, b :: 0 <= i < |candidates| && b in booked && RangesOverlap(candidates[i], b);
      assert booked == BookedExcept(State(), interviewer.value, except);
      BookedDecides(State(), interviewer.value, except, candidates);
    }

    method CreateInterview(r: Request, now: int) returns (failure: Option<Failure>)
      requires r.Create?
      modifies this
      ensures Became(old(State()), Perform(old(State()), r, now))
      ensures failure == match Perform(old(State()), r, now) case Ok(_) => None case Err(e) => Some(e)
    {
      var mode := if r.mode.Some? then r.mode.value else if r.walls != [] then ManualSlots else RequestManager;
      if mode == ManualSlots {
        if r.walls == [] {
          return Some(BadRequest);
        }
        var built := BuildSlots(r.walls, r.zone, r.durationMinutes);
        if built.None? {
          return Some(Unreadable);
        }
        var conflict := AssertNoConflicts(r.interviewer, built.value, None);
        if conflict {
          return Some(BadRequest);
        }
        AddRow(Interview(r.interviewer, r.durationMinutes, r.zone, now, AwaitingCandidate, Fixed, None, None), built.value);
        return None;
      }
      if r.interviewer.None? {
        return Some(BadRequest);
      }
      AddRow(Interview(r.interviewer, r.durationMinutes, r.zone, now, AwaitingManager, Fixed, None, None), []);
      return None;
    }

    method SubmitAvailability(id: nat, user: nat, walls: seq<string>, now: int) returns (failure: Option<Failure>)
      modifies this
      ensures Became(old(State()), Perform(old(State()), Submit(id, user, walls), now))
      ensures failure == match Perform(old(State()), Submit(id, user, walls), now) case Ok(_) => None case Err(e) => Some(e)
    {
      hide BuildSlots, AnyClashes;
      if id !in interviews {
        return Some(NotFound);
      }
      var interview := interviews[id];
      if interview.interviewer != Some(user) {
        return Some(Forbidden);
      }
      if interview.status != AwaitingManager || walls == [] {
        return Some(BadRequest);
      }
      var built := BuildSlots(walls, interview.zone, interview.durationMinutes);
      if built.None? {
        return Some(Unreadable);
      }
      var conflict := AssertNoConflicts(interview.interviewer, built.value, Some(id));
      if conflict {
        return Some(BadRequest);
      }
      ghost var before := State();
      slots := map s | s in slots && slots[s].interview != id :: slots[s];
      assert State() == DropSlots(before, SlotsOf(before, id));
      var withSlots := AddSlots(State(), id, built.value);
      slots, nextSlot := withSlots.slots, withSlots.nextSlot;
      interviews := interviews[id := interview.(status := AwaitingCandidate, offerMode := Fixed)];
      return None;
    }

    method ShareLiveAvailability(id: nat, user: nat, hasRules: bool, now: int) returns (failure: Option<Failure>)
      modifies this`interviews
      ensures Became(old(State()), Perform(old(State()), Share(id, user, hasRules), now))
      ensures failure == match Perform(old(State()), Share(id, user, hasRules), now) case Ok(_) => None case Err(e) => Some(e)
    {
      if id !in interviews {
        return Some(NotFound);
      }
      if interviews[id].interviewer != Some(user) {
        return Some(Forbidden);
      }
      if interviews[id].status != AwaitingManager || !hasRules {
        return Some(BadRequest);
      }
      interviews := interviews[id := interviews[id].(status := AwaitingCandidate, offerMode := Live)];
      return None;
    }

    method CancelInterview(id: nat, now: int) returns (failure: Option<Failure>)
      modifies this`interviews
      ensures Became(old(State()), Perform(old(State()), Cancel(id), now))
      ensures failure == match Perform(old(State()), Cancel(id), now) case Ok(_) => None case Err(e) => Some(e)
    {
      if id !in interviews {
        return Some(NotFound);
      }
      if interviews[id].status == Cancelled || interviews[id].status == Scheduled {
        return Some(BadRequest);
      }
      interviews := interviews[id := interviews[id].(status := Cancelled)];
      return None;
    }

    /** The hourly expiry over the rows its two queries returned. */
    method ExpireStaleInterviews(offers: set<nat>, requests: set<nat>, now: int)
      modifies this`interviews
      ensures Became(old(State()), Perform(old(State()), ExpireStale(offers, requests), now))
    {
      var future := set s | s in slots && slots[s].range.startsAt > now :: slots[s].interview;
      var expiredOffers := set id | id in offers && id in interviews
        && interviews[id].status == AwaitingCandidate && interviews[id].offerMode == Fixed && id !in future;
      var stale := set id | id in requests && id in interviews
        && interviews[id].status == AwaitingManager && interviews[id].createdAt < now - MANAGER_EXPIRE_AFTER_MS;
      var toExpire := expiredOffers + stale;
      if toExpire != {} {
        interviews := map id | id in interviews ::
          if id in toExpire then interviews[id].(status := Expired) else interviews[id];
      } else {
        assert SetExpired(State(), {}).interviews == interviews;
      }
    }

    /** The first phase of a booking: the checks outside the transaction. */
    method ReadForBooking(r: Request, now: int) returns (claim: Result<Plan, Failure>)
      requires r.Book?
      ensures claim == Read(State(), r, now)
    {
      if r.id !in interviews {
        return Err(NotFound);
      }
      var interview := interviews[r.id];
      if interview.status != AwaitingCandidate {
        return Err(BadRequest);
      }
      if interview.offerMode == Fixed {
        if r.slotId.None? {
          return Err(BadRequest);
        }
        if r.slotId.value !in slots || slots[r.slotId.value].interview != r.id {
          return Err(BadRequest);
        }
        var found := slots[r.slotId.value];
        if found.range.startsAt <= now {
          return Err(BadRequest);
        }
        return Ok(ClaimFixed(r.id, interview.interviewer, r.slotId.value, found.range));
      }
      if r.start.None? || r.start.value == "" || interview.interviewer.None? {
        return Err(BadRequest);
      }
      var hit := FindStart(SlotGrid(r.schedule, r.booked, LiveOptions(interview, now)), r.start.value);
      if hit.None? {
        return Err(Conflict);
      }
      return Ok(ClaimLive(r.id, interview.interviewer, RangeOf(hit.value)));
    }

    /** The booking transaction: written step by step, and rolled back as a whole on a conflict. */
    method CommitBooking(claim: Plan, now: int) returns (confirmed: Result<TimeRange, Failure>)
      requires (claim.ClaimFixed? || claim.ClaimLive?) && claim.id in interviews
      modifies this
      ensures Became(old(State()), Commit(old(State()), claim, now))
      ensures confirmed == match Commit(old(State()), claim, now) case Ok(_) => Ok(claim.range) case Err(e) => Err(e)
    {
      var beforeTransaction := State();
      if interviews[claim.id].status != AwaitingCandidate {
        return Err(Conflict);
      }
      if claim.ClaimFixed? {
        interviews := interviews[claim.id := interviews[claim.id].(status := Scheduled,
          scheduledSlot := Some(claim.slotId), scheduledAt := Some(claim.range.startsAt))];
      } else {
        interviews := interviews[claim.id := interviews[claim.id].(status := Scheduled)];
        var created := nextSlot;
        slots, nextSlot := slots[created := Slot(claim.id, claim.range)], created + 1;
        interviews := interviews[claim.id := interviews[claim.id].(scheduledSlot := Some(created),
          scheduledAt := Some(claim.range.startsAt))];
      }
      assert State() == Claim(beforeTransaction, claim) by { OneSlot(beforeTransaction, claim.id, claim.range); }
      if claim.interviewer.None? {
        return Ok(claim.range);
      }
      var user := claim.interviewer.value;
      var conflict := AssertNoConflicts(Some(user), [claim.range], Some(claim.id));
      assert conflict <==> Clashes(State(), user, Some(claim.id), claim.range) by { OneCandidate(State(), user, Some(claim.id), claim.range); }
      if conflict {
        interviews, slots := beforeTransaction.interviews, beforeTransaction.slots;
        nextInterview, nextSlot := beforeTransaction.nextInterview, beforeTransaction.nextSlot;
        return Err(Conflict);
      }
      PruneSiblings(user, claim.id, claim.range, now);
      return Ok(claim.range);
    }

    /** Deletes overlapping sibling slots, then expires the siblings left without a future slot. */
    method PruneSiblings(user: nat, id: nat, range: TimeRange, now: int)
      modifies this
      ensures State() == Prune(old(State()), user, id, range, now)
    {
      ghost var before := State();
      var siblingSlots := set s | s in slots && slots[s].interview in interviews && slots[s].interview != id
        && interviews[slots[s].interview].interviewer == Some(user) && interviews[slots[s].interview].status == AwaitingCandidate
        && slots[s].range.startsAt < range.endsAt && slots[s].range.endsAt > range.startsAt;
      assert siblingSlots == SiblingSlots(before, user, id, range);
      if siblingSlots != {} {
        var affected := set s | s in siblingSlots :: slots[s].interview;
        slots := map s | s in slots && s !in siblingSlots :: slots[s];
        assert State() == DropSlots(before, siblingSlots);
        var stillOpen := set s | s in slots && slots[s].interview in affected && slots[s].range.startsAt > now :: slots[s].interview;
        var toExpire := affected - stillOpen;
        assert forall other :: other in affected ==> (other in stillOpen <==> HasFutureSlot(State(), other, now));
        assert toExpire == set s | s in siblingSlots && !HasFutureSlot(DropSlots(before, siblingSlots), before.slots[s].interview, now)
          :: before.slots[s].interview;
        if toExpire != {} {
          interviews := map other | other in interviews ::
            if other in toExpire then interviews[other].(status := Expired) else interviews[other];
        } else {
          assert SetExpired(State(), {}).interviews == interviews;
        }
      } else {
        assert DropSlots(before, {}).slots == before.slots;
        assert SetExpired(before, {}).interviews == before.interviews;
      }
    }
  }

  ghost function BookedExcept(db: Db, user: nat, except: Option<nat>): set<TimeRange> {
    set id | id in db.interviews && except != Some(id) && IsBooking(db.interviews[id], user) :: Busy(db.interviews[id])
  }

  lemma BookedDecides(db: Db, user: nat, except: Option<nat>, candidates: seq<TimeRange>)
    ensures AnyClashes(db, Some(user), except, candidates)
      <==> exists i, b :: 0 <= i < |candidates| && b in BookedExcept(db, user, except) && RangesOverlap(candidates[i], b)
  {
    hide RangesOverlap;
    if AnyClashes(db, Some(user), except, candidates) {
      var i :| 0 <= i < |candidates| && Clashes(db, user, except, candidates[i]);
      var id :| id in db.interviews && except != Some(id) && IsBooking(db.interviews[id], user) && RangesOverlap(candidates[i], Busy(db.interviews[id]));
      assert Busy(db.interviews[id]) in BookedExcept(db, user, except);
    }
    if i, b :| 0 <= i < |candidates| && b in BookedExcept(db, user, except) && RangesOverlap(candidates[i], b) {
      assert Clashes(db, user, except, candidates[i]);
    }
  }

  lemma OneSlot(db: Db, id: nat, range: TimeRange)
    ensures AddSlots(db, id, [range]) == db.(slots := db.slots[db.nextSlot := Slot(id, range)], nextSlot := db.nextSlot + 1)
  {
    assert AddSlots(db, id, [range]).slots == db.slots[db.nextSlot := Slot(id, range)];
  }

  lemma OneCandidate(db: Db, user: nat, except: Option<nat>, range: TimeRange)
    ensures AnyClashes(db, Some(user), except, [range]) <==> Clashes(db, user, except, range)
  {
    assert [range][0] == range;
  }
}

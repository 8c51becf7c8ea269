/** The circuit breaker against its history of order outcomes. */
module CircuitBreaker {
  import opened Instructions

  const HALF_HOUR := 30 * 60_000_000_000

  /** One recorded outcome. A failure reads the clock to compare with the last trip, and
      once more to stamp a trip of its own. */
  datatype Outcome =
    | Success
    | Failure(at: int, stampedAt: int, tripped: bool)

  /** Failures since the last success or trip. */
  function Pending(h: seq<Outcome>): nat {
    if h == [] then 0
    else
      match h[|h| - 1]
      case Success => 0
      case Failure(_, _, tripped) => if tripped then 0 else Pending(h[..|h| - 1]) + 1
  }

  function LastTrip(h: seq<Outcome>): Option<int> {
    if h == [] then None
    else
      match h[|h| - 1]
      case Failure(_, stampedAt, true) => Some(stampedAt)
      case _ => LastTrip(h[..|h| - 1])
  }

  /** Whether a failure now trips the breaker: enough failures in a row, and the last trip,
      if there was one, at least the cooldown ago. */
  predicate Trips(maxConsecutive: nat, cooldown: int, h: seq<Outcome>, at: int) {
    && maxConsecutive > 0
    && Pending(h) + 1 >= maxConsecutive
    && (LastTrip(h).Some? ==> at - LastTrip(h).value >= cooldown)
  }

  /** Histories in which exactly those failures trip. */
  ghost predicate History(maxConsecutive: nat, cooldown: int, h: seq<Outcome>) {
    forall i :: 0 <= i < |h| && h[i].Failure? ==>
      h[i].at <= h[i].stampedAt && (h[i].tripped <==> Trips(maxConsecutive, cooldown, h[..i], h[i].at))
  }

  predicate IsTrip(o: Outcome) { o.Failure? && o.tripped }

  lemma HistoryAppend(maxConsecutive: nat, cooldown: int, h: seq<Outcome>, o: Outcome)
    requires History(maxConsecutive, cooldown, h)
    requires o.Failure? ==> o.at <= o.stampedAt && (o.tripped <==> Trips(maxConsecutive, cooldown, h, o.at))
    ensures History(maxConsecutive, cooldown, h + [o])
  {
    var g := h + [o];
    assert g[..|h|] == h;
    assert forall i :: 0 <= i < |h| ==> g[..i] == h[..i];
  }

  /** The last trip before position j is at least as late as any trip before j. */
  lemma {:induction false} LastTripIsLast(maxConsecutive: nat, cooldown: int, h: seq<Outcome>, i: nat, j: nat)
    requires History(maxConsecutive, cooldown, h) && cooldown >= 0
    requires i < j <= |h| && IsTrip(h[i])
    ensures LastTrip(h[..j]).Some? && LastTrip(h[..j]).value >= h[i].stampedAt
    decreases j
  {
    assert h[..j][..j - 1] == h[..j - 1];
    if i < j - 1 {
      LastTripIsLast(maxConsecutive, cooldown, h, i, j - 1);
      if IsTrip(h[j - 1]) {
        assert Trips(maxConsecutive, cooldown, h[..j - 1], h[j - 1].at);
      }
    }
  }

  /** Any two trips are at least the cooldown apart. */
  lemma TripsAreApart(maxConsecutive: nat, cooldown: int, h: seq<Outcome>, i: nat, j: nat)
    requires History(maxConsecutive, cooldown, h) && cooldown >= 0
    requires i < j < |h| && IsTrip(h[i]) && IsTrip(h[j])
    ensures h[j].at >= h[i].stampedAt + cooldown
  {
    LastTripIsLast(maxConsecutive, cooldown, h, i, j);
    assert Trips(maxConsecutive, cooldown, h[..j], h[j].at);
  }

  /** The pending count counts an unbroken tail of failures that did not trip. */
  lemma {:induction false} PendingIsTail(h: seq<Outcome>)
    ensures Pending(h) <= |h|
    ensures forall k :: |h| - Pending(h) <= k < |h| ==> h[k].Failure? && !h[k].tripped
    ensures Pending(h) < |h| ==> !h[|h| - Pending(h) - 1].Failure? || h[|h| - Pending(h) - 1].tripped
  {
    if h != [] && h[|h| - 1].Failure? && !h[|h| - 1].tripped {
      var rest := h[..|h| - 1];
      PendingIsTail(rest);
      assert forall k :: 0 <= k < |rest| ==> rest[k] == h[k];
    }
  }

  /** Every trip ends a run of at least maxConsecutive failures in a row, with no success
      and no other trip among them. */
  lemma TripHasCause(maxConsecutive: nat, cooldown: int, h: seq<Outcome>, j: nat) returns (first: nat)
    requires History(maxConsecutive, cooldown, h) && j < |h| && IsTrip(h[j])
    ensures maxConsecutive > 0 && first <= j && j + 1 - first >= maxConsecutive
    ensures forall k :: first <= k <= j ==> h[k].Failure? && (h[k].tripped <==> k == j)
  {
    assert Trips(maxConsecutive, cooldown, h[..j], h[j].at);
    PendingIsTail(h[..j]);
    first := j - Pending(h[..j]);
    assert forall k :: 0 <= k < j ==> h[..j][k] == h[k];
  }

  /** Conversely, a run of failures that long, longer than the cooldown after every earlier
      trip, ends in a trip. */
  lemma LongRunTrips(maxConsecutive: nat, cooldown: int, h: seq<Outcome>, first: nat, j: nat)
    requires History(maxConsecutive, cooldown, h) && maxConsecutive > 0 && cooldown >= 0
    requires first <= j < |h| && j + 1 - first >= maxConsecutive
    requires forall k :: first <= k <= j ==> h[k].Failure?
    requires forall i :: 0 <= i < j && IsTrip(h[i]) ==> i < first && h[j].at - h[i].stampedAt >= cooldown
    ensures h[j].tripped
  {
    PendingIsTail(h[..j]);
    assert forall k :: 0 <= k < j ==> h[..j][k] == h[k];
    assert Pending(h[..j]) >= j - first;
    var t := LastTripPosition(h[..j]);
  }

  lemma {:induction false} LastTripPosition(h: seq<Outcome>) returns (t: int)
    ensures LastTrip(h).Some? ==> 0 <= t < |h| && IsTrip(h[t]) && h[t].stampedAt == LastTrip(h).value
  {
    t := -1;
    if h != [] {
      if IsTrip(h[|h| - 1]) { t := |h| - 1; } else { t := LastTripPosition(h[..|h| - 1]); }
    }
  }

  class Breaker {
    const maxConsecutive: nat
    const cooldown: int
    var consecutiveFails: nat
    var trippedAt: Option<int>
    ghost var history: seq<Outcome>

    ghost predicate Valid()
      reads this
    {
      && cooldown > 0 && History(maxConsecutive, cooldown, history)
      && (maxConsecutive > 0 ==> consecutiveFails == Pending(history) && trippedAt == LastTrip(history))
    }

    constructor (maxConsecutive: int, cooldown: int)
      ensures Valid() && history == []
      ensures this.maxConsecutive == (if maxConsecutive <= 0 then 0 else maxConsecutive)
      ensures this.cooldown == (if cooldown <= 0 then 1_800_000_000_000 else cooldown)
    {
      this.maxConsecutive := if maxConsecutive <= 0 then 0 else maxConsecutive;
      this.cooldown := if cooldown <= 0 then HALF_HOUR else cooldown;
      consecutiveFails, trippedAt, history := 0, None, [];
    }

    method RecordSuccess()
      requires Valid()
      modifies this
      ensures Valid() && history == old(history) + [Success]
    {
      HistoryAppend(maxConsecutive, cooldown, history, Success);
      history := history + [Success];
      if maxConsecutive == 0 { return; }
      consecutiveFails := 0;
      assert history[..|old(history)|] == old(history);
    }

    /** Trips exactly when the history says so; the caller of a trip is told to pause. */
    method RecordFailure(since: int, now: int) returns (trip: bool)
      requires Valid() && since <= now
      modifies this
      ensures Valid() && trip == Trips(maxConsecutive, cooldown, old(history), since)
      ensures history == old(history) + [Failure(since, now, trip)]
    {
      trip := false;
      if maxConsecutive != 0 {
        consecutiveFails := consecutiveFails + 1;
        if consecutiveFails >= maxConsecutive {
          if trippedAt.None? || since - trippedAt.value >= cooldown {
            trippedAt := Some(now);
            consecutiveFails := 0;
            trip := true;
          }
        }
      }
      HistoryAppend(maxConsecutive, cooldown, history, Failure(since, now, trip));
      history := history + [Failure(since, now, trip)];
      assert history[..|old(history)|] == old(history);
    }
  }
}

/** How much can run: at most rate + 17 instructions start within any minute, and at most
    17 start while the client is paused. */
module Bounds {
  import opened Pipeline
  import opened Conservation
  import opened Vetting
  import SlidingWindow

  // ---------- counters at the starts ----------

  /** How far the queue and the reader run ahead of the limiter: no step raises it. */
  function Lead(enqueued: nat, past: nat, admitted: nat): int { enqueued + past - admitted }

  function StampLead(st: Stamp): int { Lead(st.enqueued, st.past, st.admitted) }

  function StateLead(s: State): int { Lead(|s.enqueued|, PastRate(s), |s.admitted|) }

  /** The k-th start found at most the queue's capacity waiting, and splits the admissions
      by time. */
  ghost predicate StampFits(st: Stamp, k: int, admitted: seq<int>, now: int) {
    && k < st.enqueued <= k + QUEUE_CAPACITY && st.past <= 1 && st.admitted <= |admitted| && st.at <= now
    && forall i :: 0 <= i < |admitted| ==> if i < st.admitted then admitted[i] <= st.at else st.at <= admitted[i]
  }

  ghost predicate StampsFit(stamps: seq<Stamp>, admitted: seq<int>, now: int) {
    forall k :: 0 <= k < |stamps| ==> StampFits(stamps[k], k, admitted, now)
  }

  ghost predicate StampsOrdered(stamps: seq<Stamp>) {
    forall k, l :: 0 <= k <= l < |stamps| ==>
      stamps[k].at <= stamps[l].at && stamps[k].admitted <= stamps[l].admitted
          && StampLead(stamps[k]) >= StampLead(stamps[l])
  }

  ghost predicate LeadsAtLeast(stamps: seq<Stamp>, lead: int) {
    forall k :: 0 <= k < |stamps| ==> StampLead(stamps[k]) >= lead
  }

  ghost predicate Stamped(s: State) {
    StampsFit(s.stamps, s.admitted, s.clock) && StampsOrdered(s.stamps) && LeadsAtLeast(s.stamps, StateLead(s))
  }

  lemma AdmissionKeepsStampsFit(stamps: seq<Stamp>, admitted: seq<int>, now: int)
    requires StampsFit(stamps, admitted, now)
    ensures StampsFit(stamps, admitted + [now], now)
  {}

  lemma ReaderKeepsStamped(w: World, s: State, e: Event, s': State)
    requires Stamped(s) && ReaderStep(w, s, e, s')
    ensures Stamped(s')
  {
    ReaderLowersLead(w, s, e, s');
    if s'.admitted != s.admitted { AdmissionKeepsStampsFit(s.stamps, s.admitted, s.clock); }
  }

  lemma ReaderLowersLead(w: World, s: State, e: Event, s': State)
    requires ReaderStep(w, s, e, s')
    ensures StateLead(s') <= StateLead(s) && s'.stamps == s.stamps && s'.clock == s.clock
    ensures s'.admitted == s.admitted || s'.admitted == s.admitted + [s.clock]
  {}

  lemma BeginKeepsStamped(w: World, s: State)
    requires Fifo(s) && Guarded(w, s) && Stamped(s) && s.queue != [] && s.queue[0].delivery < |s.fates|
    ensures Stamped(Begin(s))
  {
    var st := Stamp(s.clock, |s.enqueued|, |s.admitted|, PastRate(s));
    assert StampFits(st, |s.stamps|, s.admitted, s.clock);
    assert StampLead(st) == StateLead(s);
  }

  /** Whatever leaves the counters alone. */
  lemma OthersKeepStamped(s: State, s': State)
    requires Stamped(s) && s'.stamps == s.stamps && s'.admitted == s.admitted && s.clock <= s'.clock
    requires StateLead(s') == StateLead(s)
    ensures Stamped(s')
  {}

  lemma StepKeepsStamped(w: World, s: State, e: Event, s': State)
    requires Fifo(s) && Guarded(w, s) && Stamped(s) && Step(w, s, e, s')
    ensures Stamped(s')
  {
    if e.Take? {
      BeginKeepsStamped(w, s);
    } else if e.Tick? || e.Arrive? || e.Execute? || e.Stop? || e.TripCallback? || e.ServerPause? {
      OthersKeepStamped(s, s');
    } else {
      ReaderKeepsStamped(w, s, e, s');
    }
  }

  // ---------- the rate of execution ----------

  function StartTimes(stamps: seq<Stamp>): (ts: seq<int>)
    ensures |ts| == |stamps| && forall k :: 0 <= k < |ts| ==> ts[k] == stamps[k].at
  {
    if stamps == [] then [] else StartTimes(stamps[..|stamps| - 1]) + [stamps[|stamps| - 1].at]
  }

  /** The starts in a closed minute, counted by their places. */
  lemma StartsCounted(stamps: seq<Stamp>, t: int)
    ensures SlidingWindow.CountIn(StartTimes(stamps), t, t + SlidingWindow.MINUTE)
            == |set k | 0 <= k < |stamps| && t <= stamps[k].at <= t + 60_000_000_000|
  {
    var ts, end := StartTimes(stamps), t + 60_000_000_000;
    SlidingWindow.CountInCounts(ts, t, end);
    assert (set k | 0 <= k < |ts| && t <= ts[k] <= end) == set k | 0 <= k < |stamps| && t <= stamps[k].at <= end;
  }

  /** Two starts within a minute of each other are less than rate + 17 places apart: all
      but the 16 queued and the one in the reader were admitted in between. */
  lemma StartsWithinMinute(w: World, s: State, k: nat, l: nat)
    requires Guarded(w, s) && Stamped(s) && k <= l < |s.stamps|
    requires s.stamps[l].at <= s.stamps[k].at + SlidingWindow.MINUTE
    ensures l - k < w.ratePerMinute + QUEUE_CAPACITY + 1
  {
    var a, b := s.stamps[k], s.stamps[l];
    assert StampFits(a, k, s.admitted, s.clock) && StampFits(b, l, s.admitted, s.clock);
    if a.admitted < b.admitted {
      assert s.admitted[a.admitted] >= s.admitted[b.admitted - 1] - SlidingWindow.MINUTE;
    }
  }

  lemma StartsAreSorted(stamps: seq<Stamp>)
    requires StampsOrdered(stamps)
    ensures SlidingWindow.Sorted(StartTimes(stamps))
  {}

  lemma StartsAreSparse(w: World, s: State, t: int)
    requires Guarded(w, s) && Stamped(s)
    ensures SlidingWindow.Sparse(StartTimes(s.stamps), w.ratePerMinute + QUEUE_CAPACITY + 1, t,
                                 t + SlidingWindow.MINUTE)
  {
    forall k, l | 0 <= k <= l < |s.stamps| && t <= s.stamps[k].at && s.stamps[l].at <= t + SlidingWindow.MINUTE
      ensures l - k < w.ratePerMinute + QUEUE_CAPACITY + 1
    {
      StartsWithinMinute(w, s, k, l);
    }
  }

  /** In every closed window of one minute at most rate + 17 instructions start. */
  lemma StartRateBound(w: World, s: State, t: int)
    requires Guarded(w, s) && Stamped(s)
    ensures SlidingWindow.CountIn(StartTimes(s.stamps), t, t + SlidingWindow.MINUTE)
            <= w.ratePerMinute + QUEUE_CAPACITY + 1
  {
    StartsAreSorted(s.stamps);
    StartsAreSparse(w, s, t);
    SlidingWindow.CountWithin(StartTimes(s.stamps), w.ratePerMinute + QUEUE_CAPACITY + 1, t, t + SlidingWindow.MINUTE);
  }

  // ---------- draining while paused ----------

  /** 1 while the reader holds a delivery it found the client not paused for. */
  function PastPause(s: State): nat {
    if s.reader.Idle? || s.reader.AtDedup? || s.reader.AtPause? then 0 else 1
  }

  /** What has been started, and what still can be while the client is paused. */
  function Startable(s: State): nat { |s.started| + |s.queue| + PastPause(s) }

  lemma PausedStepDrains(w: World, s: State, e: Event, s': State)
    requires s.paused && Step(w, s, e, s')
    ensures Startable(s') <= Startable(s) && |s'.started| >= |s.started|
  {}

  /** While the client stays paused, what starts was already queued or past the reader's
      pause check when the pause began. */
  lemma {:induction false} PauseDrains(w: World, states: seq<State>, events: seq<Event>, i: nat, j: nat)
    requires Run(w, states, events) && i <= j < |states|
    requires forall k :: i <= k < j ==> states[k].paused
    ensures Startable(states[j]) <= Startable(states[i])
  {
    if i < j {
      PauseDrains(w, states, events, i, j - 1);
      assert StepAt(w, states, events, j - 1);
      PausedStepDrains(w, states[j - 1], events[j - 1], states[j]);
    }
  }
}

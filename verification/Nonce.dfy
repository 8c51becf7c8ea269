/** The nonce allocator: any number of threads run the same read-load-compare-and-swap
    loop over one shared counter, interleaved in any way and with clock readings that may
    go back. */
module Nonce {

  /** Where a thread is in the loop. Loaded remembers how many nonces had been issued when
      the counter was loaded. */
  datatype Phase =
    | Start
    | GotClock(now: int)
    | Loaded(now: int, old_: int, issuedThen: nat)

  /** One successful swap; clockReads counts the clock readings made by all threads so far. */
  datatype Issue = Issue(thread: nat, now: int, nonce: int, clockReads: nat)

  datatype State = State(lastNonce: int, phases: seq<Phase>, readings: seq<int>, issued: seq<Issue>)

  datatype Event = ReadClock(thread: nat, now: int) | Load(thread: nat) | CompareAndSwap(thread: nat)

  ghost predicate Init(s: State) {
    s.lastNonce == 0 && s.readings == [] && s.issued == [] && forall t :: 0 <= t < |s.phases| ==> s.phases[t] == Start
  }

  function Next(now: int, old_: int): int {
    if now <= old_ then old_ + 1 else now
  }

  /** A swap succeeds when the counter still holds the loaded value. A thread whose swap
      failed starts over; one whose swap succeeded may come back for another nonce. */
  ghost predicate Step(s: State, e: Event, s': State) {
    && e.thread < |s.phases|
    && match e
       case ReadClock(t, now) =>
         s.phases[t] == Start
         && s' == s.(phases := s.phases[t := GotClock(now)], readings := s.readings + [now])
       case Load(t) =>
         s.phases[t].GotClock?
         && s' == s.(phases := s.phases[t := Loaded(s.phases[t].now, s.lastNonce, |s.issued|)])
       case CompareAndSwap(t) =>
         s.phases[t].Loaded?
         && var p := s.phases[t];
            if s.lastNonce == p.old_ then
              var n := Next(p.now, p.old_);
              s' == s.(lastNonce := n, phases := s.phases[t := Start],
                       issued := s.issued + [Issue(t, p.now, n, |s.readings|)])
            else
              s' == s.(phases := s.phases[t := Start])
  }

  ghost predicate Run(states: seq<State>, events: seq<Event>) {
    && |states| == |events| + 1 && Init(states[0])
    && forall i :: 0 <= i < |events| ==> Step(states[i], events[i], states[i + 1])
  }

  /** The counter after the first k nonces. */
  function CounterAfter(issued: seq<Issue>, k: nat): int
    requires k <= |issued|
  {
    if k == 0 then 0 else issued[k - 1].nonce
  }

  function Max(readings: seq<int>): int
    requires readings != []
  {
    var n := |readings| - 1;
    if n == 0 then readings[0]
    else if readings[n] > Max(readings[..n]) then readings[n]
    else Max(readings[..n])
  }

  /** No nonce is below one, since the counter starts at zero. */
  function Highest(readings: seq<int>): int {
    if readings == [] || Max(readings) < 1 then 1 else Max(readings)
  }

  lemma {:induction false} MaxIsMax(readings: seq<int>)
    requires readings != []
    ensures forall x :: x in readings ==> x <= Max(readings)
  {
    var n := |readings| - 1;
    if n > 0 {
      MaxIsMax(readings[..n]);
      assert readings == readings[..n] + [readings[n]];
    }
  }

  lemma {:induction false} MaxGrows(readings: seq<int>, k: nat)
    requires 0 < k <= |readings|
    ensures Max(readings[..k]) <= Max(readings)
  {
    var n := |readings| - 1;
    if k <= n {
      MaxGrows(readings[..n], k);
      assert readings[..n][..k] == readings[..k];
    } else {
      assert readings[..k] == readings;
    }
  }

  /** Nonces in the order of their swaps strictly increase from above zero; each is at
      least its caller's clock reading and at most the number of nonces before it past the
      highest reading anyone had made. */
  ghost predicate GoodIssues(issued: seq<Issue>, readings: seq<int>) {
    && (forall i, j :: 0 <= i < j < |issued| ==> issued[i].nonce < issued[j].nonce)
    && (forall k :: 0 <= k < |issued| ==>
          && issued[k].nonce >= 1 && issued[k].nonce >= issued[k].now
          && 1 <= issued[k].clockReads <= |readings|
          && issued[k].nonce <= Highest(readings[..issued[k].clockReads]) + k)
  }

  /** What a thread carries: a reading that was made, and a load that is stale exactly when
      somebody else has been issued a nonce since. */
  ghost predicate GoodPhase(s: State, t: nat)
    requires t < |s.phases|
  {
    match s.phases[t]
    case Start => true
    case GotClock(now) => now in s.readings
    case Loaded(now, old_, k) =>
      && now in s.readings && k <= |s.issued| && old_ == CounterAfter(s.issued, k)
      && forall i :: k <= i < |s.issued| ==> s.issued[i].thread != t
  }

  ghost predicate Inv(s: State) {
    && s.lastNonce == CounterAfter(s.issued, |s.issued|)
    && GoodIssues(s.issued, s.readings)
    && forall t :: 0 <= t < |s.phases| ==> GoodPhase(s, t)
  }

  /** The swap of a loaded value succeeds if and only if no nonce has been issued since. */
  lemma StaleExactlyWhenIssued(s: State, t: nat)
    requires Inv(s) && t < |s.phases| && s.phases[t].Loaded?
    ensures GoodPhase(s, t)
    ensures s.lastNonce == s.phases[t].old_ <==> s.phases[t].issuedThen == |s.issued|
  {
    assert GoodPhase(s, t);
    var k, n := s.phases[t].issuedThen, |s.issued|;
    if k < n && k > 0 { assert s.issued[k - 1].nonce < s.issued[n - 1].nonce; }
  }

  /** A failed swap means another thread succeeded in between. */
  lemma FailureMeansProgress(s: State, t: nat) returns (i: nat)
    requires Inv(s) && t < |s.phases| && s.phases[t].Loaded? && s.lastNonce != s.phases[t].old_
    ensures s.phases[t].issuedThen <= i < |s.issued| && s.issued[i].thread != t
  {
    StaleExactlyWhenIssued(s, t);
    i := s.phases[t].issuedThen;
  }

  lemma ReadingsGrow(issued: seq<Issue>, readings: seq<int>, now: int)
    requires GoodIssues(issued, readings)
    ensures GoodIssues(issued, readings + [now])
  {
    forall k | 0 <= k < |issued|
      ensures (readings + [now])[..issued[k].clockReads] == readings[..issued[k].clockReads]
    {}
  }

  lemma IssueKeepsGood(issued: seq<Issue>, readings: seq<int>, t: nat, now: int)
    requires GoodIssues(issued, readings) && now in readings
    ensures GoodIssues(issued + [Issue(t, now, Next(now, CounterAfter(issued, |issued|)), |readings|)], readings)
  {
    var n := |issued|;
    assert readings[..|readings|] == readings;
    MaxIsMax(readings);
    if n > 0 { MaxGrows(readings, issued[n - 1].clockReads); }
  }

  lemma StepKeepsInv(s: State, e: Event, s': State)
    requires Inv(s) && Step(s, e, s')
    ensures Inv(s')
  {
    var t := e.thread;
    match e {
      case ReadClock(_, now) => ReadingsGrow(s.issued, s.readings, now);
      case Load(_) => assert GoodPhase(s, t);
      case CompareAndSwap(_) =>
        assert GoodPhase(s, t);
        if s.lastNonce == s.phases[t].old_ {
          IssueKeepsGood(s.issued, s.readings, t, s.phases[t].now);
        }
    }
    forall u | 0 <= u < |s'.phases| ensures GoodPhase(s', u) {
      assert GoodPhase(s, u);
    }
  }

  /** The invariant holds in every state of every run, for any number of threads. */
  lemma {:induction false} RunKeepsInv(states: seq<State>, events: seq<Event>, i: nat)
    requires Run(states, events) && i <= |events|
    ensures Inv(states[i])
  {
    if i > 0 {
      RunKeepsInv(states, events, i - 1);
      StepKeepsInv(states[i - 1], events[i - 1], states[i]);
    }
  }

  /** In every run all nonces ever issued are distinct, increase in the order of the swaps,
      and are no older than their caller's clock; the k-th runs ahead of the highest clock
      reading made before it by at most k if and only if that reading is at least one. */
  lemma NoncesAreFresh(states: seq<State>, events: seq<Event>)
    requires Run(states, events)
    ensures var s := states[|events|];
      && (forall i, j :: 0 <= i < j < |s.issued| ==> s.issued[i].nonce < s.issued[j].nonce)
      && forall k :: 0 <= k < |s.issued| ==>
           && s.issued[k].now <= s.issued[k].nonce
           && 1 <= s.issued[k].clockReads <= |s.readings|
           && var highest := Max(s.readings[..s.issued[k].clockReads]);
              s.issued[k].nonce <= highest + k <==> highest >= 1
  {
    RunKeepsInv(states, events, |events|);
    var s := states[|events|];
    forall k | 0 <= k < |s.issued|
      ensures var highest := Max(s.readings[..s.issued[k].clockReads]);
        s.issued[k].nonce <= highest + k <==> highest >= 1
    {
      NoncesCount(s.issued, k);
    }
  }

  lemma {:induction false} NoncesCount(issued: seq<Issue>, k: nat)
    requires k < |issued| && issued[0].nonce >= 1
    requires forall i, j :: 0 <= i < j < |issued| ==> issued[i].nonce < issued[j].nonce
    ensures issued[k].nonce >= k + 1
  {
    if k > 0 { NoncesCount(issued, k - 1); }
  }

  /** A clock that reads zero: the first nonce is one, past the highest reading. */
  lemma ZeroReadingIsPassed() returns (states: seq<State>, events: seq<Event>)
    ensures Run(states, events)
    ensures var s := states[|events|]; s.readings == [0] && |s.issued| == 1 && s.issued[0].nonce == Max([0]) + 1
  {
    events := [ReadClock(0, 0), Load(0), CompareAndSwap(0)];
    var s0 := State(0, [Start], [], []);
    var s1 := s0.(phases := [GotClock(0)], readings := [0]);
    var s2 := s1.(phases := [Loaded(0, 0, 0)]);
    states := [s0, s1, s2, s2.(lastNonce := 1, phases := [Start], issued := [Issue(0, 0, 1, 1)])];
  }
}

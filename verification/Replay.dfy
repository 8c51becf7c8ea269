/** At most once: when an instruction can be executed twice, exactly. */
module Replay {
  import opened Instructions
  import opened Validator
  import opened Pipeline
  import opened Vetting
  import opened Guarantees
  import opened Path
  import Dedup
  import SlidingWindow

  // ---------- the two windows ----------

  /** The first instant at which a message with this timestamp is too old. */
  function TooOldFrom(timestamp: int): int { (timestamp + MAX_AGE + 1) * MILLISECOND }

  /** A message accepted at time a is stamped so far ahead, four minutes at least, that it is
      still fresh when its id expires: the time to live is five minutes, the maximal age one. */
  predicate StampedAhead(a: int, timestamp: int) { a + TTL < TooOldFrom(timestamp) }

  /** A message accepted at time a and found fresh at time f can be accepted as new and found
      fresh again. */
  ghost predicate PassesAgain(a: int, f: int, timestamp: int, a': int, f': int) {
    a <= f <= a' <= f' && Fresh(timestamp, f) && Fresh(timestamp, f') && a' - a >= TTL
  }

  lemma FreshBefore(timestamp: int, f: int)
    requires Fresh(timestamp, f)
    ensures timestamp > 0 && f < TooOldFrom(timestamp)
  {
    assert f < (Millis(f) + 1) * MILLISECOND;
  }

  /** When the reader first finds a message fresh that it accepted at time a. */
  function FoundAt(a: int, timestamp: int): int {
    if a < (timestamp - MAX_AHEAD) * MILLISECOND then (timestamp - MAX_AHEAD) * MILLISECOND else a
  }

  lemma AheadIsFoundFresh(a: int, timestamp: int)
    requires timestamp > 0 && StampedAhead(a, timestamp)
    ensures a <= FoundAt(a, timestamp) < TooOldFrom(timestamp) - 1 - SlidingWindow.MINUTE
    ensures Fresh(timestamp, FoundAt(a, timestamp)) && Fresh(timestamp, TooOldFrom(timestamp) - 1)
  {}

  /** Once its id is accepted, a message can pass both checks again if and only if it is
      stamped ahead of that moment by more than the time to live less the maximal age. */
  lemma PassesAgainExactly(a: int, timestamp: int)
    ensures (exists f, a', f' :: PassesAgain(a, f, timestamp, a', f')) <==> timestamp > 0 && StampedAhead(a, timestamp)
  {
    if f, a', f' :| PassesAgain(a, f, timestamp, a', f') {
      FreshBefore(timestamp, f');
    }
    if timestamp > 0 && StampedAhead(a, timestamp) {
      var last := TooOldFrom(timestamp) - 1;
      AheadIsFoundFresh(a, timestamp);
      assert PassesAgain(a, FoundAt(a, timestamp), timestamp, last, last);
    }
  }

  // ---------- every run ----------

  ghost predicate SameId(s: State, k: nat, l: nat)
    requires k < |s.enqueued| && l < |s.enqueued|
  {
    && s.enqueued[k].delivery < |s.arrivals| && s.enqueued[l].delivery < |s.arrivals|
    && s.arrivals[s.enqueued[k].delivery].instr.id == s.arrivals[s.enqueued[l].delivery].instr.id
  }

  /** Too few other ids were accepted between the two acceptances to push the first one out. */
  ghost predicate FewBetween(h: seq<Dedup.Acceptance>, i: nat, j: nat)
    requires i < |h| && j < |h|
  {
    |Dedup.OthersSince(h[..j], h[i].id, h[i].at)| < MAX_SEEN
  }

  /** If instructions with one id are queued twice, whatever their timestamps and contents,
      then their acceptances are at least the time to live apart, or a thousand other ids were
      accepted in between, or the empty id was accepted less than the time to live before. */
  lemma SameIdNeeds(w: World, states: seq<State>, events: seq<Event>, i: nat, k: nat, l: nat)
    requires Run(w, states, events) && i < |states| && k < l < |states[i].enqueued| && SameId(states[i], k, l)
    ensures var s := states[i];
      var t, u := s.enqueued[k], s.enqueued[l];
      && t.slot < u.slot < |s.accepted|
      && (s.accepted[u.slot].at - s.accepted[t.slot].at >= TTL
          || !FewBetween(s.accepted, t.slot, u.slot)
          || Dedup.Shadowed(MAX_SEEN, TTL, s.accepted, s.accepted[t.slot]))
  {
    RunKeepsInv(w, states, events, i);
    CopiesAreApart(w, states[i], states[i].enqueued[k], states[i].enqueued[l]);
  }

  lemma CopiesAreApart(w: World, s: State, t: Ticket, u: Ticket)
    requires Guarded(w, s) && Vetted(w, s, t) && Vetted(w, s, u) && t.slot < u.slot
    requires s.arrivals[t.delivery].instr.id == s.arrivals[u.delivery].instr.id
    ensures s.accepted[u.slot].at - s.accepted[t.slot].at >= TTL
            || !FewBetween(s.accepted, t.slot, u.slot)
            || Dedup.Shadowed(MAX_SEEN, TTL, s.accepted, s.accepted[t.slot])
    ensures s.arrivals[u.delivery].timestamp > 0
    ensures s.accepted[u.slot].at < TooOldFrom(s.arrivals[u.delivery].timestamp)
  {
    assert Dedup.SeparatedUnlessShadowed(MAX_SEEN, TTL, s.accepted);
    FreshBefore(s.arrivals[u.delivery].timestamp, u.freshAt);
  }

  ghost predicate SameMessage(s: State, k: nat, l: nat)
    requires k < |s.enqueued| && l < |s.enqueued|
  {
    SameId(s, k, l) && s.arrivals[s.enqueued[k].delivery].timestamp == s.arrivals[s.enqueued[l].delivery].timestamp
  }

  /** If the same message is queued twice, its second copy was accepted before the message
      was too old; so the message was stamped ahead of its first acceptance, or a thousand
      other ids were accepted in between, or the empty id was accepted shortly before. */
  lemma SecondCopyNeeds(w: World, states: seq<State>, events: seq<Event>, i: nat, k: nat, l: nat)
    requires Run(w, states, events) && i < |states| && k < l < |states[i].enqueued| && SameMessage(states[i], k, l)
    ensures var s := states[i];
      var t, u := s.enqueued[k], s.enqueued[l];
      var timestamp := s.arrivals[t.delivery].timestamp;
      && t.slot < u.slot < |s.accepted|
      && timestamp > 0 && s.accepted[u.slot].at < TooOldFrom(timestamp)
      && (StampedAhead(s.accepted[t.slot].at, timestamp)
          || !FewBetween(s.accepted, t.slot, u.slot)
          || Dedup.Shadowed(MAX_SEEN, TTL, s.accepted, s.accepted[t.slot]))
  {
    RunKeepsInv(w, states, events, i);
    CopiesAreApart(w, states[i], states[i].enqueued[k], states[i].enqueued[l]);
  }

  /** A message stamped no further ahead of its acceptance than the freshness window allows,
      ten seconds, is queued at most once, unless a thousand other ids are accepted within 70
      seconds, or the empty id was accepted shortly before; however long the reader takes. */
  lemma HonestMessageAtMostOnce(w: World, states: seq<State>, events: seq<Event>, i: nat, k: nat, l: nat)
    requires Run(w, states, events) && i < |states| && k < l < |states[i].enqueued| && SameMessage(states[i], k, l)
    requires states[i].enqueued[k].slot < |states[i].accepted|
    requires states[i].arrivals[states[i].enqueued[k].delivery].timestamp <=
             Millis(states[i].accepted[states[i].enqueued[k].slot].at) + MAX_AHEAD
    ensures var s := states[i];
      var t, u := s.enqueued[k], s.enqueued[l];
      && t.slot < u.slot < |s.accepted|
      && (!FewBetween(s.accepted, t.slot, u.slot) || Dedup.Shadowed(MAX_SEEN, TTL, s.accepted, s.accepted[t.slot]))
      && s.accepted[u.slot].at < s.accepted[t.slot].at + (MAX_AGE + MAX_AHEAD + 1) * MILLISECOND
  {
    SecondCopyNeeds(w, states, events, i, k, l);
  }

  // ---------- exactness ----------

  /** A run ends with instr queued twice: accepted at times a and b, with too few others in
      between, and no empty id shortly before. */
  ghost predicate QueuesTwice(w: World, states: seq<State>, events: seq<Event>, m: Message, m': Message, a: int,
                              b: int, k: nat, l: nat) {
    && Run(w, states, events)
    && var s := Last(states);
       && k < l < |s.enqueued|
       && var t, u := s.enqueued[k], s.enqueued[l];
          && t.delivery < |s.arrivals| && u.delivery < |s.arrivals| && t.slot < |s.accepted| && u.slot < |s.accepted|
          && s.arrivals[t.delivery] == m && s.arrivals[u.delivery] == m'
          && s.accepted[t.slot].at == a && s.accepted[u.slot].at == b
          && FewBetween(s.accepted, t.slot, u.slot)
          && !Dedup.Shadowed(MAX_SEEN, TTL, s.accepted, s.accepted[t.slot])
  }

  lemma FirstAcceptance(id: string, at: int)
    ensures Dedup.CheckStep(MAX_SEEN, TTL, map[], id, at, map[id := at], true)
  {
    assert Dedup.MakesRoom(map[], MAX_SEEN, TTL, at, map[]);
  }

  lemma ExpiredAcceptance(id: string, at: int, now: int)
    requires now - at >= TTL
    ensures Dedup.CheckStep(MAX_SEEN, TTL, map[id := at], id, now, map[id := now], true)
  {
    var seen: Dedup.Seen := map[id := at];
    assert seen.Keys == {id} && |seen| == |seen.Keys| == 1;
    assert Dedup.MakesRoom(seen, MAX_SEEN, TTL, now, seen) && seen[id := now] == map[id := now];
  }

  /** One copy of m was accepted at time first, admitted at time found and queued. */
  ghost predicate QueuedOnce(s: State, m: Message, first: int, found: int) {
    && s.reader == Idle && !s.paused && s.arrivals == [m] && |s.fates| == 1 && |s.queue| == 1
    && s.seen == map[m.instr.id := first] && s.accepted == [Dedup.Acceptance(m.instr.id, first)]
    && s.admitted == [found]
    && |s.enqueued| == 1 && s.enqueued[0].delivery == 0 && s.enqueued[0].slot == 0
  }

  lemma FirstCopyQueued(m: Message, lim: RiskLimits, res: Resolver, first: int, found: int)
    ensures QueuedOnce(Queueing(StartAt(first), m, map[m.instr.id := first], found, lim, res, None), m, first, found)
  {}

  /** m and m' are enqueued, and nothing else was ever accepted. */
  ghost predicate QueuedBoth(s: State, m: Message, m': Message, first: int, again: int) {
    && |s.enqueued| == 2 && s.enqueued[0].delivery == 0 && s.enqueued[1].delivery == 1
    && s.enqueued[0].slot == 0 && s.enqueued[1].slot == 1 && s.arrivals == [m, m']
    && s.accepted == [Dedup.Acceptance(m.instr.id, first), Dedup.Acceptance(m.instr.id, again)]
  }

  lemma SecondCopyQueued(s: State, m: Message, m': Message, lim: RiskLimits, res: Resolver, first: int, found: int,
                         again: int)
    requires QueuedOnce(s, m, first, found) && m'.instr.id == m.instr.id && s.clock == again
    ensures QueuedBoth(Queueing(s, m', map[m.instr.id := again], again, lim, res, None), m, m', first, again)
  {}

  lemma OneOldAdmission(limit: int, found: int, now: int)
    requires limit >= 1 && found < now - SlidingWindow.MINUTE
    ensures SlidingWindow.Admits(limit, [found], now)
  {
    SlidingWindow.RecentOfPrefix([found], now - SlidingWindow.MINUTE, 1);
  }

  /** What a signed instruction needs to be acceptable whenever it is fresh and admitted. */
  ghost predicate Sound(w: World, instr: Instruction, lim: RiskLimits, res: Resolver) {
    w.ratePerMinute >= 1 && w.cooldown > 0 && Signed(w, instr) && res.parse == w.parse && Accepts(lim, res, instr.steps)
  }

  lemma QueueFirst(w: World, m: Message, lim: RiskLimits, res: Resolver, first: int, found: int)
    returns (states: seq<State>, events: seq<Event>)
    requires Sound(w, m.instr, lim, res) && first <= found && Fresh(m.timestamp, found)
    ensures Run(w, states, events) && QueuedOnce(Last(states), m, first, found) && Last(states).clock == found
  {
    states, events := [StartAt(first)], [];
    FirstAcceptance(m.instr.id, first);
    FirstCopyQueued(m, lim, res, first, found);
    states, events := AcceptableIsQueued(w, states, events, m, map[m.instr.id := first], found, lim, res, None);
  }

  lemma QueueSecond(w: World, m: Message, m': Message, lim: RiskLimits, res: Resolver, first: int, found: int,
                    again: int,
                    states: seq<State>, events: seq<Event>)
    returns (states': seq<State>, events': seq<Event>)
    requires Sound(w, m'.instr, lim, res) && m'.instr.id == m.instr.id
    requires again - first >= TTL && found < again - SlidingWindow.MINUTE && Fresh(m'.timestamp, again)
    requires Run(w, states, events) && QueuedOnce(Last(states), m, first, found) && Last(states).clock == again
    ensures Run(w, states', events') && QueuedBoth(Last(states'), m, m', first, again)
  {
    ExpiredAcceptance(m.instr.id, first, again);
    OneOldAdmission(w.ratePerMinute, found, again);
    SecondCopyQueued(Last(states), m, m', lim, res, first, found, again);
    states', events' := AcceptableIsQueued(w, states, events, m', map[m.instr.id := again], again, lim, res, None);
  }

  /** Two messages with one id, undisturbed by any other: the first is accepted and, when it
      is fresh, queued; the second is accepted and queued once the id has expired. */
  lemma QueueBoth(w: World, m: Message, m': Message, lim: RiskLimits, res: Resolver, first: int, found: int, again: int)
    returns (states: seq<State>, events: seq<Event>)
    requires Sound(w, m.instr, lim, res) && Sound(w, m'.instr, lim, res) && m'.instr.id == m.instr.id
    requires first <= found < again - SlidingWindow.MINUTE && again - first >= TTL
    requires Fresh(m.timestamp, found) && Fresh(m'.timestamp, again)
    ensures QueuesTwice(w, states, events, m, m', first, again, 0, 1)
  {
    states, events := QueueFirst(w, m, lim, res, first, found);
    states, events := Extend(w, states, events, Tick(again), Last(states).(clock := again));
    states, events := QueueSecond(w, m, m', lim, res, first, found, again, states, events);
    NothingBetween(Last(states).accepted, m.instr.id);
  }

  lemma NothingBetween(h: seq<Dedup.Acceptance>, id: string)
    requires |h| == 2 && h[0].id == h[1].id == id && h[0].at <= h[1].at
    ensures FewBetween(h, 0, 1) && !Dedup.Shadowed(MAX_SEEN, TTL, h, h[0])
  {
    assert Dedup.OthersSince(h[..1], id, h[0].at) == {};
  }

  /** Among runs without a thousand other ids or an empty one in play, a signed, acceptable
      message accepted at time a is queued twice in some run if and only if it is stamped
      ahead: the run lets the reader wait until it is fresh. */
  lemma AtMostOnceExactly(w: World, m: Message, lim: RiskLimits, res: Resolver, a: int)
    requires Sound(w, m.instr, lim, res)
    ensures (exists states, events, b, k, l :: QueuesTwice(w, states, events, m, m, a, b, k, l))
            <==> m.timestamp > 0 && StampedAhead(a, m.timestamp)
  {
    if states, events, b, k, l :| QueuesTwice(w, states, events, m, m, a, b, k, l) {
      SecondCopyNeeds(w, states, events, |states| - 1, k, l);
    }
    if m.timestamp > 0 && StampedAhead(a, m.timestamp) {
      AheadIsFoundFresh(a, m.timestamp);
      var last := TooOldFrom(m.timestamp) - 1;
      var states, events := QueueBoth(w, m, m, lim, res, a, FoundAt(a, m.timestamp), last);
    }
  }

  /** The instruction, stamped when it is sent. */
  function StampedAt(instr: Instruction, at: int): Message { Message(instr, Millis(at) + 1) }

  /** The timestamp is not signed. Among the same runs a signed, acceptable instruction is
      queued twice, accepted at times a and b and freshly stamped each time, in some run if
      and only if they are at least the time to live apart. */
  lemma SameIdExactly(w: World, instr: Instruction, lim: RiskLimits, res: Resolver, a: int, b: int)
    requires Sound(w, instr, lim, res) && 0 <= a <= b
    ensures (exists states, events, k, l ::
               QueuesTwice(w, states, events, StampedAt(instr, a), StampedAt(instr, b), a, b, k, l))
            <==> b - a >= TTL
  {
    var m, m' := StampedAt(instr, a), StampedAt(instr, b);
    if states, events, k, l :| QueuesTwice(w, states, events, m, m', a, b, k, l) {
      SameIdNeeds(w, states, events, |states| - 1, k, l);
    }
    if b - a >= TTL {
      var states, events := QueueBoth(w, m, m', lim, res, a, a, b);
    }
  }
}

/** The one exception to at most once that the timestamp does not show: messages that need
    not be signed fill the duplicate filter behind an empty id. */
module EmptyId {
  import opened Instructions
  import opened Validator
  import opened Pipeline
  import opened Path
  import opened Replay
  import Dedup
  import SlidingWindow

  /** A message nobody signed, too old whenever it comes. */
  function Junk(id: string): Message { Message(Instruction(id, "", "", "", [], ""), 0) }

  /** The reader has accepted the id as new, and dropped the message for its timestamp. */
  function AfterJunk(s: State, id: string, seen: Dedup.Seen): State {
    s.(arrivals := s.arrivals + [Junk(id)], fates := s.fates + [Dropped],
       seen := seen, accepted := s.accepted + [Dedup.Acceptance(id, s.clock)])
  }

  lemma {:induction false} DropJunk(w: World, states: seq<State>, events: seq<Event>, id: string, seen: Dedup.Seen)
    returns (states': seq<State>, events': seq<Event>)
    requires Run(w, states, events) && Ready(Last(states))
    requires Dedup.CheckStep(MAX_SEEN, TTL, Last(states).seen, id, Last(states).clock, seen, true)
    ensures Run(w, states', events') && Last(states') == AfterJunk(Last(states), id, seen)
  {
    var s := Last(states);
    var s1 := s.(reader := AtDedup, arrivals := s.arrivals + [Junk(id)], fates := s.fates + [InReader]);
    states', events' := Extend(w, states, events, Arrive(Junk(id)), s1);
    var s2 := s1.(reader := AtPause, seen := seen, accepted := s.accepted + [Dedup.Acceptance(id, s.clock)]);
    states', events' := Extend(w, states', events', CheckDedup(true, seen), s2);
    var s3 := s2.(reader := AtTimestamp(|s.flags|));
    states', events' := Extend(w, states', events', CheckPause, s3);
    states', events' := Extend(w, states', events', CheckTimestamp, AfterJunk(s, id, seen));
  }

  /** The filter holds the empty id, accepted at time 0, and n others, accepted at time 1;
      nothing was ever queued. */
  ghost predicate Stuffed(s: State, n: nat) {
    && Ready(s) && s.clock == 1 && s.seen == Dedup.Filled(n) && s.accepted == Dedup.Accepted(Dedup.Filling(n))
    && s.queue == [] && s.enqueued == [] && s.admitted == []
  }

  lemma AcceptedMore(n: nat)
    ensures Dedup.Accepted(Dedup.Filling(n + 1)) ==
        Dedup.Accepted(Dedup.Filling(n)) + [Dedup.Acceptance(Dedup.Key(n + 1), 1)]
  {
    var calls := Dedup.Filling(n + 1);
    assert calls[..|calls| - 1] == Dedup.Filling(n);
  }

  lemma StuffFirst(w: World) returns (states: seq<State>, events: seq<Event>)
    requires w.ratePerMinute >= 1 && w.cooldown > 0
    ensures Run(w, states, events) && Stuffed(Last(states), 0)
  {
    states, events := [StartAt(0)], [];
    Dedup.RoomyStep(MAX_SEEN, TTL, map[], "", 0);
    states, events := DropJunk(w, states, events, "", map["" := 0]);
    states, events := Extend(w, states, events, Tick(1), Last(states).(clock := 1));
    assert Dedup.Filling(0)[..0] == [];
  }

  lemma JunkStuffs(s: State, n: nat)
    requires Stuffed(s, n)
    ensures Stuffed(AfterJunk(s, Dedup.Key(n + 1), Dedup.Filled(n)[Dedup.Key(n + 1) := 1]), n + 1)
  {
    AcceptedMore(n);
  }

  lemma StuffMore(w: World, states: seq<State>, events: seq<Event>, n: nat)
    returns (states': seq<State>, events': seq<Event>)
    requires n + 1 < MAX_SEEN && Run(w, states, events) && Stuffed(Last(states), n)
    ensures Run(w, states', events') && Stuffed(Last(states'), n + 1)
  {
    var full, key := Dedup.Filled(n), Dedup.Key(n + 1);
    Dedup.FilledHolds(n);
    Dedup.RoomyStep(MAX_SEEN, TTL, full, key, 1);
    JunkStuffs(Last(states), n);
    states', events' := DropJunk(w, states, events, key, full[key := 1]);
  }

  lemma {:induction false} Stuff(w: World, n: nat) returns (states: seq<State>, events: seq<Event>)
    requires w.ratePerMinute >= 1 && w.cooldown > 0 && n < MAX_SEEN
    ensures Run(w, states, events) && Stuffed(Last(states), n)
  {
    if n == 0 {
      states, events := StuffFirst(w);
    } else {
      states, events := Stuff(w, n - 1);
      states, events := StuffMore(w, states, events, n - 1);
    }
  }

  const SPARE := MAX_SEEN - 2

  /** The id of a signed instruction that is not one of those stuffed into the filter. */
  ghost predicate Apart(id: string) {
    id !in Dedup.Filled(SPARE) && id != Dedup.Key(MAX_SEEN)
  }

  /** A message stamped in the first millisecond, honestly. */
  function Early(instr: Instruction): Message { Message(instr, 1) }

  /** What the filter accepted before the signed instruction. */
  ghost function Before(): seq<Dedup.Acceptance> { Dedup.Accepted(Dedup.Filling(SPARE)) }

  function At(id: string): Dedup.Acceptance { Dedup.Acceptance(id, 1) }

  /** One copy is queued, accepted right after the stuffing; later more was accepted. */
  ghost predicate OneQueued(s: State, instr: Instruction, newest: string, later: seq<Dedup.Acceptance>) {
    && Ready(s) && s.clock == 1 && s.seen == Dedup.Filled(SPARE)[newest := 1]
    && s.accepted == Before() + [At(instr.id)] + later
    && |s.queue| == 1 && |s.admitted| == 1 && |s.enqueued| == 1
    && s.enqueued[0].delivery < |s.arrivals| && s.arrivals[s.enqueued[0].delivery] == Early(instr)
    && s.enqueued[0].slot == |Before()|
  }

  lemma FirstQueued(s: State, instr: Instruction, lim: RiskLimits, res: Resolver)
    requires Stuffed(s, SPARE)
    ensures OneQueued(Queueing(s, Early(instr), Dedup.Filled(SPARE)[instr.id := 1], 1, lim, res, None), instr,
                      instr.id, [])
  {
    assert s.accepted + [At(instr.id)] + [] == s.accepted + [At(instr.id)];
  }

  lemma NewestDropped(s: State, instr: Instruction, y: string)
    requires OneQueued(s, instr, instr.id, [])
    ensures OneQueued(AfterJunk(s, y, Dedup.Filled(SPARE)[y := 1]), instr, y, [At(y)])
  {
    var h := Before() + [At(instr.id)];
    assert h + [] + [At(y)] == h + [At(y)];
  }

  /** Both copies are queued, and only y was accepted between them. */
  ghost predicate BothQueued(s: State, instr: Instruction, y: string) {
    && |s.enqueued| == 2 && s.enqueued[0].delivery < |s.arrivals| && s.enqueued[1].delivery < |s.arrivals|
    && s.arrivals[s.enqueued[0].delivery] == s.arrivals[s.enqueued[1].delivery] == Early(instr)
    && s.enqueued[0].slot == |Before()| && s.enqueued[1].slot == |Before()| + 2
    && s.accepted == Before() + [At(instr.id)] + [At(y)] + [At(instr.id)]
  }

  lemma SecondQueued(s: State, instr: Instruction, y: string, lim: RiskLimits, res: Resolver)
    requires OneQueued(s, instr, y, [At(y)])
    ensures BothQueued(Queueing(s, Early(instr), Dedup.Filled(SPARE)[instr.id := 1], 1, lim, res, None), instr, y)
  {}

  lemma NotRecent(limit: int, admitted: seq<int>)
    requires limit >= 2 && |admitted| <= 1
    ensures SlidingWindow.Admits(limit, admitted, 1)
  {
    if |admitted| == 1 { assert admitted[..0] == []; }
  }

  /** A copy of the instruction arrives, is accepted as new, and is queued. */
  lemma QueueEarly(w: World, states: seq<State>, events: seq<Event>, instr: Instruction, lim: RiskLimits,
                   res: Resolver, seen: Dedup.Seen)
    returns (states': seq<State>, events': seq<Event>)
    requires Sound(w, instr, lim, res) && w.ratePerMinute >= 2
    requires Run(w, states, events) && Ready(Last(states)) && Last(states).clock == 1
    requires |Last(states).queue| <= 1 && |Last(states).admitted| <= 1
    requires Dedup.CheckStep(MAX_SEEN, TTL, Last(states).seen, instr.id, 1, seen, true)
    ensures Run(w, states', events') && Last(states') == Queueing(Last(states), Early(instr), seen, 1, lim, res, None)
  {
    NotRecent(w.ratePerMinute, Last(states).admitted);
    states', events' := AcceptableIsQueued(w, states, events, Early(instr), seen, 1, lim, res, None);
  }

  /** Since the first copy, the other ids are those accepted at its instant and y. */
  lemma FewSince(s: State, instr: Instruction, y: string)
    requires BothQueued(s, instr, y)
    ensures FewBetween(s.accepted, s.enqueued[0].slot, s.enqueued[1].slot)
  {
    var h, x := s.accepted[..|Before()| + 2], instr.id;
    Dedup.AllAccepted(Dedup.Filling(SPARE));
    Dedup.FilledHolds(SPARE);
    var others := Dedup.Filled(SPARE).Keys - {""} + {y};
    forall id | id in Dedup.OthersSince(h, x, 1) ensures id in others {
      var i :| 0 <= i < |h| && h[i].id != x && 1 <= h[i].at && h[i].id == id;
      if i < |Before()| {
        assert h[i] == Before()[i] && id == Dedup.Key(i) && i > 0;
      } else {
        assert h[i] == At(y);
      }
    }
    assert |Dedup.Filled(SPARE).Keys - {""}| == SPARE;
    Dedup.SubsetSize(Dedup.OthersSince(h, x, 1), others);
  }

  /** x gives way to y in the full filter. */
  lemma GivesWay(x: string, y: string)
    requires x != y && x !in Dedup.Filled(SPARE) && y !in Dedup.Filled(SPARE)
    ensures Dedup.CheckStep(MAX_SEEN, TTL, Dedup.Filled(SPARE)[x := 1], y, 1, Dedup.Filled(SPARE)[y := 1], true)
  {
    Dedup.NewestGivesWay(MAX_SEEN, TTL, x, y);
  }

  lemma QueueFirstCopy(w: World, instr: Instruction, lim: RiskLimits, res: Resolver)
    returns (states: seq<State>, events: seq<Event>)
    requires Sound(w, instr, lim, res) && w.ratePerMinute >= 2 && Apart(instr.id)
    ensures Run(w, states, events) && OneQueued(Last(states), instr, instr.id, [])
  {
    var rest := Dedup.Filled(SPARE);
    Dedup.FilledHolds(SPARE);
    states, events := Stuff(w, SPARE);
    Dedup.RoomyStep(MAX_SEEN, TTL, rest, instr.id, 1);
    FirstQueued(Last(states), instr, lim, res);
    states, events := QueueEarly(w, states, events, instr, lim, res, rest[instr.id := 1]);
  }

  lemma SwapOut(w: World, states: seq<State>, events: seq<Event>, instr: Instruction, y: string)
    returns (states': seq<State>, events': seq<Event>)
    requires instr.id !in Dedup.Filled(SPARE) && y !in Dedup.Filled(SPARE) && instr.id != y
    requires Run(w, states, events) && OneQueued(Last(states), instr, instr.id, [])
    ensures Run(w, states', events') && OneQueued(Last(states'), instr, y, [At(y)])
  {
    GivesWay(instr.id, y);
    NewestDropped(Last(states), instr, y);
    states', events' := DropJunk(w, states, events, y, Dedup.Filled(SPARE)[y := 1]);
  }

  lemma QueueSecondCopy(w: World, states: seq<State>, events: seq<Event>, instr: Instruction, lim: RiskLimits,
                        res: Resolver, y: string)
    returns (states': seq<State>, events': seq<Event>)
    requires Sound(w, instr, lim, res) && w.ratePerMinute >= 2
    requires instr.id !in Dedup.Filled(SPARE) && y !in Dedup.Filled(SPARE) && instr.id != y
    requires Run(w, states, events) && OneQueued(Last(states), instr, y, [At(y)])
    ensures Run(w, states', events') && BothQueued(Last(states'), instr, y)
  {
    GivesWay(y, instr.id);
    SecondQueued(Last(states), instr, y, lim, res);
    states', events' := QueueEarly(w, states, events, instr, lim, res, Dedup.Filled(SPARE)[instr.id := 1]);
  }

  /** The two last tickets are of one honestly stamped message, accepted twice at one instant
      with too few other ids in between. */
  ghost predicate HonestTwice(s: State) {
    && |s.enqueued| == 2
    && var t, u := s.enqueued[0], s.enqueued[1];
       && t.slot < u.slot < |s.accepted| && SameMessage(s, 0, 1) && s.accepted[t.slot].at == s.accepted[u.slot].at
       && s.arrivals[t.delivery].timestamp <= Millis(s.accepted[t.slot].at) + MAX_AHEAD
       && FewBetween(s.accepted, t.slot, u.slot)
  }

  lemma BothAreHonest(s: State, instr: Instruction, y: string)
    requires BothQueued(s, instr, y)
    ensures HonestTwice(s)
  {
    FewSince(s, instr, y);
  }

  /** With an empty id in play, an honestly stamped message can be queued twice within one
      instant, and not a thousand other ids in between: for every signed, acceptable
      instruction not among the stuffing there is such a run. */
  lemma EmptyIdBreaksAtMostOnce(w: World, instr: Instruction, lim: RiskLimits, res: Resolver)
    returns (states: seq<State>, events: seq<Event>)
    requires Sound(w, instr, lim, res) && w.ratePerMinute >= 2 && Apart(instr.id)
    ensures Run(w, states, events) && HonestTwice(Last(states))
  {
    var y := Dedup.Key(MAX_SEEN);
    Dedup.FilledHolds(SPARE);
    states, events := QueueFirstCopy(w, instr, lim, res);
    states, events := SwapOut(w, states, events, instr, y);
    states, events := QueueSecondCopy(w, states, events, instr, lim, res, y);
    BothAreHonest(Last(states), instr, y);
  }
}

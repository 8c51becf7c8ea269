/** The ring buffer behind the trade view: it refines an unbounded log, of which it can
    show the last few records. */
module TradeStore {

  datatype TradeRecord = TradeRecord(at: int, market: string, action: string, success: bool, error: string,
                                     signalId: string)

  /** The slot of the record that was added back records ago. */
  function Slot(cursor: int, back: nat, capacity: nat): (i: nat)
    requires 0 <= cursor < capacity && back < capacity
    ensures i < capacity
  {
    (cursor - 1 - back + capacity) % capacity
  }

  lemma ModOnce(x: nat, c: nat)
    requires c > 0 && x < 2 * c
    ensures x % c == if x < c then x else x - c
  {}

  lemma SlotUnwrapped(cursor: int, back: nat, capacity: nat)
    requires 0 <= cursor < capacity && back < capacity
    ensures Slot(cursor, back, capacity) == if back < cursor then cursor - 1 - back else cursor - 1 - back + capacity
  {
    ModOnce(cursor - 1 - back + capacity, capacity);
  }

  /** After the cursor moves on, what was back records ago is back + 1 records ago. */
  lemma SlotShifts(cursor: int, back: nat, capacity: nat)
    requires 0 <= cursor < capacity && back + 1 < capacity
    ensures Slot((cursor + 1) % capacity, back + 1, capacity) == Slot(cursor, back, capacity)
    ensures Slot(cursor, back, capacity) != cursor
  {
    var next := (cursor + 1) % capacity;
    ModOnce(cursor + 1, capacity);
    SlotUnwrapped(cursor, back, capacity);
    SlotUnwrapped(next, back + 1, capacity);
  }

  lemma SlotOfNewest(cursor: int, capacity: nat)
    requires 0 <= cursor < capacity
    ensures Slot((cursor + 1) % capacity, 0, capacity) == cursor
  {
    var next := (cursor + 1) % capacity;
    ModOnce(cursor + 1, capacity);
    SlotUnwrapped(next, 0, capacity);
  }

  /** Where reading back n records begins. */
  function WalkStart(cursor: int, n: nat, capacity: nat): (i: nat)
    requires 0 <= cursor < capacity && n <= capacity
    ensures i < capacity
  {
    (cursor - n + capacity) % capacity
  }

  function WalkSlot(start: nat, i: nat, capacity: nat): (slot: nat)
    requires capacity > 0
    ensures slot < capacity
  {
    (start + i) % capacity
  }

  /** The forward walk of Recent reaches the slots newest-last. */
  lemma WalkReachesSlot(cursor: int, n: nat, i: nat, capacity: nat)
    requires 0 <= cursor < capacity && i < n <= capacity
    ensures WalkSlot(WalkStart(cursor, n, capacity), i, capacity) == Slot(cursor, n - 1 - i, capacity)
  {
    var start := WalkStart(cursor, n, capacity);
    ModOnce(cursor - n + capacity, capacity);
    ModOnce(start + i, capacity);
    SlotUnwrapped(cursor, n - 1 - i, capacity);
  }

  class TradeStore {
    const records: array<TradeRecord>
    const capacity: nat
    var cursor: nat
    var count: nat
    ghost var log: seq<TradeRecord>

    ghost predicate Valid()
      reads this, records
    {
      && capacity > 0 && records.Length == capacity && cursor < capacity
      && count == (if |log| < capacity then |log| else capacity)
      && forall back :: 0 <= back < count ==> records[Slot(cursor, back, capacity)] == log[|log| - 1 - back]
    }

    constructor (capacity: nat, blank: TradeRecord)
      requires capacity > 0
      ensures Valid() && this.capacity == capacity && log == [] && fresh(records)
    {
      records := new TradeRecord[capacity](_ => blank);
      this.capacity := capacity;
      cursor, count, log := 0, 0, [];
    }

    method Add(r: TradeRecord)
      requires Valid()
      modifies this, records
      ensures Valid() && log == old(log) + [r]
    {
      ghost var c := cursor;
      records[cursor] := r;
      cursor := (cursor + 1) % capacity;
      if count < capacity {
        count := count + 1;
      }
      log := log + [r];
      SlotOfNewest(c, capacity);
      forall back | 0 <= back < count
        ensures records[Slot(cursor, back, capacity)] == log[|log| - 1 - back]
      {
        if back > 0 { SlotShifts(c, back - 1, capacity); }
      }
    }

    lemma RecordReached(n: nat, i: nat)
      requires Valid() && i < n <= count
      ensures records[WalkSlot(WalkStart(cursor, n, capacity), i, capacity)] == log[|log| - n + i]
    {
      WalkReachesSlot(cursor, n, i, capacity);
    }

    /** The last n records ever added, oldest first; all that are kept when n asks for more. */
    method Recent(n: nat) returns (result: seq<TradeRecord>)
      requires Valid()
      ensures var kept := if |log| < capacity then |log| else capacity;
              var m := if n > kept then kept else n;
              result == log[|log| - m..]
    {
      var m := if n > count then count else n;
      if m == 0 { return []; }
      var blank := records[0];
      var out := new TradeRecord[m](_ => blank);
      var start := WalkStart(cursor, m, capacity);
      for i := 0 to m
        invariant forall j :: 0 <= j < i ==> out[j] == log[|log| - m + j]
      {
        RecordReached(m, i);
        out[i] := records[WalkSlot(start, i, capacity)];
      }
      result := out[..];
    }
  }
}

/**
 * The short-term history log: a fixed-capacity ring buffer holding one entry
 * per telegram, with the index of the next slot to write (the head) and a
 * count of live entries that saturates at the capacity.
 *
 * `RingState` and the functions over it are the specification; the class
 * `ShortTermLog` is the firmware's module state and is proved against them.
 */
module Logger {
  import opened P1Types

  /** One short-term log record (`log_entry_short_term_p1_data_t`). */
  datatype ShortTermEntry = ShortTermEntry(timestamp: int, currentAvgDemand: Float32, currentPowerUsage: Float32)

  /** The log covers fifteen minutes (`LOGGER_SHORT_TERM_LOG_DURATION_S`). */
  const ShortTermLogDurationS: nat := 60 * 15

  /** `LOGGER_SHORT_TERM_LOG_SIZE` for a telegram interval of `intervalMs`
      milliseconds: as many entries as fit in fifteen minutes. */
  function ShortTermLogSize(intervalMs: nat): (n: nat)
    requires 0 < intervalMs <= ShortTermLogDurationS * 1000
    ensures 0 < n
    ensures n * intervalMs <= ShortTermLogDurationS * 1000 < (n + 1) * intervalMs
  {
    (ShortTermLogDurationS * 1000) / intervalMs
  }

  /** The ring as a value: the slot array, the head and the item count. */
  datatype RingState = RingState(slots: seq<ShortTermEntry>, head: nat, count: nat)

  ghost predicate RingOk(r: RingState)
  {
    0 < |r.slots| && r.head < |r.slots| && r.count <= |r.slots|
  }

  /** Reduction modulo `m` of a value below `2 * m`. */
  lemma ModBelowTwice(x: int, m: int)
    requires 0 < m && 0 <= x < 2 * m
    ensures x % m == if x < m then x else x - m
  {
  }

  /** Slot of the `i`-th oldest live entry. */
  function Pos(r: RingState, i: nat): (p: nat)
    requires RingOk(r) && i < r.count
    ensures p < |r.slots|
  {
    (r.head + |r.slots| - r.count + i) % |r.slots|
  }

  /** The live entries, oldest first. */
  ghost function Contents(r: RingState): (s: seq<ShortTermEntry>)
    requires RingOk(r)
  {
    seq(r.count, i requires 0 <= i < r.count => r.slots[Pos(r, i)])
  }

  /** The newest `k` elements of `s` (all of them when there are fewer). */
  ghost function Newest<T>(s: seq<T>, k: nat): seq<T>
  {
    s[|s| - Min(|s|, k)..]
  }

  /** `add_short_term_log_entry`: write the slot at the head, advance the
      head modulo the capacity and count up until the log is full. */
  function Append(r: RingState, e: ShortTermEntry): (r': RingState)
    requires RingOk(r)
    ensures RingOk(r') && |r'.slots| == |r.slots|
  {
    RingState(r.slots[r.head := e], (r.head + 1) % |r.slots|,
              if r.count < |r.slots| then r.count + 1 else r.count)
  }

  /** FIFO behaviour of one append: the new entry becomes the newest, and
      the oldest is evicted exactly when the log was full. */
  lemma AppendContents(r: RingState, e: ShortTermEntry)
    requires RingOk(r)
    ensures Contents(Append(r, e)) == (if r.count < |r.slots| then Contents(r) else Contents(r)[1..]) + [e]
  {
    var cap := |r.slots|;
    var r' := Append(r, e);
    var expected := (if r.count < cap then Contents(r) else Contents(r)[1..]) + [e];
    ModBelowTwice(r.head + 1, cap);
    assert |Contents(r')| == |expected|;
    forall i | 0 <= i < r'.count ensures Contents(r')[i] == expected[i] {
      ModBelowTwice(r'.head + cap - r'.count + i, cap);
      if i == r'.count - 1 {
        assert Pos(r', i) == r.head;
      } else {
        var j := if r.count < cap then i else i + 1;
        ModBelowTwice(r.head + cap - r.count + j, cap);
        assert Pos(r', i) == Pos(r, j);
        assert Pos(r, j) != r.head;
      }
    }
  }

  /** The entries `es` appended one after the other, in order. */
  function AppendAll(r: RingState, es: seq<ShortTermEntry>): (r': RingState)
    requires RingOk(r)
    ensures RingOk(r') && |r'.slots| == |r.slots|
    decreases |es|
  {
    if es == [] then r else Append(AppendAll(r, es[..|es| - 1]), es[|es| - 1])
  }

  /** Whatever was in the log, after appending `es` it holds the newest
      `capacity` entries of the old contents followed by `es`. */
  lemma {:induction false} AppendAllContents(r: RingState, es: seq<ShortTermEntry>)
    requires RingOk(r)
    ensures AppendAll(r, es).count == Min(r.count + |es|, |r.slots|)
    ensures Contents(AppendAll(r, es)) == Newest(Contents(r) + es, |r.slots|)
    decreases |es|
  {
    var cap := |r.slots|;
    if es == [] {
      assert Contents(r) + es == Contents(r);
    } else {
      var init, e := es[..|es| - 1], es[|es| - 1];
      AppendAllContents(r, init);
      var mid := AppendAll(r, init);
      AppendContents(mid, e);
      var h := Contents(r) + init;
      assert Contents(r) + es == h + [e];
      if mid.count < cap {
        assert Newest(h, cap) == h;
      } else {
        assert Newest(h + [e], cap) == Newest(h, cap)[1..] + [e];
      }
    }
  }

  /** The slot the copy loop reads for item `i` of `n` is the slot of the
      `(count - n + i)`-th oldest entry. */
  lemma TailIndex(r: RingState, n: nat, i: nat)
    requires RingOk(r) && n <= r.count && i < n
    ensures ((|r.slots| + r.head - n) % |r.slots| + i) % |r.slots| == Pos(r, r.count - n + i)
  {
    var cap := |r.slots|;
    ModBelowTwice(cap + r.head - n, cap);
    ModBelowTwice((cap + r.head - n) % cap + i, cap);
    ModBelowTwice(r.head + cap - r.count + (r.count - n + i), cap);
  }

  /** The `n` slots starting at `tail`, wrapping around the end. */
  function SlotsFrom(slots: seq<ShortTermEntry>, tail: nat, n: nat): (out: seq<ShortTermEntry>)
    requires 0 < |slots|
    ensures |out| == n
    ensures forall i :: 0 <= i < n ==> out[i] == slots[(tail + i) % |slots|]
  {
    seq(n, i requires 0 <= i < n => slots[(tail + i) % |slots|])
  }

  /** The `n` slots from the tail index are the `n` newest live entries. */
  lemma SlotsFromTail(r: RingState, n: nat)
    requires RingOk(r) && n <= r.count
    ensures SlotsFrom(r.slots, (|r.slots| + r.head - n) % |r.slots|, n) == Contents(r)[r.count - n..]
  {
    var out := SlotsFrom(r.slots, (|r.slots| + r.head - n) % |r.slots|, n);
    forall i | 0 <= i < n ensures out[i] == Contents(r)[r.count - n + i] {
      TailIndex(r, n, i);
    }
  }

  /** `logger_get_short_term_log_items`: the `Min(maxItems, count)` newest
      entries, oldest first, copied from the tail index onwards. */
  function ReadItems(r: RingState, maxItems: nat): (out: seq<ShortTermEntry>)
    requires RingOk(r)
    ensures |out| == Min(maxItems, r.count)
    ensures out == Contents(r)[r.count - |out|..]
  {
    var cap := |r.slots|;
    var n := if maxItems > r.count then r.count else maxItems;
    SlotsFromTail(r, n);
    SlotsFrom(r.slots, (cap + r.head - n) % cap, n)
  }

  /** Reading a ring that holds the newest entries of `history` yields the
      newest `Min(maxItems, count)` entries of `history`. */
  lemma ReadItemsNewest(r: RingState, history: seq<ShortTermEntry>, maxItems: nat)
    requires RingOk(r) && r.count == Min(|history|, |r.slots|)
    requires Contents(r) == Newest(history, |r.slots|)
    ensures ReadItems(r, maxItems) == history[|history| - Min(maxItems, r.count)..]
  {
  }

  /** Round trip through the log, starting from an empty one: up to the
      capacity, reading back as many entries as were appended yields them in
      insertion order; beyond it, reading a full log yields the newest
      `capacity` entries, the earlier ones having been evicted. */
  lemma RoundTrip(r: RingState, es: seq<ShortTermEntry>)
    requires RingOk(r) && r.count == 0
    ensures |es| <= |r.slots| ==> ReadItems(AppendAll(r, es), |es|) == es
    ensures |es| >= |r.slots| ==> ReadItems(AppendAll(r, es), |r.slots|) == es[|es| - |r.slots|..]
  {
    AppendAllContents(r, es);
    assert Contents(r) + es == es;
    var r' := AppendAll(r, es);
    var cap := |r.slots|;
    if |es| <= cap {
      assert r'.count == |es|;
      assert Contents(r') == es;
    } else {
      assert r'.count == cap;
      assert Contents(r') == es[|es| - cap..];
    }
  }

  /** The firmware's short-term log module state. `history` is every entry
      ever added, in order. */
  class ShortTermLog {
    const capacity: nat
    var log: array<ShortTermEntry>
    var head: nat
    var count: nat
    ghost var history: seq<ShortTermEntry>

    ghost function State(): RingState
      reads this, log
    {
      RingState(log[..], head, count)
    }

    /** The ring is well formed and holds the newest `count` entries ever
        added, where `count` is the number added, capped at the capacity. */
    ghost predicate Valid()
      reads this, log
    {
      && log.Length == capacity
      && RingOk(State())
      && count == Min(|history|, capacity)
      && Contents(State()) == Newest(history, capacity)
    }

    constructor (capacity: nat)
      requires 0 < capacity
      ensures Valid() && fresh(log)
      ensures this.capacity == capacity && head == 0 && count == 0 && history == []
    {
      this.capacity := capacity;
      log := new ShortTermEntry[capacity];
      head := 0;
      count := 0;
      history := [];
    }

    /** `add_short_term_log_entry`. */
    method AddShortTermLogEntry(entry: ShortTermEntry)
      requires Valid()
      modifies this, log
      ensures Valid() && log == old(log)
      ensures State() == Append(old(State()), entry)
      ensures log[old(head)] == entry
      ensures forall i :: 0 <= i < capacity && i != old(head) ==> log[i] == old(log[i])
      ensures head == (old(head) + 1) % capacity
      ensures count == if old(count) < capacity then old(count) + 1 else capacity
      ensures history == old(history) + [entry]
    {
      ghost var before := State();
      log[head] := entry;
      head := (head + 1) % capacity;
      if count < capacity {
        count := count + 1;
      }
      history := history + [entry];
      assert State() == Append(before, entry);
      AppendContents(before, entry);
      assert Newest(history, capacity) == (if before.count < capacity then Newest(old(history), capacity)
                                            else Newest(old(history), capacity)[1..]) + [entry];
    }

    /** `log_short_term_p1_data`: one entry whose timestamp, average demand
        and power usage are copied from the reading. */
    method LogShortTermP1Data(p1Data: P1Data)
      requires Valid()
      modifies this, log
      ensures Valid() && log == old(log)
      ensures var entry := ShortTermEntry(p1Data.msgTimestamp, p1Data.currentAvgDemand, p1Data.currentPowerUsage);
        && State() == Append(old(State()), entry)
        && history == old(history) + [entry]
    {
      var entry := ShortTermEntry(p1Data.msgTimestamp, p1Data.currentAvgDemand, p1Data.currentPowerUsage);
      AddShortTermLogEntry(entry);
    }

    /** `logger_get_short_term_log_items`: copies the newest
        `Min(maxItems, count)` entries, oldest first, into `dest` and returns
        how many were copied. */
    method GetShortTermLogItems(dest: array<ShortTermEntry>, maxItems: nat) returns (n: nat)
      requires Valid()
      requires maxItems <= dest.Length && dest != log
      modifies dest
      ensures n == Min(maxItems, count)
      ensures dest[..n] == ReadItems(State(), maxItems)
      ensures dest[..n] == history[|history| - n..]
      ensures dest[n..] == old(dest[n..])
    {
      n := maxItems;
      if n > count {
        n := count;
      }
      var tail := (capacity + head - n) % capacity;
      var i := 0;
      while i < n
        invariant 0 <= i <= n
        invariant forall k :: 0 <= k < i ==> dest[k] == log[(tail + k) % capacity]
        invariant dest[n..] == old(dest[n..])
      {
        dest[i] := log[(tail + i) % capacity];
        i := i + 1;
      }
      ghost var r := State();
      assert dest[..n] == SlotsFrom(r.slots, tail, n);
      ReadItemsNewest(r, history, maxItems);
    }
  }
}

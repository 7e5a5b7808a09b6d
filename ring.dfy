/**
 * The ring: a fixed number of slots and a write counter. Write number `p`
 * (counting from 0) lands in slot `p % capacity`; a read of position `p`
 * returns that slot only while `p` lies in the visibility window.
 */
module Rings {
  import opened Wrappers
  import opened Positions

  /** An event, reduced to what the model needs of it: its timestamp's seconds. */
  datatype Event = Event(seconds: int)

  /**
   * What position `p` reads as after the writes `h` into a ring of `c` slots:
   * the event written at `p` when `p` is visible, and absent otherwise.
   */
  function HistoryRead(h: seq<Event>, c: nat, p: nat): Option<Event> {
    if Visible(|h|, c, p) then Some(h[p]) else None
  }

  /** The newest write is staged: it is withheld from every reader. */
  lemma NewestIsWithheld(h: seq<Event>, c: nat)
    requires |h| >= 1
    ensures HistoryRead(h, c, |h| - 1) == None
  {
  }

  /** The next write publishes the staged one (given at least two slots). */
  lemma NextWritePublishes(h: seq<Event>, e: Event, c: nat)
    requires |h| >= 1 && c >= 2
    ensures HistoryRead(h + [e], c, |h| - 1) == Some(h[|h| - 1])
  {
  }

  /** Once evicted, a position stays absent whatever is written afterwards. */
  lemma EvictionIsPermanent(h: seq<Event>, more: seq<Event>, c: nat, p: nat)
    requires p < |h| - c
    ensures HistoryRead(h + more, c, p) == None
  {
  }

  /** One more write advances the wrapped counter by one unsigned step. */
  lemma CounterStep(n: nat)
    ensures (n + 1) % U64_LIMIT == Inc(n % U64_LIMIT)
  {
  }

  /** A multiple of a positive `c` is either at most 0 or at least `c`. */
  lemma MultipleBounds(d: int, c: int)
    requires c > 0
    ensures d <= 0 ==> d * c <= 0
    ensures d >= 1 ==> d * c >= c
  {
  }

  /** Positions exactly `c` apart share a slot: write `n` reuses the slot of position `n - c`. */
  lemma ReusedSlot(n: nat, c: nat)
    requires 0 < c <= n
    ensures n % c == (n - c) % c
  {
    var q, r := n / c, n % c;
    var q', r' := (n - c) / c, (n - c) % c;
    assert n == q * c + r;
    assert n - c == q' * c + r';
    var d := q - q';
    assert d * c == q * c - q' * c;
    assert d * c == (d - 1) * c + c;
    MultipleBounds(d, c);
    MultipleBounds(d - 1, c);
  }

  /** Positions less than `c` apart use different slots. */
  lemma DistinctSlots(i: nat, j: nat, c: nat)
    requires 0 < c && i < j < i + c
    ensures i % c != j % c
  {
    var qi, qj := i / c, j / c;
    assert i == qi * c + i % c;
    assert j == qj * c + j % c;
    MultipleBounds(qj - qi, c);
    assert (qj - qi) * c == qj * c - qi * c;
  }

  /**
   * Slot contents `s` hold the writes `h` into `c` slots: every position
   * still in the retention window is found in its slot `p % c`.
   */
  ghost predicate Stores(s: seq<Option<Event>>, h: seq<Event>, c: nat)
    requires 0 < c && |s| == c
  {
    forall i :: Max(0, |h| - c) <= i < |h| ==> s[i % c] == Some(h[i])
  }

  /** Storing the next write in slot `|h| % c` keeps the window in its slots. */
  lemma StoresAfterWrite(s: seq<Option<Event>>, h: seq<Event>, c: nat, e: Event)
    requires 0 < c && |s| == c && Stores(s, h, c)
    ensures Stores(s[|h| % c := Some(e)], h + [e], c)
    ensures |h| >= c ==> s[|h| % c] == Some(h[|h| - c])
  {
    if |h| >= c {
      ReusedSlot(|h|, c);
    }
    var n := |h|;
    forall i | Max(0, n + 1 - c) <= i < n + 1
      ensures s[n % c := Some(e)][i % c] == Some((h + [e])[i])
    {
      if i < n {
        DistinctSlots(i, n, c);
      }
    }
  }

  class Ring {
    /** The number of slots, fixed at creation. */
    const capacity: nat
    /** The slot storage; slot `p % capacity` holds the event of position `p`. */
    const slots: array<Option<Event>>
    /** The write counter V: the position the next write takes. */
    var write: u64
    /** Every event ever written, oldest first. */
    ghost var history: seq<Event>

    /**
     * The counter is the number of writes, modulo 2^64. Until it wraps, each
     * position still in the retention window is found in its slot.
     */
    ghost predicate Valid()
      reads this, slots
    {
      0 < capacity && slots.Length == capacity &&
      write == |history| % U64_LIMIT &&
      (|history| < U64_LIMIT ==> Stores(slots[..], history, capacity))
    }

    /** A ring of `capacity` empty slots that has seen no writes. */
    constructor (capacity: nat)
      requires capacity >= 1
      ensures Valid() && fresh(slots)
      ensures this.capacity == capacity && write == 0 && history == []
      ensures forall i :: 0 <= i < capacity ==> slots[i] == None
    {
      this.capacity := capacity;
      slots := new Option<Event>[capacity](_ => None);
      write := 0;
      history := [];
    }

    /** Stores `e` at position `write`, in slot `write % capacity`, then advances the counter. */
    method Write(e: Event)
      requires Valid()
      modifies this, slots
      ensures Valid()
      ensures history == old(history) + [e]
      ensures write == Inc(old(write))
      ensures slots[..] == old(slots[..])[old(write) % capacity := Some(e)]
    {
      ghost var h0, s0 := history, slots[..];
      var k := write % capacity;
      slots[k] := Some(e);
      assert slots[..] == s0[k := Some(e)];
      CounterStep(|h0|);
      write := Inc(write);
      history := h0 + [e];
      if |history| < U64_LIMIT {
        assert k == |h0| % capacity;
        StoresAfterWrite(s0, h0, capacity, e);
      }
    }

    /**
     * The event at position `p`, or absent when `p` is not visible. Until the
     * 64-bit counter wraps, this is exactly the event written at `p`.
     */
    function Read(p: u64): (r: Option<Event>)
      reads this, slots
      requires Valid()
      ensures r.Some? ==> Visible(write, capacity, p)
      ensures |history| < U64_LIMIT ==> r == HistoryRead(history, capacity, p)
    {
      if Visible(write, capacity, p) then slots[p % capacity] else None
    }
  }
}

/**
 * The reader tests as verified scenarios: a ring of 15 slots receives
 * events stamped 0..14, then fresh readers on that same ring step
 * backward, forward and in follow mode from various starts.
 */
module RingReaderTest {
  import opened Wrappers
  import opened Positions
  import opened Rings
  import opened Readers

  /** The events written by the tests: event `i` carries timestamp `i`. */
  function Timestamps(n: nat): (h: seq<Event>)
    ensures |h| == n && forall i :: 0 <= i < n ==> h[i].seconds == i
  {
    seq(n, i => Event(i))
  }

  /** A present event with timestamp `s`. */
  function Stamp(s: int): Option<Event> {
    Some(Event(s))
  }

  /** Writes the events stamped 0, 1, ..., n - 1, in that order. */
  method WriteTimestamps(ring: Ring, n: nat)
    requires ring.Valid()
    modifies ring, ring.slots
    ensures ring.Valid()
    ensures ring.history == old(ring.history) + Timestamps(n)
  {
    var i := 0;
    while i < n
      invariant 0 <= i <= n
      invariant ring.Valid()
      invariant ring.history == old(ring.history) + Timestamps(i)
    {
      ring.Write(Event(i));
      assert Timestamps(i + 1) == Timestamps(i) + [Event(i)];
      i := i + 1;
    }
  }

  /** One subtest: a new reader at `start` on `ring`, then `count` Previous calls, collected. */
  method RunPrevious(ring: Ring, start: u64, count: nat) returns (got: seq<Option<Event>>)
    requires ring.Valid()
    ensures |ring.history| < U64_LIMIT ==> got == PreviousRun(ring.history, ring.capacity, start, count)
  {
    ghost var h, c := ring.history, ring.capacity;
    var reader := new RingReader(ring, start);
    got := [];
    var i := 0;
    while i < count
      invariant 0 <= i <= count
      invariant |h| < U64_LIMIT ==> got + PreviousRun(h, c, reader.cursor, count - i) == PreviousRun(h, c, start, count)
    {
      ghost var p := reader.cursor;
      var e := reader.Previous();
      if |h| < U64_LIMIT {
        PreviousRunStep(h, c, start, count, got, p, count - i);
      }
      got := got + [e];
      i := i + 1;
    }
  }

  /** One subtest: a new reader at `start` on `ring`, then `count` Next calls, collected. */
  method RunNext(ring: Ring, start: u64, count: nat) returns (got: seq<Option<Event>>)
    requires ring.Valid()
    ensures |ring.history| < U64_LIMIT ==> got == NextRun(ring.history, ring.capacity, start, count)
  {
    ghost var h, c := ring.history, ring.capacity;
    var reader := new RingReader(ring, start);
    got := [];
    var i := 0;
    while i < count
      invariant 0 <= i <= count
      invariant |h| < U64_LIMIT ==> got + NextRun(h, c, reader.cursor, count - i) == NextRun(h, c, start, count)
    {
      ghost var p := reader.cursor;
      var e := reader.Next();
      if |h| < U64_LIMIT {
        NextRunStep(h, c, start, count, got, p, count - i);
      }
      got := got + [e];
      i := i + 1;
    }
  }

  /**
   * One subtest: a new reader at `start` on `ring`, then `count` NextFollow
   * calls, each with a fresh short deadline; reports whether any deadline was
   * seen to have fired.
   */
  method RunNextFollow(ring: Ring, start: u64, count: nat) returns (got: seq<Option<Event>>, timedOut: bool)
    requires ring.Valid()
    ensures |ring.history| < U64_LIMIT ==> got == FollowRun(ring.history, ring.capacity, start, count)
    ensures |got| == count && timedOut == (None in got)
  {
    ghost var h, c := ring.history, ring.capacity;
    var reader := new RingReader(ring, start);
    got, timedOut := [], false;
    var i := 0;
    while i < count
      invariant 0 <= i <= count
      invariant |got| == i
      invariant timedOut == (None in got)
      invariant |h| < U64_LIMIT ==> got + FollowRun(h, c, reader.cursor, count - i) == FollowRun(h, c, start, count)
    {
      ghost var p := reader.cursor;
      var ctx := new Context.WithTimeout();
      var e := reader.NextFollow(ctx);
      if |h| < U64_LIMIT {
        FollowRunStep(h, c, start, count, got, p, count - i);
      }
      got := got + [e];
      if ctx.done {
        timedOut := true;
      }
      i := i + 1;
    }
  }

  /** What the full test ring reads as: positions 0..13 hold their events, everything else is absent. */
  lemma FullRingRead(p: nat)
    ensures HistoryRead(Timestamps(15), 15, p) == if p <= 13 then Stamp(p) else None
  {
  }

  /** Previous runs over the full test ring, one per case of the Previous test. */
  lemma FullRingPrevious()
    ensures PreviousRun(Timestamps(15), 15, 13, 1) == [Stamp(13)]
    ensures PreviousRun(Timestamps(15), 15, 13, 2) == [Stamp(13), Stamp(12)]
    ensures PreviousRun(Timestamps(15), 15, 5, 5) == [Stamp(5), Stamp(4), Stamp(3), Stamp(2), Stamp(1)]
    ensures PreviousRun(Timestamps(15), 15, 0, 1) == [Stamp(0)]
    ensures PreviousRun(Timestamps(15), 15, 0, 2) == [Stamp(0), None]
    ensures PreviousRun(Timestamps(15), 15, 14, 1) == [None]
  {
  }

  /** The cases of the Previous test, in table order. */
  method PreviousCases() returns (got: seq<seq<Option<Event>>>)
    ensures got == [
      [Stamp(13)],
      [Stamp(13), Stamp(12)],
      [Stamp(5), Stamp(4), Stamp(3), Stamp(2), Stamp(1)],
      [Stamp(0)],
      [Stamp(0), None],
      [None]]
  {
    var ring := new Ring(15);
    WriteTimestamps(ring, 15);
    var a := RunPrevious(ring, 13, 1);
    var b := RunPrevious(ring, 13, 2);
    var d := RunPrevious(ring, 5, 5);
    var e := RunPrevious(ring, 0, 1);
    var f := RunPrevious(ring, 0, 2);
    var g := RunPrevious(ring, 14, 1);
    got := [a, b, d, e, f, g];
    FullRingPrevious();
  }

  /** Next runs over the full test ring, one per case of the Next test. */
  lemma FullRingNext()
    ensures NextRun(Timestamps(15), 15, 0, 1) == [Stamp(0)]
    ensures NextRun(Timestamps(15), 15, 0, 2) == [Stamp(0), Stamp(1)]
    ensures NextRun(Timestamps(15), 15, 5, 5) == [Stamp(5), Stamp(6), Stamp(7), Stamp(8), Stamp(9)]
    ensures NextRun(Timestamps(15), 15, 13, 1) == [Stamp(13)]
    ensures NextRun(Timestamps(15), 15, 14, 1) == [None]
  {
  }

  /** The cases of the Next test, in table order. */
  method NextCases() returns (got: seq<seq<Option<Event>>>)
    ensures got == [
      [Stamp(0)],
      [Stamp(0), Stamp(1)],
      [Stamp(5), Stamp(6), Stamp(7), Stamp(8), Stamp(9)],
      [Stamp(13)],
      [None]]
  {
    var ring := new Ring(15);
    WriteTimestamps(ring, 15);
    var a := RunNext(ring, 0, 1);
    var b := RunNext(ring, 0, 2);
    var d := RunNext(ring, 5, 5);
    var e := RunNext(ring, 13, 1);
    var f := RunNext(ring, 14, 1);
    got := [a, b, d, e, f];
    FullRingNext();
  }

  /**
   * NextFollow runs over the full test ring, one per case of the NextFollow
   * test: from visible positions they advance like Next runs, and at the
   * staged position 14 the single attempt reads absent.
   */
  lemma FullRingFollow()
    ensures FollowRun(Timestamps(15), 15, 0, 1) == [Stamp(0)]
    ensures FollowRun(Timestamps(15), 15, 0, 2) == [Stamp(0), Stamp(1)]
    ensures FollowRun(Timestamps(15), 15, 5, 5) == [Stamp(5), Stamp(6), Stamp(7), Stamp(8), Stamp(9)]
    ensures FollowRun(Timestamps(15), 15, 13, 1) == [Stamp(13)]
    ensures FollowRun(Timestamps(15), 15, 14, 1) == [None]
  {
  }

  /** The cases of the NextFollow test, in table order, each with whether a deadline fired. */
  method NextFollowCases() returns (got: seq<seq<Option<Event>>>, timedOut: seq<bool>)
    ensures got == [
      [Stamp(0)],
      [Stamp(0), Stamp(1)],
      [Stamp(5), Stamp(6), Stamp(7), Stamp(8), Stamp(9)],
      [Stamp(13)],
      [None]]
    ensures timedOut == [false, false, false, false, true]
  {
    var ring := new Ring(15);
    WriteTimestamps(ring, 15);
    var a, ta := RunNextFollow(ring, 0, 1);
    var b, tb := RunNextFollow(ring, 0, 2);
    var d, td := RunNextFollow(ring, 5, 5);
    var e, te := RunNextFollow(ring, 13, 1);
    var f, tf := RunNextFollow(ring, 14, 1);
    FullRingFollow();
    assert a == [Stamp(0)] && b == [Stamp(0), Stamp(1)] && e == [Stamp(13)] && f == [None];
    assert d == [Stamp(5), Stamp(6), Stamp(7), Stamp(8), Stamp(9)];
    assert None !in d;
    got := [a, b, d, e, f];
    timedOut := [ta, tb, td, te, tf];
  }
}

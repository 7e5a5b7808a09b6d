/**
 * Readers: independent cursors over one ring. Each operation reads the ring
 * at the cursor and changes only the reader's own cursor.
 */
module Readers {
  import opened Wrappers
  import opened Positions
  import opened Rings

  /**
   * A cancellation signal. `done` is what a caller sees by polling the
   * context's Done channel after a call returns.
   */
  class Context {
    var done: bool

    /** A deadline that has not yet passed. */
    constructor WithTimeout()
      ensures !done
    {
      done := false;
    }
  }

  class RingReader {
    /** The ring read from; shared with the writer and with other readers. */
    const ring: Ring
    /** The position the next operation examines. */
    var cursor: u64

    /** A reader whose cursor starts at `start`; any start is accepted. */
    constructor (ring: Ring, start: u64)
      ensures this.ring == ring && cursor == start
    {
      this.ring := ring;
      cursor := start;
    }

    /** Reads at the cursor, then steps the cursor back one position (wrapping below 0). */
    method Previous() returns (e: Option<Event>)
      requires ring.Valid()
      modifies this
      ensures e == ring.Read(old(cursor))
      ensures cursor == Dec(old(cursor))
    {
      e := ring.Read(cursor);
      cursor := Dec(cursor);
    }

    /** Reads at the cursor, then steps the cursor forward one position. */
    method Next() returns (e: Option<Event>)
      requires ring.Valid()
      modifies this
      ensures e == ring.Read(old(cursor))
      ensures cursor == Inc(old(cursor))
    {
      e := ring.Read(cursor);
      cursor := Inc(cursor);
    }

    /**
     * Returns the event at the cursor and advances, when it is visible.
     * Otherwise it waits; with no writer running during the call, the
     * wait ends only when `ctx` fires, and then it returns absent and
     * leaves the cursor where it was.
     */
    method NextFollow(ctx: Context) returns (e: Option<Event>)
      requires ring.Valid()
      modifies this, ctx
      ensures e == ring.Read(old(cursor))
      ensures cursor == if e.Some? then Inc(old(cursor)) else old(cursor)
      ensures ctx.done == (old(ctx.done) || e.None?)
    {
      e := ring.Read(cursor);
      if e.Some? {
        cursor := Inc(cursor);
      } else {
        ctx.done := true;
      }
    }
  }

  /** What `count` successive Previous calls from `start` return, over the writes `h`. */
  function PreviousRun(h: seq<Event>, c: nat, start: u64, count: nat): seq<Option<Event>>
    decreases count
  {
    if count == 0 then [] else [HistoryRead(h, c, start)] + PreviousRun(h, c, Dec(start), count - 1)
  }

  /** What `count` successive Next calls from `start` return. */
  function NextRun(h: seq<Event>, c: nat, start: u64, count: nat): seq<Option<Event>>
    decreases count
  {
    if count == 0 then [] else [HistoryRead(h, c, start)] + NextRun(h, c, Inc(start), count - 1)
  }

  /** What `count` successive NextFollow calls from `start` return when no write comes in between. */
  function FollowRun(h: seq<Event>, c: nat, start: u64, count: nat): seq<Option<Event>>
    decreases count
  {
    if count == 0 then []
    else if HistoryRead(h, c, start).Some? then [HistoryRead(h, c, start)] + FollowRun(h, c, Inc(start), count - 1)
    else [None] + FollowRun(h, c, start, count - 1)
  }

  /** One more Previous call extends a partial run of Previous calls. */
  lemma PreviousRunStep(h: seq<Event>, c: nat, start: u64, count: nat, got: seq<Option<Event>>, p: u64, n: nat)
    requires n > 0 && got + PreviousRun(h, c, p, n) == PreviousRun(h, c, start, count)
    ensures got + [HistoryRead(h, c, p)] + PreviousRun(h, c, Dec(p), n - 1) == PreviousRun(h, c, start, count)
  {
  }

  /** One more Next call extends a partial run of Next calls. */
  lemma NextRunStep(h: seq<Event>, c: nat, start: u64, count: nat, got: seq<Option<Event>>, p: u64, n: nat)
    requires n > 0 && got + NextRun(h, c, p, n) == NextRun(h, c, start, count)
    ensures got + [HistoryRead(h, c, p)] + NextRun(h, c, Inc(p), n - 1) == NextRun(h, c, start, count)
  {
  }

  /**
   * One more NextFollow call extends a partial run: if `got` followed by the
   * run from `p` is the whole run, so is `got` plus the read at `p` followed
   * by the run from where the cursor goes next.
   */
  lemma FollowRunStep(h: seq<Event>, c: nat, start: u64, count: nat, got: seq<Option<Event>>, p: u64, n: nat)
    requires n > 0 && got + FollowRun(h, c, p, n) == FollowRun(h, c, start, count)
    ensures got + [HistoryRead(h, c, p)]
      + FollowRun(h, c, if HistoryRead(h, c, p).Some? then Inc(p) else p, n - 1)
      == FollowRun(h, c, start, count)
  {
  }

  /** The k-th Previous call reads position `start - k`, taken modulo 2^64. */
  lemma {:induction false} PreviousRunAt(h: seq<Event>, c: nat, start: u64, count: nat, k: nat)
    requires k < count
    ensures |PreviousRun(h, c, start, count)| == count
    ensures PreviousRun(h, c, start, count)[k] == HistoryRead(h, c, Backward(start, k))
    decreases count
  {
    if k == 0 {
      PreviousRunLength(h, c, Dec(start), count - 1);
    } else {
      PreviousRunAt(h, c, Dec(start), count - 1, k - 1);
      BackwardStep(start, k - 1);
    }
  }

  lemma {:induction false} PreviousRunLength(h: seq<Event>, c: nat, start: u64, count: nat)
    ensures |PreviousRun(h, c, start, count)| == count
    decreases count
  {
    if count > 0 {
      PreviousRunLength(h, c, Dec(start), count - 1);
    }
  }

  /**
   * Stepping back from `start` reads `start`, `start - 1`, ..., down to 0,
   * and after the cursor underflows it reads absent, for as long as the
   * wrapped positions lie beyond everything written.
   */
  lemma PreviousRunUnderflow(h: seq<Event>, c: nat, start: u64, count: nat, k: nat)
    requires start < k < count
    requires k - start + |h| <= U64_LIMIT
    ensures |PreviousRun(h, c, start, count)| == count
    ensures PreviousRun(h, c, start, count)[k] == None
  {
    PreviousRunAt(h, c, start, count, k);
  }

  /** The k-th Next call reads position `start + k`, taken modulo 2^64. */
  lemma {:induction false} NextRunAt(h: seq<Event>, c: nat, start: u64, count: nat, k: nat)
    requires k < count
    ensures |NextRun(h, c, start, count)| == count
    ensures NextRun(h, c, start, count)[k] == HistoryRead(h, c, Forward(start, k))
    decreases count
  {
    if k == 0 {
      NextRunLength(h, c, Inc(start), count - 1);
    } else {
      NextRunAt(h, c, Inc(start), count - 1, k - 1);
      ForwardStep(start, k - 1);
    }
  }

  lemma {:induction false} NextRunLength(h: seq<Event>, c: nat, start: u64, count: nat)
    ensures |NextRun(h, c, start, count)| == count
    decreases count
  {
    if count > 0 {
      NextRunLength(h, c, Inc(start), count - 1);
    }
  }

  /**
   * While every position it reaches is visible, NextFollow returns exactly
   * what Next would, without waiting.
   */
  lemma {:induction false} FollowMatchesNext(h: seq<Event>, c: nat, start: u64, count: nat)
    requires forall k :: 0 <= k < count ==> HistoryRead(h, c, Forward(start, k)).Some?
    ensures FollowRun(h, c, start, count) == NextRun(h, c, start, count)
    decreases count
  {
    if count > 0 {
      assert HistoryRead(h, c, Forward(start, 0)).Some?;
      forall k | 0 <= k < count - 1
        ensures HistoryRead(h, c, Forward(Inc(start), k)).Some?
      {
        ForwardStep(start, k);
      }
      FollowMatchesNext(h, c, Inc(start), count - 1);
    }
  }

  /**
   * At a position that is not visible, retried NextFollow calls keep the
   * cursor and return absent every time: no position is skipped.
   */
  lemma {:induction false} FollowStalls(h: seq<Event>, c: nat, start: u64, count: nat)
    requires HistoryRead(h, c, start) == None
    ensures FollowRun(h, c, start, count) == seq(count, _ => None)
    decreases count
  {
    if count > 0 {
      FollowStalls(h, c, start, count - 1);
    }
  }

  /** A sequence of results is what Previous calls from `start` return iff its entries are the reads of the positions `start`, `start - 1`, ... */
  lemma PreviousRunIs(h: seq<Event>, c: nat, start: u64, want: seq<Option<Event>>)
    ensures PreviousRun(h, c, start, |want|) == want
      <==> forall k :: 0 <= k < |want| ==> want[k] == HistoryRead(h, c, Backward(start, k))
  {
    PreviousRunLength(h, c, start, |want|);
    forall k | 0 <= k < |want|
      ensures PreviousRun(h, c, start, |want|)[k] == HistoryRead(h, c, Backward(start, k))
    {
      PreviousRunAt(h, c, start, |want|, k);
    }
  }


  /** A sequence of results is what Next calls from `start` return iff its entries are the reads of the positions `start`, `start + 1`, ... */
  lemma NextRunIs(h: seq<Event>, c: nat, start: u64, want: seq<Option<Event>>)
    ensures NextRun(h, c, start, |want|) == want
      <==> forall k :: 0 <= k < |want| ==> want[k] == HistoryRead(h, c, Forward(start, k))
  {
    NextRunLength(h, c, start, |want|);
    forall k | 0 <= k < |want|
      ensures NextRun(h, c, start, |want|)[k] == HistoryRead(h, c, Forward(start, k))
    {
      NextRunAt(h, c, start, |want|, k);
    }
  }

}

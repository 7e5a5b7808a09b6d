# Ring buffer and ring readers (Hubble `pkg/container`)

This project models Hubble's event ring and its readers.

The **ring** is a fixed-capacity circular buffer of observability events. It
has `capacity` slots and a 64-bit write counter `V`. A write stores its event
in slot `V mod capacity` and then increments `V`. A **reader** is a private
cursor over one ring:

- `Previous` reads at the cursor, then moves the cursor back by one.
- `Next` reads at the cursor, then moves it forward by one.
- `NextFollow` returns the event at the cursor when it is visible and then
  advances. Otherwise it waits for a write or for its context to be cancelled.

Position `p` is *visible* when all three of these hold:

- `V >= 2`.
- `p <= V - 2`. The newest write is "staged" and withheld from readers until
  the next write publishes it.
- `p >= V - capacity`. Otherwise the slot has been reused.

Any read outside the window returns the absent value (`None`, Go's `nil`).
That covers four cases: a position not yet written, the staged position, an
evicted position, and a cursor that has wrapped below 0.

Files:

- `positions.dfy`: unsigned 64-bit positions, wrapping step functions and the
  visibility window.
- `ring.dfy`: the `Ring` class (slot array, counter, ghost history of all
  writes) and the pure `HistoryRead`, which says what each position must read
  as.
- `ring_reader.dfy`: the `RingReader` and `Context` classes, the pure
  `PreviousRun`/`NextRun`/`FollowRun` functions, which give the results of
  repeated calls, and lemmas about those functions.
- `ring_reader_test.dfy`: the three reader tests of
  `pkg/container/ring_reader_test.go`. Each test function is a method whose
  postcondition is the test's expected table.

Readers are independent by construction. `Previous`, `Next` and `NextFollow`
declare `modifies` only for the reader itself (and, for `NextFollow`, its
context). So no read changes the ring or any other reader. The test methods
create a fresh reader per case on one shared ring, and every case is proved
to get its expected result.

`Ring` and `RingReader` are modelled from their documented behaviour and from
the cases in `pkg/container/ring_reader_test.go`. The bodies of
`pkg/container/ring.go` and `pkg/container/ring_reader.go` are not followed
line by line.

The test cases pin down only part of the visibility rule. Every test writes 15
events into a ring of 15 slots, so `V = 15` and `V - C = 0`. The tests fix
three things: positions 0-9, 12 and 13 read as their own events (10 and 11 follow from the window being contiguous), position 14 (the
newest write) is withheld, and stepping below position 0 reads absent. Three
parts of the rule come from the ring's design and are not exercised by any
test: the lower bound `p >= V - C` (eviction, and so
`Rings.EvictionIsPermanent`), the clause `V >= 2`, and the wrap of the write
counter.

Under this rule a ring of capacity 1 never returns an event. The window
`max(0, V - 1) <= p <= V - 2` is empty for every `V`, which follows from the
contract of `Positions.Visible`. This is also why `Rings.NextWritePublishes`
requires at least two slots.

## Model

| member | source | states |
|---|---|---|
| Positions.Inc | pkg/container/ring_reader_test.go:111-127 | Next's cursor step is unsigned `p + 1` modulo 2^64 |
| Positions.Dec | pkg/container/ring_reader_test.go:62-74 | Previous's cursor step is unsigned `p - 1` modulo 2^64, so stepping back from 0 gives 2^64 - 1 |
| Positions.StepsAreInverse | pkg/container/ring_reader_test.go:84-88 | a backward and a forward cursor step undo each other, across the wrap as well |
| Positions.Visible | pkg/container/ring_reader_test.go:75-79 | the guarded unsigned check holds exactly when `V >= 2` and `max(0, V - C) <= p <= V - 2`, and a visible position has been written |
| Rings.NewestIsWithheld | pkg/container/ring_reader_test.go:75-79 | the most recent write always reads as absent |
| Rings.NextWritePublishes | pkg/container/ring_reader_test.go:39-44 | one further write makes the previously staged event readable, with its own value |
| Rings.EvictionIsPermanent | pkg/container/ring_reader_test.go:30 | a position more than `C` writes behind the counter reads as absent whatever is written later; this follows from the ring's design, since the tests never evict |
| Rings.StoresAfterWrite | pkg/container/ring_reader_test.go:31-33 | storing the next event in slot `V mod C` keeps every position of the retention window in its own slot; once the ring is full, the slot overwritten is the one holding the event at position `V - C`, which falls out of the window |
| Rings.Ring.constructor | pkg/container/ring_reader_test.go:30 | `NewRing(C)` for `C >= 1`: `C` empty slots, counter 0, nothing written |
| Rings.Ring.Write | pkg/container/ring_reader_test.go:31-33 | stores the event in slot `V mod C` and nowhere else, increments the 64-bit counter with wrap, appends the event to the history, and keeps the slot/history invariant |
| Rings.Ring.Read | pkg/container/ring_reader_test.go:39-79 | a present result only at a visible position; until the counter wraps, the result is exactly the event written at that position when visible, absent otherwise |
| Readers.Context.WithTimeout | pkg/container/ring_reader_test.go:208 | a fresh deadline that has not fired |
| Readers.RingReader.constructor | pkg/container/ring_reader_test.go:84 | `NewRingReader(ring, start)` places the cursor at `start` with no validation |
| Readers.RingReader.Previous | pkg/container/ring_reader_test.go:86-88 | returns the ring's read at the old cursor, moves the cursor back one (unsigned), and changes nothing but the cursor |
| Readers.RingReader.Next | pkg/container/ring_reader_test.go:145-147 | returns the ring's read at the old cursor, moves the cursor forward one, and changes nothing but the cursor |
| Readers.RingReader.NextFollow | pkg/container/ring_reader_test.go:207-216 | returns the ring's read at the cursor; advances only when the event is present; otherwise leaves the cursor and the context is observed as done |
| Readers.PreviousRunAt | pkg/container/ring_reader_test.go:45-61 | the k-th of `n` Previous calls from `start` returns the read of position `start - k` (mod 2^64) |
| Readers.PreviousRunUnderflow | pkg/container/ring_reader_test.go:62-74 | once stepping back passes position 0, Previous calls return absent |
| Readers.PreviousRunIs | pkg/container/ring_reader_test.go:81-90 | a list of results is what Previous calls from `start` return if and only if each entry `k` is the read of `start - k` |
| Readers.NextRunAt | pkg/container/ring_reader_test.go:111-127 | the k-th of `n` Next calls from `start` returns the read of position `start + k` (mod 2^64) |
| Readers.NextRunIs | pkg/container/ring_reader_test.go:140-149 | a list of results is what Next calls from `start` return if and only if each entry `k` is the read of `start + k` |
| Readers.FollowMatchesNext | pkg/container/ring_reader_test.go:165-193 | while every position reached is visible, NextFollow calls return exactly what Next calls would |
| Readers.FollowStalls | pkg/container/ring_reader_test.go:194-199 | at a position that is not visible, every retried NextFollow returns absent and the cursor never moves past it |
| RingReaderTest.WriteTimestamps | pkg/container/ring_reader_test.go:31-33 | the write loop appends the events stamped 0..n-1 in order to the ring's history |
| RingReaderTest.RunPrevious | pkg/container/ring_reader_test.go:83-90 | a fresh reader at `start` collects exactly the Previous run from `start` (for fewer than 2^64 writes) |
| RingReaderTest.RunNext | pkg/container/ring_reader_test.go:142-149 | a fresh reader at `start` collects exactly the Next run from `start` (for fewer than 2^64 writes) |
| RingReaderTest.RunNextFollow | pkg/container/ring_reader_test.go:203-219 | a fresh reader collects exactly the NextFollow run (for fewer than 2^64 writes), and reports a timeout exactly when some call returned absent |
| RingReaderTest.FullRingRead | pkg/container/ring_reader_test.go:30-33 | after 15 writes into 15 slots, positions 0..13 read as their own events and every other position, 14 included, is absent |
| RingReaderTest.FullRingPrevious | pkg/container/ring_reader_test.go:39-80 | the six Previous runs of the test table have the expected results |
| RingReaderTest.PreviousCases | pkg/container/ring_reader_test.go:29-92 | the Previous test's observed results equal its table: [13], [13, 12], [5..1], [0], [0, nil], [nil] |
| RingReaderTest.FullRingNext | pkg/container/ring_reader_test.go:105-139 | the five Next runs of the test table have the expected results |
| RingReaderTest.NextCases | pkg/container/ring_reader_test.go:94-151 | the Next test's observed results equal its table: [0], [0, 1], [5..9], [13], [nil] |
| RingReaderTest.FullRingFollow | pkg/container/ring_reader_test.go:165-200 | the five NextFollow runs of the test table have the expected results |
| RingReaderTest.NextFollowCases | pkg/container/ring_reader_test.go:153-221 | the NextFollow test's results equal its table, and only the case at position 14 times out |

## Left out

- The ring's mutex, its wake-up broadcast to blocked followers, and running readers in parallel with each other or with the writer. The model is sequential.
- Readers.RingReader.NextFollow: one non-blocking attempt. In a sequential model no write can land during the wait, so a wait at a position that is not visible always ends when the context fires. The loop that re-checks after a wake-up caused by a write is not modelled.
- Context deadlines and the 1 ms timeout are not modelled. A context is only its `done` flag, and NextFollow sets that flag when it would have waited.
- The event payload (the protobuf event and its timestamp structure) is reduced to the timestamp's seconds.
- Rings.Ring.Read: equals the event written at the position only while fewer than 2^64 writes have happened. After the 64-bit counter wraps, plain `mod C` slot addressing no longer lines up with positions. Any power-of-two or mask-based sizing of the real implementation is not visible here and is not modelled.
- RingReaderTest.RunPrevious: its result is tied to the run function only for fewer than 2^64 writes, the same bound as Ring.Read.
- RingReaderTest.RunNext: its result is tied to the run function only for fewer than 2^64 writes, the same bound as Ring.Read.
- RingReaderTest.RunNextFollow: its result is tied to the run function only for fewer than 2^64 writes, the same bound as Ring.Read.
- Readers.PreviousRunUnderflow: states absence only while the wrapped positions stay beyond everything written. That holds for fewer than 2^64 writes, the same bound as Ring.Read.
- `Previous` and `Next` always move their cursor, even after returning absent. The tests only observe a step after a present read. Stepping after an absent read is never exercised; always stepping is this model's choice.

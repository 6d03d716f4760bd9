/** The status history of an intersection: a 64-entry ring over the log of everything recorded. */
module StatusHistory {

  const STATUS_HISTORY_SIZE := 64

  /** A status report and the sequence number that tells whether anything changed. */
  datatype Status = Status(sequence: nat, content: int)

  datatype Event = Event(id: nat, status: Status)

  const NoEvent: Event := Event(0, Status(0, 0))

  /** The event a reader at `delivered` gets from a log whose n-th event has id base + n + 1: the first one
      after it that is retained, or the latest when there is none or the reader starts afresh. */
  function NextIndex(base: nat, length: nat, delivered: nat): (k: nat)
    requires length > 0
    ensures k < length && k + STATUS_HISTORY_SIZE >= length
  {
    var oldest := if length <= STATUS_HISTORY_SIZE then 0 else length - STATUS_HISTORY_SIZE;
    if delivered == 0 || delivered >= base + length then length - 1
    else if delivered < base + oldest then oldest
    else delivered - base
  }

  class History {
    const ring: array<Event>
    var next: nat
    var eventId: nat
    ghost var base: nat
    ghost var log: seq<Status>

    /** Slot s holds the youngest event whose number is s modulo the size. */
    ghost predicate Valid()
      reads this, ring
    {
      && ring.Length == STATUS_HISTORY_SIZE
      && (log == [] <==> eventId == 0)
      && (log != [] ==> eventId == base + |log|)
      && next == |log| % STATUS_HISTORY_SIZE
      && Holds(|log|)
    }

    /** The ring holds the last 64 of n events, and nothing else. */
    ghost predicate Holds(n: nat)
      requires ring.Length == STATUS_HISTORY_SIZE && n <= |log|
      reads this, ring
    {
      && (forall k :: 0 <= k < n && k + STATUS_HISTORY_SIZE >= n ==>
            ring[k % STATUS_HISTORY_SIZE] == Event(base + k + 1, log[k]))
      && (forall s :: n <= s < STATUS_HISTORY_SIZE ==> ring[s] == NoEvent)
    }

    constructor ()
      ensures Valid() && log == [] && fresh(ring)
    {
      ring := new Event[STATUS_HISTORY_SIZE](_ => NoEvent);
      next, eventId, base, log := 0, 0, 0, [];
    }

    /** Appends the current status, unless nothing has changed since the latest one. The first event takes
        its number from the clock. */
    method Record(status: Status, now: nat)
      requires Valid()
      modifies this, ring
      ensures Valid()
      ensures log == if old(log) != [] && old(log)[|old(log)| - 1].sequence == status.sequence
                     then old(log) else old(log) + [status]
      ensures if old(log) == [] then base == now && eventId == now + 1 else base == old(base)
    {
      var latest := (next + STATUS_HISTORY_SIZE - 1) % STATUS_HISTORY_SIZE;
      if log != [] {
        LatestSlot(|log|);
      }
      if eventId != 0 && ring[latest].status.sequence == status.sequence {
        return;
      }
      if eventId == 0 {
        eventId := now;
        base := now;
      }
      Append(status);
    }

    /** Writes the next event over the oldest one. */
    method Append(status: Status)
      requires ring.Length == STATUS_HISTORY_SIZE && next == |log| % STATUS_HISTORY_SIZE && eventId == base + |log|
      requires Holds(|log|)
      modifies this`eventId, this`next, this`log, ring
      ensures Valid() && log == old(log) + [status]
    {
      ghost var n := |log|;
      eventId := eventId + 1;
      ring[next] := Event(eventId, status);
      forall k | 0 <= k < n && k + STATUS_HISTORY_SIZE >= n + 1
        ensures k % STATUS_HISTORY_SIZE != n % STATUS_HISTORY_SIZE
      {
        OtherSlot(k, n);
      }
      log := log + [status];
      next := (next + 1) % STATUS_HISTORY_SIZE;
    }

    /** The k-th status of the log is one of the last 64. */
    ghost predicate Retained(k: int)
      reads this
    {
      0 <= k < |log| && k + 64 >= |log|
    }

    /** The k-th event of the log, with its number. */
    ghost predicate IsEvent(k: int, event: Event)
      reads this
    {
      0 <= k < |log| && event.id == base + k + 1 && event.status == log[k]
    }

    /** Scans all slots for the smallest event number above the one delivered. */
    method Scan(delivered: nat) returns (event: Event, ghost k: nat)
      requires Valid() && log != []
      ensures Retained(k) && IsEvent(k, event) && (k == |log| - 1 || delivered < event.id)
      ensures forall j :: Retained(j) && base + j + 1 > delivered ==> k <= j
    {
      ghost var n := |log|;
      LatestSlot(n);
      event := ring[(next + STATUS_HISTORY_SIZE - 1) % STATUS_HISTORY_SIZE];
      k := n - 1;
      var i := 0;
      while i < STATUS_HISTORY_SIZE
        invariant i <= STATUS_HISTORY_SIZE && Retained(k) && IsEvent(k, event)
        invariant k == n - 1 || delivered < event.id
        invariant forall j :: Retained(j) && j % STATUS_HISTORY_SIZE < i && base + j + 1 > delivered ==> k <= j
      {
        ghost var j := Holder(n, i);
        SlotHolder(n, i);
        if ring[i].id > delivered && ring[i].id < event.id {
          event := ring[i];
          k := j;
        }
        i := i + 1;
      }
    }

    /** A reader that starts gets the latest event. Any other gets the retained one of smallest number above what
        it was delivered, or the latest if there is none. */
    method NextEvent(delivered: nat) returns (event: Event)
      requires Valid() && log != []
      ensures delivered == 0 ==> IsEvent(|log| - 1, event)
      ensures delivered != 0 && (forall j :: Retained(j) ==> base + j + 1 <= delivered) ==> IsEvent(|log| - 1, event)
      ensures delivered != 0 && (exists j :: Retained(j) && base + j + 1 > delivered) ==>
                && event.id > delivered && (exists k :: Retained(k) && IsEvent(k, event))
                && (forall j :: Retained(j) && base + j + 1 > delivered ==> event.id <= base + j + 1)
      ensures IsEvent(NextIndex(base, |log|, delivered), event)
    {
      if delivered == 0 {
        LatestSlot(|log|);
        event := ring[(next + STATUS_HISTORY_SIZE - 1) % STATUS_HISTORY_SIZE];
      } else {
        ghost var k;
        event, k := Scan(delivered);
        assert Retained(NextIndex(base, |log|, delivered));
      }
    }
  }

  /** The event number in slot s of a ring over n events; n when the slot is empty. */
  ghost function Holder(n: nat, s: nat): nat
    requires s < STATUS_HISTORY_SIZE
  {
    if s >= n then n
    else
      var r := n % STATUS_HISTORY_SIZE;
      if s < r then n - r + s else n - r - STATUS_HISTORY_SIZE + s
  }

  lemma SlotHolder(n: nat, s: nat)
    requires s < STATUS_HISTORY_SIZE
    ensures s < n ==> 0 <= Holder(n, s) < n && Holder(n, s) + STATUS_HISTORY_SIZE >= n
                      && Holder(n, s) % STATUS_HISTORY_SIZE == s
    ensures forall j :: 0 <= j < n && j + STATUS_HISTORY_SIZE >= n && j % STATUS_HISTORY_SIZE == s ==> j == Holder(n, s)
  {
  }

  lemma LatestSlot(n: nat)
    requires n > 0
    ensures (n % STATUS_HISTORY_SIZE + STATUS_HISTORY_SIZE - 1) % STATUS_HISTORY_SIZE == (n - 1) % STATUS_HISTORY_SIZE
  {
  }

  lemma OtherSlot(k: nat, n: nat)
    requires k < n < k + STATUS_HISTORY_SIZE
    ensures k % STATUS_HISTORY_SIZE != n % STATUS_HISTORY_SIZE
  {
  }

  // ----- readers -----

  /** A reader that lags by no more than 64 events gets the very next one, and one that lags more gets the
      oldest that is retained: it skips only events that were overwritten. */
  lemma ReaderGetsTheNext(base: nat, length: nat, delivered: nat)
    requires 0 < length && base <= delivered < base + length && delivered > 0
    ensures var k := NextIndex(base, length, delivered);
            k == if delivered + STATUS_HISTORY_SIZE >= base + length then delivered - base else length - STATUS_HISTORY_SIZE
  {
  }

  /** A reader that starts gets the latest event, and so does one that has it or a later one; a reader from before
      the first event gets the oldest retained. */
  lemma OtherReaders(base: nat, length: nat, delivered: nat)
    requires 0 < length
    ensures delivered == 0 || delivered >= base + length ==> NextIndex(base, length, delivered) == length - 1
    ensures 0 < delivered < base ==> NextIndex(base, length, delivered) == if length <= 64 then 0 else length - 64
  {
  }

  /** Recording and reading in any order. `got` are the numbers of the events received, without
      repetitions; `close` tells that the reader never lagged by more than 64 events when it read. */
  datatype Feed = Feed(length: nat, got: seq<nat>, close: bool)

  datatype Step = Write | Read

  function Apply(f: Feed, base: nat, s: Step): Feed {
    if s.Write? then f.(length := f.length + 1)
    else if f.length == 0 then f
    else if f.got == [] then f.(got := [NextIndex(base, f.length, 0)])
    else
      var last := f.got[|f.got| - 1];
      var k := NextIndex(base, f.length, base + last + 1);
      f.(got := if k == last then f.got else f.got + [k], close := f.close && last + 1 + STATUS_HISTORY_SIZE >= f.length)
  }

  function Run(base: nat, steps: seq<Step>): Feed {
    if steps == [] then Feed(0, [], true) else Apply(Run(base, steps[..|steps| - 1]), base, steps[|steps| - 1])
  }

  predicate Increasing(got: seq<nat>) {
    forall i, j :: 0 <= i < j < |got| ==> got[i] < got[j]
  }

  predicate InOrder(f: Feed) {
    && Increasing(f.got) && (f.got != [] ==> f.got[|f.got| - 1] < f.length)
    && (f.close ==> forall i :: 0 <= i < |f.got| ==> f.got[i] == f.got[0] + i)
  }

  lemma GetMore(f: Feed, k: nat)
    requires InOrder(f) && f.got != [] && f.got[|f.got| - 1] < k < f.length
    ensures InOrder(f.(got := f.got + [k], close := f.close && k == f.got[|f.got| - 1] + 1))
  {
    var got, last := f.got, f.got[|f.got| - 1];
    forall i, j | 0 <= i < j < |got + [k]|
      ensures (got + [k])[i] < (got + [k])[j]
    {
      assert i < |got| - 1 ==> got[i] < last;
      assert j < |got| ==> got[i] < got[j];
    }
  }

  /** A reader receives events in order, without repetition, and while it keeps up without a gap. */
  lemma {:induction false} ReaderMissesNothing(base: nat, steps: seq<Step>)
    ensures InOrder(Run(base, steps))
    decreases |steps|
  {
    if steps != [] {
      var n := |steps| - 1;
      ReaderMissesNothing(base, steps[..n]);
      ReadOnce(Run(base, steps[..n]), base, steps[n]);
    }
  }

  lemma ReadOnce(f: Feed, base: nat, s: Step)
    requires InOrder(f)
    ensures InOrder(Apply(f, base, s))
  {
    if s.Read? && f.got != [] && f.got[|f.got| - 1] + 1 < f.length {
      var last := f.got[|f.got| - 1];
      ReaderGetsTheNext(base, f.length, base + last + 1);
      GetMore(f, NextIndex(base, f.length, base + last + 1));
    }
  }

  /** Whatever was recorded before, the first event a reader receives is the latest. */
  lemma FirstReadIsLatest(base: nat, steps: seq<Step>)
    requires Run(base, steps).got == [] && Run(base, steps).length > 0
    ensures Run(base, steps + [Read]).got == [Run(base, steps).length - 1]
  {
    assert (steps + [Read])[..|steps|] == steps;
    OtherReaders(base, Run(base, steps).length, 0);
  }
}

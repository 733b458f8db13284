// The EF10 event queue (ef10.c): events are read through a private copy of one cacheline
// while the NIC keeps writing.

module EventQueues {
  import opened RingIndex
  import opened Wrappers

  /** An event, with what its handler returns: a number of packets, or a return code. */
  datatype Event = Rx(packets: nat) | Tx | Mcdi(rc: int) | Driver(rc: int) | DriverGenerated | Unknown

  // ---- Where cachelines lie ----

  /** A queue of whole cachelines, at least two of them. */
  predicate Lines(n: nat, c: nat) { c > 0 && n >= 2 * c && Idx(c, n) == 0 }

  lemma {:induction false} OffsetWithin(c: nat, base: nat, d: nat)
    requires c > 0 && Idx(c, base) == 0 && d < c
    ensures Idx(c, base + d) == d
  {
    IdxAdd(c, base, d);
  }

  /** A cacheline does not wrap around the end of the queue. */
  lemma {:induction false} LineIsContiguous(n: nat, c: nat, base: nat, d: nat)
    requires c > 0 && n >= c && Idx(c, n) == 0 && Idx(c, base) == 0 && d < c
    ensures Idx(n, base + d) == Idx(n, base) + d
  {
    if base >= n {
      WholeLapsVanish(c, n, base - n);
      LineIsContiguous(n, c, base - n, d);
    } else if base + d >= n {
      OffsetWithin(c, base, d);
      OffsetWithin(c, base, n - base);
    }
  }

  /** Comparing line addresses notices that the next line has been reached exactly when the
      queue has more than one line. */
  lemma NextLineDiffers(n: nat, c: nat, base: nat)
    requires c > 0 && n >= c && Idx(c, n) == 0 && Idx(c, base) == 0
    ensures Idx(n, base + c) != Idx(n, base) <==> n > c
  {
    if n > c { IdxDistinct(n, base, base + c); } else { IdxLap(n, base); }
  }

  lemma Locate(n: nat, c: nat, p: nat)
    requires Lines(n, c)
    ensures var offset := Idx(c, Idx(n, p));
            && offset <= Idx(n, p) && offset <= p
            && Idx(c, p - offset) == 0 && Idx(n, p - offset) == Idx(n, p) - offset
  {
    IdxOfIdx(n, c, p);
    IdxBelow(c, p);
    LineIsContiguous(n, c, p - Idx(c, p), Idx(c, p));
  }

  /** While the read pointer is in the copied line or at its end, equal line addresses mean
      it is in the line. */
  lemma SameLine(n: nat, c: nat, line: nat, p: nat)
    requires Lines(n, c) && Idx(c, line) == 0 && line <= p <= line + c
    ensures Idx(n, p) - Idx(c, Idx(n, p)) == Idx(n, line) ==> p - Idx(c, Idx(n, p)) == line
  {
    hide Idx;
    Locate(n, c, p);
    IdxOfIdx(n, c, p);
    if p < line + c {
      OffsetWithin(c, line, p - line);
    } else {
      NextLineDiffers(n, c, line);
      IdxLap(c, line);
    }
  }

  // ---- The budget ----

  /** What an event adds to the work done. */
  function Cost(e: Event): nat {
    match e
    case Rx(packets) => packets
    case Mcdi(rc) => if rc > 0 then rc else if rc < 0 then 1 else 0
    case Driver(rc) => if rc > 0 then rc else if rc < 0 then 1 else 0
    case _ => 0
  }

  function Work(events: seq<Event>): nat {
    if events == [] then 0 else Work(events[..|events| - 1]) + Cost(events[|events| - 1])
  }

  /** The loop looks at the budget after these events only. */
  predicate Budgeted(e: Event) { e.Rx? || e.Mcdi? || e.Driver? }

  predicate Exhausts(quota: int, events: seq<Event>) {
    events != [] && Budgeted(events[|events| - 1]) && Work(events) >= quota
  }

  /** Receive events report at most the quota; the others may report more. */
  function Reported(quota: int, events: seq<Event>): int {
    if Exhausts(quota, events) && events[|events| - 1].Rx? then quota else Work(events)
  }

  /** None of the first `upTo` prefixes used up the budget. */
  ghost predicate NotYet(quota: int, events: seq<Event>, upTo: nat) {
    forall k | 0 <= k < upTo && k <= |events| :: !Exhausts(quota, events[..k])
  }

  /** A poll that did not run out of budget reports less than its quota. */
  lemma {:induction false} DrainedMeansBelowQuota(quota: int, events: seq<Event>)
    requires quota > 0 && NotYet(quota, events, |events| + 1)
    ensures Reported(quota, events) == Work(events) < quota
    decreases |events|
  {
    assert events[..|events|] == events;
    if events != [] {
      var before := events[..|events| - 1];
      assert forall k | 0 <= k <= |before| :: before[..k] == events[..k];
      DrainedMeansBelowQuota(quota, before);
    }
  }

  lemma OneMore(quota: int, before: seq<Event>, e: Event)
    requires NotYet(quota, before, |before| + 1)
    ensures Work(before + [e]) == Work(before) + Cost(e)
    ensures Exhausts(quota, before + [e]) <==> Budgeted(e) && Work(before + [e]) >= quota
    ensures Reported(quota, before + [e]) ==
            if Exhausts(quota, before + [e]) && e.Rx? then quota else Work(before + [e])
    ensures NotYet(quota, before + [e], |before| + 1)
    ensures !Exhausts(quota, before + [e]) ==> NotYet(quota, before + [e], |before| + 2)
  {
    var events := before + [e];
    assert events[..|before|] == before && events[..|events|] == events;
    assert forall k | 0 <= k <= |before| :: events[..k] == before[..k];
  }

  lemma NothingYet(quota: int)
    ensures NotYet(quota, [], 1) && Work([]) == 0
  {}

  lemma WholeIsPrefix(quota: int, events: seq<Event>)
    requires NotYet(quota, events, |events| + 1)
    ensures !Exhausts(quota, events) && Reported(quota, events) == Work(events) && NotYet(quota, events, |events|)
  {
    assert events[..|events|] == events;
  }

  /** Event by event: receive events count their packets, MCDI and driver events what their
      handlers returned, an error counting as one, and the others nothing. */
  lemma WorkOfEvents(events: seq<Event>, packets: nat, rc: int)
    ensures Work([]) == 0 && Work(events + [Rx(packets)]) == Work(events) + packets
    ensures rc > 0 ==> Work(events + [Mcdi(rc)]) == Work(events + [Driver(rc)]) == Work(events) + rc
    ensures rc < 0 ==> Work(events + [Mcdi(rc)]) == Work(events + [Driver(rc)]) == Work(events) + 1
    ensures Work(events + [Mcdi(0)]) == Work(events + [Driver(0)]) == Work(events)
    ensures Work(events + [Tx]) == Work(events + [DriverGenerated]) == Work(events + [Unknown]) == Work(events)
  {
    hide Work;
    WorkSnoc(events, Rx(packets));
    WorkSnoc(events, Mcdi(rc));
    WorkSnoc(events, Driver(rc));
    WorkSnoc(events, Mcdi(0));
    WorkSnoc(events, Driver(0));
    WorkSnoc(events, Tx);
    WorkSnoc(events, DriverGenerated);
    WorkSnoc(events, Unknown);
    NothingYet(0);
  }

  lemma WorkSnoc(events: seq<Event>, e: Event)
    ensures Work(events + [e]) == Work(events) + Cost(e)
  {
    assert (events + [e])[..|events|] == events;
  }

  /** The packets received with these events. */
  function Packets(events: seq<Event>): nat {
    if events == [] then 0 else (if events[0].Rx? then events[0].packets else 0) + Packets(events[1..])
  }

  lemma {:induction false} PacketsAreWork(events: seq<Event>)
    requires forall i | 0 <= i < |events| :: events[i].Rx?
    ensures Work(events) == Packets(events)
    decreases |events|
  {
    if events != [] {
      var before := events[..|events| - 1];
      PacketsAreWork(before);
      PacketsSnoc(before, events[|events| - 1]);
      assert before + [events[|events| - 1]] == events;
    }
  }

  lemma {:induction false} PacketsSnoc(events: seq<Event>, e: Event)
    requires e.Rx?
    ensures Packets(events + [e]) == Packets(events) + e.packets
  {
    if events == [] {
      assert (events + [e])[1..] == [];
    } else {
      assert (events + [e])[1..] == events[1..] + [e];
      PacketsSnoc(events[1..], e);
    }
  }

  /** How a poll ends. It goes on past a receive, MCDI or driver event exactly if the work is
      below the quota then, and past any other event in any case; it reports the quota if a
      receive event ends it, and else the work; with receive events only, that is the packets,
      or the quota if it is less. */
  ghost predicate Polled(quota: int, handled: seq<Event>, drained: bool, spent: int) {
    && (forall k | 0 < k < |handled| && (handled[k - 1].Rx? || handled[k - 1].Mcdi? || handled[k - 1].Driver?) ::
          Work(handled[..k]) < quota)
    && (!drained ==>
          && handled != [] && Work(handled) >= quota
          && var last := handled[|handled| - 1]; last.Rx? || last.Mcdi? || last.Driver?)
    && (drained && handled != [] ==>
          var last := handled[|handled| - 1]; last.Rx? || last.Mcdi? || last.Driver? ==> Work(handled) < quota)
    && spent == (if !drained && handled[|handled| - 1].Rx? then quota else Work(handled))
    && (quota >= 0 && (forall i | 0 <= i < |handled| :: handled[i].Rx?) ==>
          spent == if Packets(handled) < quota then Packets(handled) else quota)
  }

  lemma PollEnds(quota: int, handled: seq<Event>, drained: bool)
    requires (drained <==> !Exhausts(quota, handled)) && NotYet(quota, handled, |handled|)
    ensures Polled(quota, handled, drained, Reported(quota, handled))
  {
    forall k | 0 < k < |handled| && Budgeted(handled[k - 1]) ensures Work(handled[..k]) < quota {
      assert handled[..k][k - 1] == handled[k - 1];
      assert !Exhausts(quota, handled[..k]);
    }
    if forall i | 0 <= i < |handled| :: handled[i].Rx? { PacketsAreWork(handled); }
  }

  class EventQueue {
    const n: nat
    const c: nat
    /** None is a slot whose bits are all ones. */
    const mem: array<Option<Event>>
    var readPtr: nat
    /** The NIC's side: all the events it will ever write, how many it has written, and how
        many it tries to write before each of the driver's next loads. */
    const stream: seq<Event>
    var written: nat
    var pace: seq<nat>
    /** The last load of a line: the position of the first slot loaded, and how much the NIC
        had written at that moment. */
    ghost var lastLoad: (nat, nat)

    constructor (n: nat, c: nat, stream: seq<Event>, pace: seq<nat>)
      requires Lines(n, c)
      ensures Valid() && fresh(mem) && this.n == n && this.c == c && readPtr == written == 0
      ensures this.stream == stream && this.pace == pace
    {
      this.n, this.c, this.stream, this.pace := n, c, stream, pace;
      mem := new Option<Event>[n](_ => None);
      readPtr, written, lastLoad := 0, 0, (0, 0);
      new;
      forall j | 0 <= j < n ensures Holds(j) {}
    }

    ghost predicate HoldsIn(slots: seq<Option<Event>>, upTo: nat, j: nat)
      requires |slots| == n > 0 && upTo <= |stream|
    {
      slots[Idx(n, j)] == if j < upTo then Some(stream[j]) else None
    }

    ghost predicate Holds(j: nat)
      requires mem.Length == n > 0 && written <= |stream|
      reads `written, mem
    {
      HoldsIn(mem[..], written, j)
    }

    ghost predicate Valid()
      reads this, mem
    {
      && Lines(n, c) && mem.Length == n
      && readPtr <= written <= readPtr + n && written <= |stream|
      && forall j | readPtr <= j < readPtr + n :: Holds(j)
    }

    lemma InRange()
      requires Valid()
      ensures 0 < c < n && Lines(n, c) && mem.Length == n
      ensures readPtr <= written <= |stream|
    {}

    /** The NIC writes one event, if it has one and the slot has been handed back. */
    method WriteEvent()
      requires Valid()
      modifies `written, mem
      ensures Valid()
      ensures var w := old(written);
              if w < |stream| && w < readPtr + n then
                written == w + 1 && mem[..] == old(mem[..])[Idx(n, w) := Some(stream[w])]
              else written == w && mem[..] == old(mem[..])
    {
      if written < |stream| && written < readPtr + n {
        forall j | readPtr <= j < readPtr + n && j != written ensures Idx(n, j) != Idx(n, written) {
          if j < written { IdxDistinct(n, j, written); } else { IdxDistinct(n, written, j); }
        }
        ghost var was, upTo := mem[..], written;
        forall j | readPtr <= j < readPtr + n ensures HoldsIn(was, upTo, j) { assert Holds(j); }
        mem[Idx(n, written)] := Some(stream[written]);
        written := written + 1;
        forall j | readPtr <= j < readPtr + n ensures Holds(j) {
          assert HoldsIn(was, upTo, j);
        }
      }
    }

    method NicRuns()
      requires Valid()
      modifies `written, `pace, mem
      ensures Valid() && written >= old(written)
    {
      var k := 0;
      if pace != [] { k := pace[0]; pace := pace[1..]; }
      for i := 0 to k
        invariant Valid() && written >= old(written)
      {
        WriteEvent();
      }
    }

    /** Loads slots from offset `from` to the end of the line at position `line`. Every word
        is loaded once; `seen` is how much the NIC had written at the first load. */
    method LoadLine(cacheline: array<Option<Event>>, ghost line: nat, base: nat, from: nat) returns (ghost seen: nat)
      requires Valid() && cacheline.Length == c && cacheline != mem
      requires Idx(c, line) == 0 && base == Idx(n, line) && from < c && readPtr == line + from
      modifies `written, `pace, `lastLoad, mem, cacheline
      ensures Valid() && old(written) <= seen <= written && lastLoad == (readPtr, seen)
      ensures cacheline[from] == (if readPtr < seen then Some(stream[readPtr]) else None)
      ensures forall d | from <= d < c :: Copied(cacheline[d], line + d)
    {
      seen := written;
      for cr := from to c
        invariant Valid() && written >= old(written)
        invariant cr > from ==> old(written) <= seen <= written
        invariant cr > from ==> lastLoad == (readPtr, seen)
        invariant cr > from ==> cacheline[from] == (if readPtr < seen then Some(stream[readPtr]) else None)
        invariant forall d | from <= d < cr :: Copied(cacheline[d], line + d)
      {
        NicRuns();
        LineIsContiguous(n, c, line, cr);
        assert Holds(line + cr);
        if cr == from {
          seen := written;
          lastLoad := (readPtr, seen);
        }
        cacheline[cr] := mem[base + cr];
      }
    }

    /** A private copy of slot `j`: what the NIC wrote there, or still empty. */
    ghost predicate Copied(copy: Option<Event>, j: nat)
      reads `written
    {
      copy.Some? ==> j < written && j < |stream| && copy.value == stream[j]
    }

    /** Clears the slot at the read pointer and moves on. */
    method Consume(index: nat)
      requires Valid() && readPtr < written && index == Idx(n, readPtr)
      modifies `readPtr, mem
      ensures Valid() && readPtr == old(readPtr) + 1 && readPtr <= written
    {
      ghost var was := mem[..];
      forall j | readPtr <= j < readPtr + n ensures HoldsIn(was, written, j) { assert Holds(j); }
      mem[index] := None;
      readPtr := readPtr + 1;
      forall j | readPtr <= j < readPtr + n ensures Holds(j) {
        if j == readPtr - 1 + n {
          IdxLap(n, readPtr - 1);
        } else {
          IdxDistinct(n, readPtr - 1, j);
          assert HoldsIn(was, written, j);
        }
      }
    }

    /** The copy is of the line at position `line`, or of none; its slots from position
        `pos` on hold what the NIC wrote, or were still empty. */
    ghost predicate Cached(copy: seq<Option<Event>>, upTo: nat, base: int, line: nat, pos: nat) {
      base != -1 ==>
        && 0 < c == |copy| && n > 0 && upTo <= |stream| && Idx(c, line) == 0 && base == Idx(n, line)
        && line <= pos <= line + c
        && forall d | pos - line <= d < c && copy[d].Some? :: line + d < upTo && copy[d].value == stream[line + d]
    }

    /** The event at the read pointer, from the copy, which is loaded first unless it is
        the right one. */
    method Peek(cacheline: array<Option<Event>>, oldBase: int, ghost oldLine: nat)
      returns (event: Option<Event>, index: nat, base: int, ghost line: nat, ghost seen: nat)
      requires Valid() && cacheline.Length == c && cacheline != mem
      requires Cached(cacheline[..], written, oldBase, oldLine, readPtr)
      modifies `written, `pace, `lastLoad, mem, cacheline
      ensures old(written) <= written
      ensures base != oldBase ==> lastLoad == (readPtr, seen)
      ensures Valid() && readPtr <= written <= |stream| && index == Idx(n, readPtr) && base >= 0
      ensures Cached(cacheline[..], written, base, line, readPtr)
      ensures event.Some? ==> readPtr < written && event.value == stream[readPtr]
      ensures event.Some? ==> Cached(cacheline[..], written, base, line, readPtr + 1)
      ensures base != oldBase ==> old(written) <= seen <= written
      ensures base != oldBase ==> event == if readPtr < seen then Some(stream[readPtr]) else None
    {
      InRange();
      hide Idx, Valid, Lines;
      index := Idx(n, readPtr);
      var offset := Idx(c, index);
      Locate(n, c, readPtr);
      if oldBase != -1 { SameLine(n, c, oldLine, readPtr); }
      base := index - offset;
      line := readPtr - offset;
      seen := written;
      if base != oldBase {
        seen := LoadLine(cacheline, line, base, offset);
        InRange();
      }
      event := cacheline[offset];
    }

    /** One event is consumed, and counted towards the budget; `done` says that it is used up. */
    method HandleEvent(quota: int, index: nat, event: Event, spentWas: int, before: seq<Event>, ghost start: nat)
      returns (spent: int, handled: seq<Event>, done: bool)
      requires Valid() && readPtr < written <= |stream| && index == Idx(n, readPtr) && event == stream[readPtr]
      requires start + |before| == readPtr && before == stream[start..readPtr]
      requires spentWas == Work(before) && NotYet(quota, before, |before| + 1)
      modifies `readPtr, mem
      ensures Valid() && readPtr == old(readPtr) + 1 <= written
      ensures handled == before + [event] && handled == stream[start..readPtr]
      ensures if done then
                && Exhausts(quota, handled) && NotYet(quota, handled, |handled|)
                && spent == Reported(quota, handled)
              else spent == Work(handled) && NotYet(quota, handled, |handled| + 1)
    {
      hide Idx, Valid;
      assert stream[start..readPtr + 1] == before + [event];
      OneMore(quota, before, event);
      hide Work, Exhausts, Reported, NotYet;
      Consume(index);
      handled := before + [event];
      spent := spentWas + Cost(event);
      done := false;
      if Budgeted(event) && spent >= quota {
        if event.Rx? { spent := quota; }
        done := true;
      }
    }

    /** The polling loop. `drained` tells whether it left because the next slot was empty: then
        that slot was the first of the last load, and at that load the NIC had written no more
        than what has been handled, which is at least all it had written before the call. */
    method EvProcess(quota: int) returns (spent: int, handled: seq<Event>, drained: bool)
      requires Valid()
      modifies this, mem
      ensures Valid() && readPtr == old(readPtr) + |handled| && readPtr <= |stream|
      ensures handled == stream[old(readPtr)..readPtr]
      ensures drained ==> lastLoad == (readPtr, readPtr) && old(written) <= readPtr <= written
      ensures drained <==> !Exhausts(quota, handled)
      ensures NotYet(quota, handled, |handled|)
      ensures spent == Reported(quota, handled) && Polled(quota, handled, drained, spent)
    {
      InRange();
      NothingYet(quota);
      hide Idx, Valid, Cached, Work, Exhausts, Reported, NotYet, Polled;
      var cacheline := new Option<Event>[c](_ => None);
      var oldBase: int := -1;
      ghost var line: nat := 0;
      spent, handled, drained := 0, [], false;
      ghost var seen: nat := 0;
      NoCopy(cacheline[..]);
      while true
        invariant Valid() && readPtr <= written <= |stream| && old(written) <= written
        invariant readPtr == old(readPtr) + |handled| && handled == stream[old(readPtr)..readPtr]
        invariant fresh(cacheline) && cacheline.Length == c
        invariant Cached(cacheline[..], written, oldBase, line, readPtr)
        invariant spent == Work(handled) && NotYet(quota, handled, |handled| + 1)
        decreases |stream| - readPtr, if oldBase == -1 then 0 else 1
      {
        var event, index, base;
        event, index, base, line, seen := Peek(cacheline, oldBase, line);
        if event.None? {
          if base != oldBase {
            drained := true;
            WholeIsPrefix(quota, handled);
            break;
          }
          oldBase := -1;
          NoCopy(cacheline[..]);
          continue;
        }
        oldBase := base;
        var done;
        spent, handled, done := HandleEvent(quota, index, event.value, spent, handled, old(readPtr));
        if done { break; }
      }
      PollEnds(quota, handled, drained);
    }

    lemma NoCopy(copy: seq<Option<Event>>)
      ensures forall upTo, line, pos :: Cached(copy, upTo, -1, line, pos)
    {}

    /** Is an MCDI event waiting? The scan ends at the first one, or at an empty slot; in a
        full ring without one it would not end. */
    method McdiPending() returns (pending: bool)
      requires Valid() && (written < readPtr + n || exists j :: readPtr <= j < written && stream[j].Mcdi?)
      ensures pending <==> exists j :: readPtr <= j < written && stream[j].Mcdi?
    {
      var ptr := readPtr;
      while true
        invariant readPtr <= ptr <= written
        invariant forall j | readPtr <= j < ptr :: !stream[j].Mcdi?
        invariant ptr < readPtr + n
        decreases written - ptr
      {
        assert Holds(ptr);
        var event := mem[Idx(n, ptr)];
        if event.None? { return false; }
        if event.value.Mcdi? { return true; }
        ptr := ptr + 1;
      }
    }
  }
}

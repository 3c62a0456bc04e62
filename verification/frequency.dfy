/** The buffer of unsaved endpoint updates and the periodic save that empties it. */
module Frequency {

  const SECOND := 1_000_000_000

  /** An update may wait two minutes before a save is due. */
  const MAX_AGE := 2 * 60 * SECOND

  const MAX_PENDING := 10

  predicate Stale(times: seq<int>, now: int) {
    exists i :: 0 <= i < |times| && now - times[i] > MAX_AGE
  }

  predicate Due(times: seq<int>, now: int) {
    |times| > MAX_PENDING || Stale(times, now)
  }

  /**
   * `Process` and `Tick` run under one mutex, so they are atomic; `now` is the clock and `storeOk` the save's
   * outcome.
   */
  class SyncFrequency {
    var updateTimes: seq<int>

    constructor ()
      ensures updateTimes == []
    {
      updateTimes := [];
    }

    method Process(now: int)
      modifies this
      ensures updateTimes == old(updateTimes) + [now]
      ensures updateTimes == Step(Buffer(old(updateTimes), []), Updated(now)).pending
    {
      updateTimes := updateTimes + [now];
    }

    method IsStale(now: int) returns (stale: bool)
      ensures stale == Stale(updateTimes, now)
    {
      for i := 0 to |updateTimes|
        invariant !Stale(updateTimes[..i], now)
      {
        if now - updateTimes[i] > MAX_AGE {
          return true;
        }
      }
      assert updateTimes[..|updateTimes|] == updateTimes;
      return false;
    }

    /** A failed save keeps the buffer. */
    method Tick(now: int, storeOk: bool) returns (failed: bool)
      modifies this
      ensures failed == (Due(old(updateTimes), now) && !storeOk)
      ensures updateTimes == if Due(old(updateTimes), now) && storeOk then [] else old(updateTimes)
      ensures updateTimes == Step(Buffer(old(updateTimes), []), Ticked(now, storeOk)).pending
    {
      failed := false;
      var stale := IsStale(now);
      if |updateTimes| > MAX_PENDING || stale {
        if !storeOk {
          return true;
        }
        updateTimes := [];
      }
    }
  }

  /** A save is due when more than ten updates wait, or one has waited for over two minutes, and not before. */
  lemma DueIs(times: seq<int>, now: int)
    ensures Due(times, now) <==>
              |times| > 10 || exists i :: 0 <= i < |times| && now - times[i] > 120_000_000_000
  {
    if i :| 0 <= i < |times| && now - times[i] > 120_000_000_000 {
      assert Stale(times, now);
    }
  }

  // ----- whole runs -----

  datatype Event = Updated(at: int) | Ticked(at: int, storeOk: bool)

  /** An update and the time of the save that stored it. */
  datatype Saved = Saved(recorded: int, stored: int)

  datatype Buffer = Buffer(pending: seq<int>, saved: seq<Saved>)

  predicate Saves(b: Buffer, e: Event) {
    e.Ticked? && e.storeOk && Due(b.pending, e.at)
  }

  /** A tick at which no save was due, or the save succeeded. */
  predicate Passes(b: Buffer, e: Event) {
    e.Ticked? && (Due(b.pending, e.at) ==> e.storeOk)
  }

  function Step(b: Buffer, e: Event): Buffer {
    if e.Updated? then Buffer(b.pending + [e.at], b.saved)
    else if Saves(b, e) then
      Buffer([], b.saved + seq(|b.pending|, i requires 0 <= i < |b.pending| => Saved(b.pending[i], e.at)))
    else b
  }

  function Run(events: seq<Event>): Buffer {
    if events == [] then Buffer([], []) else Step(Run(events[..|events| - 1]), events[|events| - 1])
  }

  /** The updates of a run, in order. */
  function Recorded(events: seq<Event>): seq<int> {
    if events == [] then []
    else
      var e := events[|events| - 1];
      Recorded(events[..|events| - 1]) + if e.Updated? then [e.at] else []
  }

  function SavedTimes(saved: seq<Saved>): seq<int> {
    seq(|saved|, i requires 0 <= i < |saved| => saved[i].recorded)
  }

  /** No update is lost, repeated or reordered: what was recorded is what was saved, then what is pending. */
  lemma {:induction false} NothingLost(events: seq<Event>)
    ensures Recorded(events) == SavedTimes(Run(events).saved) + Run(events).pending
  {
    if events != [] {
      var n := |events| - 1;
      NothingLost(events[..n]);
      var b, e := Run(events[..n]), events[n];
      if e.Ticked? && Saves(b, e) {
        assert SavedTimes(Step(b, e).saved) == SavedTimes(b.saved) + b.pending;
      }
    }
  }

  /** An update leaves the buffer only through a save that succeeded. */
  lemma {:induction false} SavedByStores(events: seq<Event>, k: nat)
    requires k < |Run(events).saved|
    ensures exists i :: 0 <= i < |events| && events[i] == Ticked(Run(events).saved[k].stored, true)
  {
    if events != [] {
      var n := |events| - 1;
      if k < |Run(events[..n]).saved| {
        SavedByStores(events[..n], k);
        var i :| 0 <= i < n && events[..n][i] == Ticked(Run(events[..n]).saved[k].stored, true);
        assert events[i] == events[..n][i];
      } else {
        assert events[n] == Ticked(Run(events).saved[k].stored, true);
      }
    }
  }

  /** Nothing is saved early: where a tick saved, more than ten updates waited, or one for over two minutes. */
  lemma {:induction false} SavedWhenDue(events: seq<Event>, k: nat)
    requires k < |Run(events).saved|
    ensures exists i :: 0 <= i < |events| && events[i] == Ticked(Run(events).saved[k].stored, true)
              && var waiting := Run(events[..i]).pending;
                 Run(events).saved[k].recorded in waiting
                 && (|waiting| > 10 || exists j :: 0 <= j < |waiting| && events[i].at - waiting[j] > 120_000_000_000)
  {
    var n := |events| - 1;
    var b, e := Run(events[..n]), events[n];
    if k < |b.saved| {
      SavedWhenDue(events[..n], k);
      var i :| 0 <= i < n && events[..n][i] == Ticked(b.saved[k].stored, true)
               && var waiting := Run(events[..n][..i]).pending;
                  b.saved[k].recorded in waiting
                  && (|waiting| > 10
                      || exists j :: 0 <= j < |waiting| && events[..n][i].at - waiting[j] > 120_000_000_000);
      assert events[..n][..i] == events[..i] && events[i] == events[..n][i];
    } else {
      DueIs(b.pending, e.at);
      assert Run(events).saved[k] == Saved(b.pending[k - |b.saved|], e.at);
    }
  }

  /** The clock does not run backwards. */
  predicate Monotone(events: seq<Event>) {
    forall i, j :: 0 <= i < j < |events| ==> events[i].at <= events[j].at
  }

  /** The time of the last tick that passed, counting from `start`. */
  function LastPass(start: int, events: seq<Event>): int {
    if events == [] then start
    else
      var n := |events| - 1;
      if Passes(Run(events[..n]), events[n]) then events[n].at else LastPass(start, events[..n])
  }

  /** Ticks that pass are at most `period` apart: no event comes later than that after the last one. */
  predicate TicksWithin(start: int, period: int, events: seq<Event>) {
    forall i :: 0 <= i < |events| ==>
      LastPass(start, events[..i]) <= events[i].at <= LastPass(start, events[..i]) + period
  }

  lemma TicksPrefix(start: int, period: int, events: seq<Event>)
    requires events != [] && TicksWithin(start, period, events)
    ensures TicksWithin(start, period, events[..|events| - 1])
  {
    forall i | 0 <= i < |events| - 1
      ensures var last := LastPass(start, events[..|events| - 1][..i]); last <= events[i].at <= last + period
    {
      assert events[..|events| - 1][..i] == events[..i];
    }
  }

  /** A tick that passes leaves few updates, all of them recent. */
  lemma PassedTickBounds(b: Buffer, e: Event)
    requires Passes(b, e)
    ensures var after := Step(b, e).pending;
            |after| <= MAX_PENDING && forall i :: 0 <= i < |after| ==> e.at - after[i] <= MAX_AGE
  {
  }

  /** What waits was recorded at most two minutes before the last tick that passed. */
  lemma {:induction false} PendingIsRecent(start: int, period: int, events: seq<Event>)
    requires TicksWithin(start, period, events)
    ensures forall i :: 0 <= i < |Run(events).pending| ==> LastPass(start, events) - Run(events).pending[i] <= MAX_AGE
  {
    if events != [] {
      var n := |events| - 1;
      TicksPrefix(start, period, events);
      PendingIsRecent(start, period, events[..n]);
      var b, e := Run(events[..n]), events[n];
      if Passes(b, e) {
        PassedTickBounds(b, e);
      }
    }
  }

  /**
   * With passing ticks at most `period` apart, every update is saved, if at all, after it was recorded and at
   * most two minutes and one period later; and none has been waiting longer than that.
   */
  lemma {:induction false} BoundedStaleness(start: int, period: int, events: seq<Event>)
    requires Monotone(events) && TicksWithin(start, period, events) && events != []
    ensures forall i :: 0 <= i < |Run(events).saved| ==>
              0 <= Run(events).saved[i].stored - Run(events).saved[i].recorded <= MAX_AGE + period
    ensures forall i :: 0 <= i < |Run(events).pending| ==>
              0 <= events[|events| - 1].at - Run(events).pending[i] <= MAX_AGE + period
  {
    var n := |events| - 1;
    var b, e := Run(events[..n]), events[n];
    TicksPrefix(start, period, events);
    PendingIsRecent(start, period, events[..n]);
    if n > 0 {
      BoundedStaleness(start, period, events[..n]);
      assert events[..n][n - 1].at <= e.at;
    }
    assert LastPass(start, events[..n]) <= e.at <= LastPass(start, events[..n]) + period;
    assert forall i :: 0 <= i < |b.pending| ==> 0 <= e.at - b.pending[i] <= MAX_AGE + period;
  }
}

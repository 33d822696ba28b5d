/**
 Debounced notification that a device was removed: absences are reported with
 a clock that may run backwards, and one notification is due after a grace time.
 */
module RemovalTracker {

  datatype State = State(absentSince: nat, absenceActive: bool, removalNotified: bool)

  datatype Event = Present | Absent(now: nat)

  function Cleared(): State {
    State(0, false, false)
  }

  /** Whether this absence report returns the notification. */
  predicate Notifies(s: State, now: nat, grace: nat) {
    && !s.removalNotified
    && if s.absenceActive then now >= s.absentSince && now - s.absentSince >= grace else grace == 0
  }

  function AfterAbsent(s: State, now: nat, grace: nat): State {
    State(if s.absenceActive && now >= s.absentSince then s.absentSince else now,
          true,
          s.removalNotified || Notifies(s, now, grace))
  }

  function After(events: seq<Event>, grace: nat): State {
    if events == [] then Cleared()
    else
      match events[|events| - 1]
      case Present => Cleared()
      case Absent(now) => AfterAbsent(After(events[..|events| - 1], grace), now, grace)
  }

  // ------------------------------------------------------- reference definition

  /** The times reported since the device was last seen. */
  function Absences(events: seq<Event>): seq<nat> {
    if events == [] then []
    else
      match events[|events| - 1]
      case Present => []
      case Absent(now) => Absences(events[..|events| - 1]) + [now]
  }

  function Least(times: seq<nat>): (m: nat)
    requires times != []
    ensures m in times && forall k :: 0 <= k < |times| ==> m <= times[k]
  {
    var last := times[|times| - 1];
    if |times| == 1 then last
    else
      var front := Least(times[..|times| - 1]);
      if last < front then last else front
  }

  /** The last report lies the grace time or more after the earliest time reported. */
  predicate Due(times: seq<nat>, grace: nat)
    requires times != []
  {
    times[|times| - 1] - Least(times) >= grace
  }

  predicate DueBefore(times: seq<nat>, grace: nat) {
    times != [] && (Due(times, grace) || DueBefore(times[..|times| - 1], grace))
  }

  lemma {:induction false} DueBeforeIff(times: seq<nat>, grace: nat)
    ensures DueBefore(times, grace) <==> exists k :: 0 < k <= |times| && Due(times[..k], grace)
  {
    if times != [] {
      var n := |times| - 1;
      DueBeforeIff(times[..n], grace);
      assert times[..n + 1] == times;
      forall k | 0 < k <= n ensures times[..n][..k] == times[..k] {
      }
      if Due(times, grace) {
        assert Due(times[..n + 1], grace);
      } else if DueBefore(times[..n], grace) {
        var k :| 0 < k <= n && Due(times[..n][..k], grace);
        assert Due(times[..k], grace);
      } else {
        forall k | 0 < k <= n + 1 ensures !Due(times[..k], grace) {
          if k <= n {
            assert !Due(times[..n][..k], grace);
          }
        }
      }
    }
  }

  // ------------------------------------------------------------------- theorems

  /** The tracker holds the earliest time reported and whether a notification was due. */
  lemma {:induction false} Tracks(events: seq<Event>, grace: nat)
    ensures var s, times := After(events, grace), Absences(events);
            && (s.absenceActive <==> times != [])
            && (s.absenceActive ==> s.absentSince == Least(times))
            && (s.removalNotified <==> DueBefore(times, grace))
  {
    if events != [] && events[|events| - 1].Absent? {
      var before := events[..|events| - 1];
      Tracks(before, grace);
      var times := Absences(events);
      assert times[..|times| - 1] == Absences(before);
    }
  }

  /**
   After any events, an absence report notifies exactly if it is the first since
   the device was last seen that lies the grace time or more after the earliest
   time reported, whichever way the clock moved.
   */
  lemma NotifiesExactly(events: seq<Event>, now: nat, grace: nat)
    ensures var times := Absences(events);
            Notifies(After(events, grace), now, grace) <==>
            && Due(times + [now], grace)
            && !exists k :: 0 < k <= |times| && Due(times[..k], grace)
  {
    var times := Absences(events);
    Tracks(events, grace);
    DueBeforeIff(times, grace);
    assert (times + [now])[..|times|] == times;
  }

  /** Between two sightings of the device at most one report notifies. */
  lemma {:induction false} NotifiesOnce(events: seq<Event>, first: nat, between: seq<Event>, second: nat, grace: nat)
    requires forall k :: 0 <= k < |between| ==> between[k].Absent?
    requires Notifies(After(events, grace), first, grace)
    ensures After(events + [Absent(first)] + between, grace).removalNotified
    ensures !Notifies(After(events + [Absent(first)] + between, grace), second, grace)
  {
    var all := events + [Absent(first)] + between;
    if between == [] {
      assert all[..|all| - 1] == events;
    } else {
      var n := |between| - 1;
      NotifiesOnce(events, first, between[..n], second, grace);
      assert all[..|all| - 1] == events + [Absent(first)] + between[..n];
    }
  }

  /** With a clock that does not run backwards the window starts at the first report. */
  lemma {:induction false} MonotoneWindow(times: seq<nat>, grace: nat)
    requires times != []
    requires forall j, k :: 0 <= j < k < |times| ==> times[j] <= times[k]
    ensures Due(times, grace) <==> times[|times| - 1] >= times[0] + grace
  {
    var k :| 0 <= k < |times| && times[k] == Least(times);
    assert times[0] <= times[k];
  }

  // ---------------------------------------------------------------------- class

  class Tracker {
    var absentSince: nat
    var absenceActive: bool
    var removalNotified: bool

    ghost function Value(): State
      reads this
    {
      State(absentSince, absenceActive, removalNotified)
    }

    constructor ()
      ensures Value() == Cleared()
    {
      absentSince, absenceActive, removalNotified := 0, false, false;
    }

    method SeePresent()
      modifies this
      ensures Value() == Cleared()
    {
      absentSince := 0;
      absenceActive := false;
      removalNotified := false;
    }

    method SeeAbsent(now: nat, grace: nat) returns (notify: bool)
      modifies this
      ensures Value() == AfterAbsent(old(Value()), now, grace)
      ensures notify <==> Notifies(old(Value()), now, grace)
    {
      if !absenceActive {
        absentSince := now;
        absenceActive := true;
        if grace == 0 && !removalNotified {
          removalNotified := true;
          return true;
        }
        return false;
      }
      if now < absentSince {
        absentSince := now;
        return false;
      }
      if !removalNotified && now - absentSince >= grace {
        removalNotified := true;
        return true;
      }
      return false;
    }
  }
}

/** Maintenance Windows: which part of an incident they cover. */
module Maintenance {
  import opened Basics

  /** A half-open interval of planned work on a server. */
  datatype Window = Window(server: string, startsAt: int, endsAt: int, reason: string)

  predicate Contains(w: Window, t: int) {
    w.startsAt <= t < w.endsAt
  }

  /** Rows ordered by start; a row goes before the first that starts later. */
  function InsertByStart(rows: seq<Window>, w: Window): (out: seq<Window>)
    ensures multiset(out) == multiset(rows) + multiset{w}
  {
    if rows == [] || w.startsAt < rows[0].startsAt then [w] + rows
    else
      assert rows == [rows[0]] + rows[1..];
      [rows[0]] + InsertByStart(rows[1..], w)
  }

  /** The windows of a server that overlap `(openedAt, end)`, ordered by start. */
  function Overlapping(windows: seq<Window>, server: string, openedAt: int, end: int): seq<Window> {
    if windows == [] then []
    else
      var rows := Overlapping(windows[..|windows| - 1], server, openedAt, end);
      var w := windows[|windows| - 1];
      if Overlaps(w, server, openedAt, end) then InsertByStart(rows, w) else rows
  }

  predicate ByStart(rows: seq<Window>) {
    forall i, j :: 0 <= i < j < |rows| ==> rows[i].startsAt <= rows[j].startsAt
  }

  lemma {:induction false} InsertKeepsOrder(rows: seq<Window>, w: Window)
    requires ByStart(rows)
    ensures ByStart(InsertByStart(rows, w))
  {
    if rows == [] || w.startsAt < rows[0].startsAt {
    } else {
      InsertKeepsOrder(rows[1..], w);
      var tail := InsertByStart(rows[1..], w);
      forall j | 0 <= j < |tail| ensures rows[0].startsAt <= tail[j].startsAt {
        assert tail[j] in multiset(tail);
        assert tail[j] == w || tail[j] in rows[1..];
      }
    }
  }

  predicate Overlaps(w: Window, server: string, openedAt: int, end: int) {
    w.server == server && w.startsAt < end && w.endsAt > openedAt
  }

  lemma {:induction false} OverlappingIsSorted(windows: seq<Window>, server: string, openedAt: int, end: int)
    ensures ByStart(Overlapping(windows, server, openedAt, end))
  {
    if windows != [] {
      var n := |windows| - 1;
      OverlappingIsSorted(windows[..n], server, openedAt, end);
      InsertKeepsOrder(Overlapping(windows[..n], server, openedAt, end), windows[n]);
    }
  }

  /** The query returns the overlapping windows of the server, each as often as stored. */
  lemma {:induction false} OverlappingIsQuery(windows: seq<Window>, server: string, openedAt: int, end: int, w: Window)
    ensures multiset(Overlapping(windows, server, openedAt, end))[w] ==
            if Overlaps(w, server, openedAt, end) then multiset(windows)[w] else 0
  {
    if windows != [] {
      var n := |windows| - 1;
      OverlappingIsQuery(windows[..n], server, openedAt, end, w);
      assert windows == windows[..n] + [windows[n]];
    }
  }

  lemma {:induction false} OverlappingMembers(windows: seq<Window>, server: string, openedAt: int, end: int)
    ensures forall w :: w in Overlapping(windows, server, openedAt, end) <==>
                        w in windows && Overlaps(w, server, openedAt, end)
  {
    var rows := Overlapping(windows, server, openedAt, end);
    forall w ensures w in rows <==> w in windows && Overlaps(w, server, openedAt, end) {
      OverlappingIsQuery(windows, server, openedAt, end, w);
      assert w in rows <==> w in multiset(rows);
      assert w in windows <==> w in multiset(windows);
    }
  }

  predicate CoveredBy(rows: seq<Window>, t: int) {
    exists k :: 0 <= k < |rows| && Contains(rows[k], t)
  }

  /** Every instant from `openedAt` up to `closedAt` lies in one of the rows. */
  ghost predicate Covered(rows: seq<Window>, openedAt: int, closedAt: int) {
    forall t :: openedAt <= t < closedAt ==> CoveredBy(rows, t)
  }

  /** One pass over the rows, carrying the end of the stretch covered so far. */
  method Sweep(rows: seq<Window>, openedAt: int, closedAt: int) returns (whollyContained: bool)
    requires ByStart(rows)
    requires forall w :: w in rows ==> w.startsAt < closedAt && w.endsAt > openedAt
    ensures openedAt < closedAt ==> (whollyContained <==> Covered(rows, openedAt, closedAt))
    ensures closedAt <= openedAt ==> (whollyContained <==> rows != [])
  {
    var coverageEnd: Option<int> := None;
    whollyContained := false;
    var i := 0;
    while i < |rows|
      invariant 0 <= i <= |rows|
      invariant !whollyContained
      invariant coverageEnd.None? <==> i == 0
      invariant coverageEnd.Some? ==> openedAt < coverageEnd.value < closedAt
      invariant coverageEnd.Some? ==> forall t :: openedAt <= t < coverageEnd.value ==> CoveredBy(rows, t)
      invariant coverageEnd.Some? ==>
        forall k :: 0 <= k < i ==> rows[k].endsAt <= coverageEnd.value || rows[k].startsAt > coverageEnd.value
    {
      var row := rows[i];
      assert row in rows;
      if coverageEnd.None? {
        if row.startsAt > openedAt {
          assert openedAt < closedAt ==> !CoveredBy(rows, openedAt);
          return;
        }
        coverageEnd := Some(row.endsAt);
        assert forall t :: openedAt <= t < row.endsAt ==> Contains(rows[i], t);
      } else if row.startsAt <= coverageEnd.value {
        assert forall t :: coverageEnd.value <= t < row.endsAt ==> Contains(rows[i], t);
        coverageEnd := Some(if row.endsAt > coverageEnd.value then row.endsAt else coverageEnd.value);
      }
      if coverageEnd.value >= closedAt {
        whollyContained := true;
        return;
      }
      i := i + 1;
    }
    if coverageEnd.Some? {
      assert !CoveredBy(rows, coverageEnd.value);
    } else if openedAt < closedAt {
      assert !CoveredBy(rows, openedAt);
    }
  }

  datatype Annotation = ActiveUntil(end: int, reason: string) | WindowEnded | NoWindow

  datatype Coverage = Coverage(active: bool, whollyContained: bool, annotation: Annotation)

  /** Every instant of the incident lies in a window of its server. */
  ghost predicate InMaintenance(windows: seq<Window>, server: string, openedAt: int, closedAt: int) {
    forall t :: openedAt <= t < closedAt ==> InSomeWindow(windows, server, t)
  }

  ghost predicate InSomeWindow(windows: seq<Window>, server: string, t: int) {
    exists w :: w in windows && w.server == server && Contains(w, t)
  }

  lemma {:induction false} CoverageIgnoresOthers(windows: seq<Window>, server: string, openedAt: int, closedAt: int)
    ensures Covered(Overlapping(windows, server, openedAt, closedAt), openedAt, closedAt) <==>
            InMaintenance(windows, server, openedAt, closedAt)
  {
    var rows := Overlapping(windows, server, openedAt, closedAt);
    OverlappingMembers(windows, server, openedAt, closedAt);
    forall t | openedAt <= t < closedAt ensures CoveredBy(rows, t) <==> InSomeWindow(windows, server, t) {
      if CoveredBy(rows, t) {
        var k :| 0 <= k < |rows| && Contains(rows[k], t);
        assert rows[k] in rows;
      }
      if InSomeWindow(windows, server, t) {
        var w :| w in windows && w.server == server && Contains(w, t);
        assert w in rows;
      }
    }
  }

  /** The window that is named: one of these that contains the time, and none that does started before. */
  ghost predicate IsFirstActive(windows: seq<Window>, server: string, openedAt: int, end: int, now: int, w: Window) {
    && w in windows && Overlaps(w, server, openedAt, end) && Contains(w, now)
    && forall v :: v in windows && Overlaps(v, server, openedAt, end) && Contains(v, now) ==> w.startsAt <= v.startsAt
  }

  /** The first of the rows that contains the time. */
  method FirstActive(rows: seq<Window>, now: int) returns (active: Option<Window>)
    requires ByStart(rows)
    ensures active.None? ==> forall w :: w in rows ==> !Contains(w, now)
    ensures active.Some? ==> active.value in rows && Contains(active.value, now)
                             && forall w :: w in rows && Contains(w, now) ==> active.value.startsAt <= w.startsAt
  {
    for i := 0 to |rows|
      invariant forall k :: 0 <= k < i ==> !Contains(rows[k], now)
    {
      if Contains(rows[i], now) {
        return Some(rows[i]);
      }
    }
    active := None;
  }

  /** How windows bear on an incident. A closed incident of positive length is reported as wholly
      contained exactly when windows of its server cover all of it, however they overlap, nest or
      touch; without length (the clock stood still or stepped back) when one window overlaps it. */
  method IncidentMaintenance(windows: seq<Window>, server: string, openedAt: int, closedAt: Option<int>, now: int)
    returns (result: Coverage)
    ensures closedAt.None? ==> !result.whollyContained
    ensures closedAt.Some? && openedAt < closedAt.value ==>
              (result.whollyContained <==> InMaintenance(windows, server, openedAt, closedAt.value))
    ensures closedAt.Some? && closedAt.value <= openedAt ==>
              (result.whollyContained <==>
               exists w :: w in windows && Overlaps(w, server, openedAt, closedAt.value))
    ensures var end := if closedAt.Some? then closedAt.value else now;
            && (result.active <==> exists w :: w in windows && Overlaps(w, server, openedAt, end) && Contains(w, now))
            && (result.active ==> exists w :: IsFirstActive(windows, server, openedAt, end, now, w)
                                              && result.annotation == ActiveUntil(w.endsAt, w.reason))
            && (!result.active ==> result.annotation == EndedOrNone(windows, server, openedAt, end))
  {
    var end := if closedAt.Some? then closedAt.value else now;
    var rows := Overlapping(windows, server, openedAt, end);
    OverlappingIsSorted(windows, server, openedAt, end);
    OverlappingMembers(windows, server, openedAt, end);
    var active := FirstActive(rows, now);
    var whollyContained := false;
    if closedAt.Some? {
      whollyContained := Sweep(rows, openedAt, closedAt.value);
      CoverageIgnoresOthers(windows, server, openedAt, closedAt.value);
    }
    if rows != [] {
      assert rows[0] in rows;
    }
    var annotation := NoWindow;
    if active.Some? {
      annotation := ActiveUntil(active.value.endsAt, active.value.reason);
      assert IsFirstActive(windows, server, openedAt, end, now, active.value);
    } else if rows != [] {
      annotation := WindowEnded;
    }
    result := Coverage(active.Some?, whollyContained, annotation);
  }

  /** Outside active maintenance: whether a window of the server ever overlapped the incident. */
  ghost function EndedOrNone(windows: seq<Window>, server: string, openedAt: int, end: int): Annotation {
    if exists w :: w in windows && Overlaps(w, server, openedAt, end) then WindowEnded else NoWindow
  }
}

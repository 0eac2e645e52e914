/** The incident log: which transitions the evaluations of each server leave behind. */
module Incidents {
  import opened Basics
  import opened Rules
  import opened Health

  /** A row of `server_incidents`; its identifier is its position. */
  datatype Incident = Incident(
    server: string, openedAt: int, closedAt: Option<int>, severity: Severity, profile: Option<(string, int)>)

  /** A row of `server_incident_transitions`; its identifier is its position. */
  datatype Transition = Transition(incident: nat, at: int, severity: Severity, causes: seq<Rule>)

  datatype Log = Log(incidents: seq<Incident>, transitions: seq<Transition>)

  const EMPTY_LOG := Log([], [])

  /** The result of one evaluation, as it reaches the log. */
  datatype Outcome = Outcome(
    server: string, at: int, severity: Severity, causes: seq<Rule>, profile: Option<(string, int)>)

  predicate WellFormed(o: Outcome) {
    o.severity == Healthy ==> o.causes == []
  }

  /** The open incident of a server. */
  function OpenIncident(incidents: seq<Incident>, server: string): (i: Option<nat>)
    ensures i.Some? ==>
      i.value < |incidents| && incidents[i.value].server == server && incidents[i.value].closedAt.None?
    ensures i.None? ==>
      forall k :: 0 <= k < |incidents| && incidents[k].server == server ==> incidents[k].closedAt.Some?
  {
    if incidents == [] then None
    else
      var last := incidents[|incidents| - 1];
      if last.server == server && last.closedAt.None? then Some(|incidents| - 1)
      else OpenIncident(incidents[..|incidents| - 1], server)
  }

  /** The transitions of an incident, oldest first. */
  function TransitionsOf(transitions: seq<Transition>, incident: nat): (out: seq<Transition>)
    ensures forall t :: t in out ==> t.incident == incident
  {
    if transitions == [] then []
    else
      var last := transitions[|transitions| - 1];
      TransitionsOf(transitions[..|transitions| - 1], incident) + if last.incident == incident then [last] else []
  }

  /** What the log holds after one more evaluation. */
  function Record(log: Log, o: Outcome): Log {
    var open := OpenIncident(log.incidents, o.server);
    if open.None? then
      if o.severity == Healthy then log
      else Log(log.incidents + [Incident(o.server, o.at, None, o.severity, o.profile)],
               log.transitions + [Transition(|log.incidents|, o.at, o.severity, o.causes)])
    else
      var i := open.value;
      var written := TransitionsOf(log.transitions, i);
      if written != [] && written[|written| - 1].severity == o.severity && written[|written| - 1].causes == o.causes
         && o.severity != Healthy then log
      else Log(log.incidents[i := log.incidents[i].(severity := o.severity,
                                                    closedAt := if o.severity == Healthy then Some(o.at) else None)],
               log.transitions + [Transition(i, o.at, o.severity, if o.severity == Healthy then [] else o.causes)])
  }

  function Replay(outcomes: seq<Outcome>): Log {
    if outcomes == [] then EMPTY_LOG
    else Record(Replay(outcomes[..|outcomes| - 1]), outcomes[|outcomes| - 1])
  }

  lemma {:induction false} ReplayGrows(outcomes: seq<Outcome>, o: Outcome)
    ensures Replay(outcomes + [o]) == Record(Replay(outcomes), o)
  {
    assert (outcomes + [o])[..|outcomes|] == outcomes;
  }

  // ---- the declarative history of one server ----

  function ForServer(outcomes: seq<Outcome>, server: string): (out: seq<Outcome>)
    ensures forall o :: o in out ==> o in outcomes && o.server == server
  {
    if outcomes == [] then []
    else
      var last := outcomes[|outcomes| - 1];
      ForServer(outcomes[..|outcomes| - 1], server) + if last.server == server then [last] else []
  }

  lemma {:induction false} ForServerGrows(outcomes: seq<Outcome>, o: Outcome, server: string)
    ensures ForServer(outcomes + [o], server) == ForServer(outcomes, server) + if o.server == server then [o] else []
  {
    assert (outcomes + [o])[..|outcomes|] == outcomes;
  }

  datatype Mark = Mark(at: int, severity: Severity, causes: seq<Rule>)

  predicate SameMark(a: Outcome, b: Outcome) {
    a.severity == b.severity && a.causes == b.causes
  }

  /** The evaluations without consecutive repeats and without the leading Healthy ones. */
  function Destutter(e: seq<Outcome>): seq<Mark> {
    if e == [] then []
    else
      var before := Destutter(e[..|e| - 1]);
      var last := e[|e| - 1];
      if (if |e| == 1 then last.severity == Healthy else SameMark(e[|e| - 2], last)) then before
      else before + [Mark(last.at, last.severity, last.causes)]
  }

  /** The transitions of all incidents of a server, in the order they were written. */
  function ServerMarks(log: Log, server: string): seq<Mark>
    requires forall t :: t in log.transitions ==> t.incident < |log.incidents|
  {
    MarksOf(log.incidents, log.transitions, server)
  }

  function MarksOf(incidents: seq<Incident>, transitions: seq<Transition>, server: string): seq<Mark>
    requires forall t :: t in transitions ==> t.incident < |incidents|
  {
    if transitions == [] then []
    else
      var last := transitions[|transitions| - 1];
      MarksOf(incidents, transitions[..|transitions| - 1], server)
      + if incidents[last.incident].server == server then [Mark(last.at, last.severity, last.causes)] else []
  }

  /** Evaluations `a` to `b - 1` are away from Healthy and no longer stretch around them is. */
  ghost predicate IsMaximalBlock(e: seq<Outcome>, a: nat, b: nat) {
    && a < b <= |e|
    && (forall i :: a <= i < b ==> e[i].severity != Healthy)
    && (a > 0 ==> e[a - 1].severity == Healthy)
    && (b < |e| ==> e[b].severity == Healthy)
  }

  /** An evaluation away from Healthy that does not continue one. */
  predicate StartsBlock(e: seq<Outcome>, a: int) {
    0 <= a < |e| && e[a].severity != Healthy && (a > 0 ==> e[a - 1].severity == Healthy)
  }

  /** The first evaluations of the maximal blocks, oldest first. */
  function Starts(e: seq<Outcome>): seq<int> {
    if e == [] then []
    else Starts(e[..|e| - 1]) + if StartsBlock(e, |e| - 1) then [|e| - 1] else []
  }

  /** Where the stretch away from Healthy that contains `a` ends. */
  function End(e: seq<Outcome>, a: int): (b: int)
    requires 0 <= a < |e|
    ensures a < b <= |e|
    ensures forall i :: a < i < b ==> e[i].severity != Healthy
    ensures b < |e| ==> e[b].severity == Healthy
    decreases |e| - a
  {
    if a + 1 == |e| || e[a + 1].severity == Healthy then a + 1 else End(e, a + 1)
  }

  /** The listed starts are exactly the starts of maximal blocks, in order. */
  lemma {:induction false} StartsAreExact(e: seq<Outcome>)
    ensures forall a :: a in Starts(e) <==> StartsBlock(e, a)
    ensures forall k, l :: 0 <= k < l < |Starts(e)| ==> Starts(e)[k] < Starts(e)[l]
  {
    if e != [] {
      StartsAreExact(e[..|e| - 1]);
      forall a ensures a in Starts(e) <==> StartsBlock(e, a) {
        assert a != |e| - 1 ==> (StartsBlock(e, a) <==> StartsBlock(e[..|e| - 1], a));
      }
      var before := Starts(e[..|e| - 1]);
      forall k | 0 <= k < |before| ensures before[k] < |e| - 1 {
        assert before[k] in before;
      }
    }
  }

  /** The blocks are maximal and leave no evaluation away from Healthy out. */
  lemma {:induction false} BlocksCover(e: seq<Outcome>, i: nat) returns (a: nat)
    requires i < |e| && e[i].severity != Healthy
    ensures a in Starts(e) && a <= i < End(e, a) && IsMaximalBlock(e, a, End(e, a))
  {
    StartsAreExact(e);
    if StartsBlock(e, i) {
      a := i;
    } else {
      a := BlocksCover(e, i - 1);
    }
  }

  /** What the incident table shows of a server, without identifiers. */
  datatype Row = Row(openedAt: int, closedAt: Option<int>, severity: Severity, profile: Option<(string, int)>)

  function RowsOf(incidents: seq<Incident>, server: string): seq<Row> {
    if incidents == [] then []
    else
      var last := incidents[|incidents| - 1];
      RowsOf(incidents[..|incidents| - 1], server)
      + if last.server == server then [Row(last.openedAt, last.closedAt, last.severity, last.profile)] else []
  }

  /** The row a block stands for: opened with its first evaluation, closed by the Healthy one after it. */
  function RowOf(e: seq<Outcome>, a: int): Row
    requires 0 <= a < |e|
  {
    var b := End(e, a);
    if b < |e| then Row(e[a].at, Some(e[b].at), Healthy, e[a].profile)
    else Row(e[a].at, None, e[b - 1].severity, e[a].profile)
  }

  /** Whether the rows are those of the maximal blocks, one each, in order. */
  ghost predicate RowsMatch(e: seq<Outcome>, rows: seq<Row>) {
    var starts := Starts(e);
    |rows| == |starts| && forall k :: 0 <= k < |rows| ==> 0 <= starts[k] < |e| && rows[k] == RowOf(e, starts[k])
  }

  // ---- the log keeps to the history ----

  ghost predicate References(log: Log) {
    forall t :: t in log.transitions ==> t.incident < |log.incidents|
  }

  /** The log and the history of one server agree. */
  ghost predicate Tracks(log: Log, e: seq<Outcome>, server: string) {
    var open := OpenIncident(log.incidents, server);
    && References(log)
    && (forall o :: o in e ==> WellFormed(o))
    && ServerMarks(log, server) == Destutter(e)
    && RowsMatch(e, RowsOf(log.incidents, server))
    && (open.Some? <==> e != [] && e[|e| - 1].severity != Healthy)
    && (open.Some? ==> OpenMatches(log, open.value, e[|e| - 1]))
  }

  /** The open incident is the server's latest, and its last transition shows the last evaluation. */
  ghost predicate OpenMatches(log: Log, i: nat, last: Outcome)
    requires i < |log.incidents|
  {
    var written := TransitionsOf(log.transitions, i);
    && written != []
    && written[|written| - 1].severity == last.severity == log.incidents[i].severity
    && written[|written| - 1].causes == last.causes
    && LatestAndOnlyOpen(log.incidents, i)
  }

  ghost predicate LatestAndOnlyOpen(incidents: seq<Incident>, i: nat)
    requires i < |incidents|
  {
    && (forall k :: i < k < |incidents| ==> incidents[k].server != incidents[i].server)
    && (forall k :: 0 <= k < i && incidents[k].server == incidents[i].server ==> incidents[k].closedAt.Some?)
  }

  lemma {:induction false} MarksReadServersOnly(a: seq<Incident>, b: seq<Incident>, ts: seq<Transition>, server: string)
    requires |a| <= |b| && forall k :: 0 <= k < |a| ==> a[k].server == b[k].server
    requires forall t :: t in ts ==> t.incident < |a|
    ensures MarksOf(a, ts, server) == MarksOf(b, ts, server)
  {
    if ts != [] {
      MarksReadServersOnly(a, b, ts[..|ts| - 1], server);
    }
  }

  lemma {:induction false} UpdateOpenRow(incidents: seq<Incident>, i: nat, row: Incident, server: string)
    requires i < |incidents| && incidents[i].server == row.server
    requires forall k :: i < k < |incidents| ==> incidents[k].server != row.server
    ensures server != row.server ==> RowsOf(incidents[i := row], server) == RowsOf(incidents, server)
    ensures server == row.server ==>
              && RowsOf(incidents, server) != []
              && RowsOf(incidents[i := row], server) ==
                 RowsOf(incidents, server)[..|RowsOf(incidents, server)| - 1]
                 + [Row(row.openedAt, row.closedAt, row.severity, row.profile)]
  {
    var n := |incidents| - 1;
    if i == n {
      assert incidents[i := row][..n] == incidents[..n];
    } else {
      UpdateOpenRow(incidents[..n], i, row, server);
      assert incidents[i := row][..n] == incidents[..n][i := row];
      assert incidents[i := row][n] == incidents[n];
    }
  }

  lemma {:induction false} OpenAfterUpdate(incidents: seq<Incident>, i: nat, row: Incident, server: string)
    requires i < |incidents| && incidents[i].server == row.server && LatestAndOnlyOpen(incidents, i)
    ensures server != row.server ==> OpenIncident(incidents[i := row], server) == OpenIncident(incidents, server)
    ensures server == row.server ==>
              OpenIncident(incidents[i := row], server) == if row.closedAt.None? then Some(i) else None
  {
    var n := |incidents| - 1;
    if i == n {
      assert incidents[i := row][..n] == incidents[..n];
    } else {
      assert incidents[i := row][..n] == incidents[..n][i := row];
      OpenAfterUpdate(incidents[..n], i, row, server);
    }
  }

  // ---- one evaluation at a time ----

  lemma {:induction false} DestutterGrows(e: seq<Outcome>, o: Outcome)
    ensures Destutter(e + [o]) ==
            if (if e == [] then o.severity == Healthy else SameMark(e[|e| - 1], o)) then Destutter(e)
            else Destutter(e) + [Mark(o.at, o.severity, o.causes)]
  {
    assert (e + [o])[..|e|] == e;
  }

  lemma {:induction false} StartsGrow(e: seq<Outcome>, o: Outcome)
    ensures Starts(e + [o]) ==
            if o.severity != Healthy && (e == [] || e[|e| - 1].severity == Healthy) then Starts(e) + [|e|]
            else Starts(e)
  {
    assert (e + [o])[..|e|] == e;
  }

  lemma {:induction false} EndGrows(e: seq<Outcome>, o: Outcome, a: int)
    requires 0 <= a < |e|
    ensures End(e + [o], a) ==
            if End(e, a) < |e| || o.severity == Healthy then End(e, a) else |e| + 1
    decreases |e| - a
  {
    if a + 1 < |e| {
      EndGrows(e, o, a + 1);
    }
  }

  /** All blocks but the last have ended, and the last one has unless the history ends away from Healthy. */
  lemma {:induction false} BlocksEnd(e: seq<Outcome>, k: nat)
    requires k < |Starts(e)|
    ensures 0 <= Starts(e)[k] < |e|
    ensures End(e, Starts(e)[k]) == |e| <==> k == |Starts(e)| - 1 && e[|e| - 1].severity != Healthy
  {
    StartsAreExact(e);
    var a := Starts(e)[k];
    assert a in Starts(e);
    if k < |Starts(e)| - 1 {
      var next := Starts(e)[k + 1];
      assert next in Starts(e);
      assert End(e, a) <= next - 1;
    } else if e[|e| - 1].severity != Healthy {
      var b := BlocksCover(e, |e| - 1);
      var l :| 0 <= l < |Starts(e)| && Starts(e)[l] == b;
      assert End(e, b) == |e|;
    }
  }

  /** Opening an incident of another server. */
  lemma OtherServerOpens(log: Log, e: seq<Outcome>, server: string, row: Incident, t: Transition)
    requires Tracks(log, e, server) && row.server != server && t.incident == |log.incidents|
    ensures Tracks(Log(log.incidents + [row], log.transitions + [t]), e, server)
  {
    var next := Log(log.incidents + [row], log.transitions + [t]);
    OtherRowsStay(log, row, t, server);
    assert OpenIncident(log.incidents, server).Some? ==>
      TransitionsOf(next.transitions, OpenIncident(log.incidents, server).value)
      == TransitionsOf(log.transitions, OpenIncident(log.incidents, server).value) by {
      assert next.transitions[..|log.transitions|] == log.transitions;
    }
  }

  lemma {:induction false} OtherRowsStay(log: Log, row: Incident, t: Transition, server: string)
    requires References(log) && row.server != server && t.incident == |log.incidents|
    ensures OpenIncident(log.incidents + [row], server) == OpenIncident(log.incidents, server)
    ensures RowsOf(log.incidents + [row], server) == RowsOf(log.incidents, server)
    ensures MarksOf(log.incidents + [row], log.transitions + [t], server) == ServerMarks(log, server)
  {
    assert (log.incidents + [row])[..|log.incidents|] == log.incidents;
    assert (log.transitions + [t])[..|log.transitions|] == log.transitions;
    MarksReadServersOnly(log.incidents, log.incidents + [row], log.transitions, server);
  }

  /** Writing a transition of another server's open incident. */
  lemma OtherServerWrites(log: Log, e: seq<Outcome>, server: string, i: nat, row: Incident, t: Transition)
    requires Tracks(log, e, server) && i < |log.incidents| && row.server == log.incidents[i].server != server
    requires LatestAndOnlyOpen(log.incidents, i) && t.incident == i
    ensures Tracks(Log(log.incidents[i := row], log.transitions + [t]), e, server)
  {
    OtherRowsStayWritten(log, server, i, row, t);
    var next, open := Log(log.incidents[i := row], log.transitions + [t]), OpenIncident(log.incidents, server);
    if open.Some? {
      assert next.transitions[..|log.transitions|] == log.transitions;
      assert TransitionsOf(next.transitions, open.value) == TransitionsOf(log.transitions, open.value);
    }
  }

  lemma {:induction false} OtherRowsStayWritten(log: Log, server: string, i: nat, row: Incident, t: Transition)
    requires References(log) && i < |log.incidents| && row.server == log.incidents[i].server != server
    requires LatestAndOnlyOpen(log.incidents, i) && t.incident == i
    ensures OpenIncident(log.incidents[i := row], server) == OpenIncident(log.incidents, server)
    ensures RowsOf(log.incidents[i := row], server) == RowsOf(log.incidents, server)
    ensures MarksOf(log.incidents[i := row], log.transitions + [t], server) == ServerMarks(log, server)
  {
    assert (log.transitions + [t])[..|log.transitions|] == log.transitions;
    MarksReadServersOnly(log.incidents, log.incidents[i := row], log.transitions, server);
    UpdateOpenRow(log.incidents, i, row, server);
    OpenAfterUpdate(log.incidents, i, row, server);
  }

  /** An evaluation of another server changes nothing this server's part of the log shows. */
  lemma OtherServerKeepsTrack(log: Log, e: seq<Outcome>, server: string, o: Outcome, f: seq<Outcome>)
    requires Tracks(log, e, server) && o.server != server
    requires Tracks(log, f, o.server)
    ensures Tracks(Record(log, o), e, server)
  {
    var next := Record(log, o);
    var open := OpenIncident(log.incidents, o.server);
    if next != log {
      var t := next.transitions[|log.transitions|];
      if open.None? {
        OtherServerOpens(log, e, server, next.incidents[|log.incidents|], t);
      } else {
        OtherServerWrites(log, e, server, open.value, next.incidents[open.value], t);
      }
    }
  }

  lemma {:induction false} NoTransitionsYet(transitions: seq<Transition>, i: nat)
    requires forall t :: t in transitions ==> t.incident < i
    ensures TransitionsOf(transitions, i) == []
  {
    if transitions != [] {
      NoTransitionsYet(transitions[..|transitions| - 1], i);
    }
  }

  /** A new row is its server's latest and only open one, with one transition. */
  lemma {:induction false} NewIncidentIsOpen(incidents: seq<Incident>, transitions: seq<Transition>,
                                             row: Incident, t: Transition)
    requires forall u :: u in transitions ==> u.incident < |incidents|
    requires OpenIncident(incidents, row.server).None? && row.closedAt.None? && t.incident == |incidents|
    ensures OpenIncident(incidents + [row], row.server) == Some(|incidents|)
    ensures LatestAndOnlyOpen(incidents + [row], |incidents|)
    ensures TransitionsOf(transitions + [t], |incidents|) == [t]
    ensures RowsOf(incidents + [row], row.server) ==
            RowsOf(incidents, row.server) + [Row(row.openedAt, row.closedAt, row.severity, row.profile)]
  {
    assert (incidents + [row])[..|incidents|] == incidents;
    assert (transitions + [t])[..|transitions|] == transitions;
    NoTransitionsYet(transitions, |incidents|);
  }

  /** A first evaluation away from Healthy opens an incident for the new block. */
  lemma OpeningKeepsTrack(log: Log, e: seq<Outcome>, o: Outcome)
    requires Tracks(log, e, o.server) && o.severity != Healthy
    requires OpenIncident(log.incidents, o.server).None?
    ensures Tracks(Record(log, o), e + [o], o.server)
  {
    var row := Incident(o.server, o.at, None, o.severity, o.profile);
    var t := Transition(|log.incidents|, o.at, o.severity, o.causes);
    NewIncidentIsOpen(log.incidents, log.transitions, row, t);
    OpeningMarks(log, e, o, row, t);
    OpeningRows(log, e, o, row);
  }

  lemma {:induction false} OpeningMarks(log: Log, e: seq<Outcome>, o: Outcome, row: Incident, t: Transition)
    requires References(log) && ServerMarks(log, o.server) == Destutter(e)
    requires o.severity != Healthy && (e == [] || e[|e| - 1].severity == Healthy)
    requires row.server == o.server && t == Transition(|log.incidents|, o.at, o.severity, o.causes)
    ensures References(Log(log.incidents + [row], log.transitions + [t]))
    ensures ServerMarks(Log(log.incidents + [row], log.transitions + [t]), o.server) == Destutter(e + [o])
  {
    AddedMark(log, log.incidents + [row], t, o.server);
    DestutterGrows(e, o);
  }

  lemma OpeningRows(log: Log, e: seq<Outcome>, o: Outcome, row: Incident)
    requires RowsMatch(e, RowsOf(log.incidents, o.server))
    requires o.severity != Healthy && (e == [] || e[|e| - 1].severity == Healthy)
    requires row == Incident(o.server, o.at, None, o.severity, o.profile)
    ensures RowsMatch(e + [o], RowsOf(log.incidents + [row], o.server))
  {
    assert (log.incidents + [row])[..|log.incidents|] == log.incidents;
    RowsAppend(e, o, RowsOf(log.incidents, o.server));
  }

  /** A new block adds a row. */
  lemma RowsAppend(e: seq<Outcome>, o: Outcome, rows: seq<Row>)
    requires o.severity != Healthy && (e == [] || e[|e| - 1].severity == Healthy)
    requires RowsMatch(e, rows)
    ensures RowsMatch(e + [o], rows + [Row(o.at, None, o.severity, o.profile)])
  {
    StartsGrow(e, o);
    forall k | 0 <= k < |rows| ensures RowOf(e + [o], Starts(e)[k]) == RowOf(e, Starts(e)[k]) {
      BlocksEnd(e, k);
      EndGrows(e, o, Starts(e)[k]);
    }
  }

  /** A Healthy evaluation outside every block adds none. */
  lemma RowsStay(e: seq<Outcome>, o: Outcome, rows: seq<Row>)
    requires o.severity == Healthy && (e == [] || e[|e| - 1].severity == Healthy)
    requires RowsMatch(e, rows)
    ensures RowsMatch(e + [o], rows)
  {
    StartsGrow(e, o);
    forall k | 0 <= k < |rows| ensures RowOf(e + [o], Starts(e)[k]) == RowOf(e, Starts(e)[k]) {
      BlocksEnd(e, k);
      EndGrows(e, o, Starts(e)[k]);
    }
  }

  /** Inside a block the last row follows the evaluation. */
  lemma RowsChangeLast(e: seq<Outcome>, o: Outcome, rows: seq<Row>)
    requires e != [] && e[|e| - 1].severity != Healthy
    requires RowsMatch(e, rows)
    ensures rows != []
    ensures var last := rows[|rows| - 1];
            var closedAt := if o.severity == Healthy then Some(o.at) else None;
            RowsMatch(e + [o], rows[..|rows| - 1] + [Row(last.openedAt, closedAt, o.severity, last.profile)])
  {
    StartsGrow(e, o);
    var a := BlocksCover(e, |e| - 1);
    forall k | 0 <= k < |rows|
      ensures End(e + [o], Starts(e)[k]) ==
              if k < |rows| - 1 || o.severity == Healthy then End(e, Starts(e)[k]) else |e| + 1
      ensures k < |rows| - 1 ==> End(e, Starts(e)[k]) < |e|
      ensures k == |rows| - 1 ==> End(e, Starts(e)[k]) == |e|
    {
      EndMoves(e, o, k);
    }
  }

  /** Only the end of the last block moves, unless the evaluation is Healthy. */
  lemma {:induction false} EndMoves(e: seq<Outcome>, o: Outcome, k: nat)
    requires e != [] && e[|e| - 1].severity != Healthy && k < |Starts(e)|
    ensures 0 <= Starts(e)[k] < |e|
    ensures End(e + [o], Starts(e)[k]) ==
            if k < |Starts(e)| - 1 || o.severity == Healthy then End(e, Starts(e)[k]) else |e| + 1
    ensures End(e, Starts(e)[k]) == |e| <==> k == |Starts(e)| - 1
  {
    BlocksEnd(e, k);
    EndGrows(e, o, Starts(e)[k]);
  }

  /** A repeated Healthy evaluation leaves no trace. */
  lemma HealthyKeepsTrack(log: Log, e: seq<Outcome>, o: Outcome)
    requires Tracks(log, e, o.server) && o.severity == Healthy && WellFormed(o)
    requires OpenIncident(log.incidents, o.server).None?
    ensures Tracks(Record(log, o), e + [o], o.server)
  {
    DestutterGrows(e, o);
    RowsStay(e, o, RowsOf(log.incidents, o.server));
    assert e != [] ==> e[|e| - 1] in e;
  }

  /** An evaluation that repeats the one before leaves no trace. */
  lemma RepeatKeepsTrack(log: Log, e: seq<Outcome>, o: Outcome)
    requires Tracks(log, e, o.server) && WellFormed(o)
    requires OpenIncident(log.incidents, o.server).Some? && SameMark(e[|e| - 1], o)
    ensures Record(log, o) == log
    ensures Tracks(log, e + [o], o.server)
  {
    var i := OpenIncident(log.incidents, o.server).value;
    DestutterGrows(e, o);
    RowsChangeLast(e, o, RowsOf(log.incidents, o.server));
    UpdateOpenRow(log.incidents, i, log.incidents[i], o.server);
    assert log.incidents[i := log.incidents[i]] == log.incidents;
  }

  function Rewritten(row: Incident, o: Outcome): Incident {
    row.(severity := o.severity, closedAt := if o.severity == Healthy then Some(o.at) else None)
  }

  lemma {:induction false} RewrittenRows(incidents: seq<Incident>, i: nat, e: seq<Outcome>, o: Outcome)
    requires i < |incidents| && incidents[i].server == o.server && LatestAndOnlyOpen(incidents, i)
    requires e != [] && e[|e| - 1].severity != Healthy
    requires RowsMatch(e, RowsOf(incidents, o.server))
    ensures RowsMatch(e + [o], RowsOf(incidents[i := Rewritten(incidents[i], o)], o.server))
  {
    var row := incidents[i];
    RowsChangeLast(e, o, RowsOf(incidents, o.server));
    UpdateOpenRow(incidents, i, row, o.server);
    assert incidents[i := row] == incidents;
    UpdateOpenRow(incidents, i, Rewritten(row, o), o.server);
  }

  lemma {:induction false} AddedMark(log: Log, incidents: seq<Incident>, t: Transition, server: string)
    requires References(log) && |log.incidents| <= |incidents| && t.incident < |incidents|
    requires forall k :: 0 <= k < |log.incidents| ==> log.incidents[k].server == incidents[k].server
    requires incidents[t.incident].server == server
    ensures MarksOf(incidents, log.transitions + [t], server) ==
            ServerMarks(log, server) + [Mark(t.at, t.severity, t.causes)]
  {
    assert (log.transitions + [t])[..|log.transitions|] == log.transitions;
    MarksReadServersOnly(log.incidents, incidents, log.transitions, server);
  }

  /** A changed evaluation during an open incident is written to it. */
  lemma ChangeKeepsTrack(log: Log, e: seq<Outcome>, o: Outcome)
    requires Tracks(log, e, o.server) && WellFormed(o)
    requires OpenIncident(log.incidents, o.server).Some? && !SameMark(e[|e| - 1], o)
    ensures Tracks(Record(log, o), e + [o], o.server)
  {
    var i := OpenIncident(log.incidents, o.server).value;
    assert Record(log, o) == Changed(log, i, o);
    ChangeMarks(log, e, o, i);
    RewrittenRows(log.incidents, i, e, o);
    ChangeOpens(log, o, i);
  }

  function Changed(log: Log, i: nat, o: Outcome): Log
    requires i < |log.incidents|
  {
    Log(log.incidents[i := Rewritten(log.incidents[i], o)],
        log.transitions + [Transition(i, o.at, o.severity, o.causes)])
  }

  lemma {:induction false} ChangeMarks(log: Log, e: seq<Outcome>, o: Outcome, i: nat)
    requires References(log) && ServerMarks(log, o.server) == Destutter(e)
    requires i < |log.incidents| && log.incidents[i].server == o.server
    requires e != [] && !SameMark(e[|e| - 1], o)
    ensures References(Changed(log, i, o)) && ServerMarks(Changed(log, i, o), o.server) == Destutter(e + [o])
  {
    AddedMark(log, Changed(log, i, o).incidents, Transition(i, o.at, o.severity, o.causes), o.server);
    DestutterGrows(e, o);
  }

  lemma {:induction false} ChangeOpens(log: Log, o: Outcome, i: nat)
    requires i < |log.incidents| && log.incidents[i].server == o.server && LatestAndOnlyOpen(log.incidents, i)
    ensures var next := Changed(log, i, o);
            && OpenIncident(next.incidents, o.server) == (if o.severity == Healthy then None else Some(i))
            && OpenMatches(next, i, o)
  {
    var next := Changed(log, i, o);
    OpenAfterUpdate(log.incidents, i, Rewritten(log.incidents[i], o), o.server);
    assert next.transitions[..|log.transitions|] == log.transitions;
  }

  /** One evaluation keeps the log and the history of every server in agreement. */
  lemma RecordKeepsTrack(log: Log, e: seq<Outcome>, o: Outcome)
    requires Tracks(log, e, o.server) && WellFormed(o)
    ensures Tracks(Record(log, o), e + [o], o.server)
  {
    if OpenIncident(log.incidents, o.server).None? {
      if o.severity == Healthy { HealthyKeepsTrack(log, e, o); } else { OpeningKeepsTrack(log, e, o); }
    } else if SameMark(e[|e| - 1], o) {
      RepeatKeepsTrack(log, e, o);
    } else {
      ChangeKeepsTrack(log, e, o);
    }
  }

  /** The log of any run agrees with the history of any server. */
  lemma {:induction false} ReplayTracks(outcomes: seq<Outcome>, server: string)
    requires forall o :: o in outcomes ==> WellFormed(o)
    ensures Tracks(Replay(outcomes), ForServer(outcomes, server), server)
    decreases |outcomes|
  {
    if outcomes != [] {
      var before, o := outcomes[..|outcomes| - 1], outcomes[|outcomes| - 1];
      ReplayTracks(before, server);
      if o.server == server {
        RecordKeepsTrack(Replay(before), ForServer(before, server), o);
      } else {
        ReplayTracks(before, o.server);
        OtherServerKeepsTrack(Replay(before), ForServer(before, server), server, o, ForServer(before, o.server));
        assert ForServer(outcomes, server) == ForServer(before, server);
      }
    }
  }

  /** Whatever the interleaving of servers: the transitions written for a server are its evaluations
      without repeats and without the leading Healthy ones. */
  lemma {:induction false} TransitionsAreStutterFree(outcomes: seq<Outcome>, server: string)
    requires forall o :: o in outcomes ==> WellFormed(o)
    ensures References(Replay(outcomes))
    ensures ServerMarks(Replay(outcomes), server) == Destutter(ForServer(outcomes, server))
  {
    ReplayTracks(outcomes, server);
  }

  /** The incidents of a server are, one for one, its maximal blocks away from Healthy. */
  lemma {:induction false} IncidentsAreBlocks(outcomes: seq<Outcome>, server: string)
    requires forall o :: o in outcomes ==> WellFormed(o)
    ensures RowsMatch(ForServer(outcomes, server), RowsOf(Replay(outcomes).incidents, server))
  {
    ReplayTracks(outcomes, server);
  }

  /** An incident is open exactly while the server is away from Healthy. */
  lemma {:induction false} OpenExactlyWhileUnhealthy(outcomes: seq<Outcome>, server: string)
    requires forall o :: o in outcomes ==> WellFormed(o)
    ensures var e := ForServer(outcomes, server);
            OpenIncident(Replay(outcomes).incidents, server).Some? <==> e != [] && e[|e| - 1].severity != Healthy
  {
    ReplayTracks(outcomes, server);
  }

  // ---- one incident ----

  /** The transitions of an incident: it never repeats itself, only the last may be Healthy, and the
      incident shows the last one and is closed by Healthy alone. */
  ghost predicate IncidentConsistent(log: Log, i: nat)
    requires i < |log.incidents|
  {
    var ts := TransitionsOf(log.transitions, i);
    var row := log.incidents[i];
    && ts != []
    && row.openedAt == ts[0].at
    && row.severity == ts[|ts| - 1].severity
    && (forall k :: 0 <= k < |ts| - 1 ==> ts[k].severity != Healthy)
    && (forall k :: 0 <= k < |ts| - 1 ==> ts[k].severity != ts[k + 1].severity || ts[k].causes != ts[k + 1].causes)
    && (row.closedAt == if row.severity == Healthy then Some(ts[|ts| - 1].at) else None)
  }

  ghost predicate Consistent(log: Log) {
    && References(log)
    && forall i :: 0 <= i < |log.incidents| ==> IncidentConsistent(log, i)
  }

  lemma RecordKeepsIncident(log: Log, o: Outcome, i: nat)
    requires Consistent(log) && i < |Record(log, o).incidents|
    ensures IncidentConsistent(Record(log, o), i)
  {
    var next := Record(log, o);
    if next != log {
      assert next.transitions[..|log.transitions|] == log.transitions;
      if i == |log.incidents| {
        NoTransitionsYet(log.transitions, i);
      } else if OpenIncident(log.incidents, o.server) == Some(i) {
        UpdateKeepsIncident(log, o, i);
      } else {
        assert IncidentConsistent(log, i);
        assert next.incidents[i] == log.incidents[i];
        assert TransitionsOf(next.transitions, i) == TransitionsOf(log.transitions, i);
      }
    }
  }

  lemma UpdateKeepsIncident(log: Log, o: Outcome, i: nat)
    requires i < |log.incidents| && IncidentConsistent(log, i) && OpenIncident(log.incidents, o.server) == Some(i)
    ensures IncidentConsistent(Record(log, o), i)
  {
    var next := Record(log, o);
    if next != log {
      assert next.transitions[..|log.transitions|] == log.transitions;
    }
  }

  /** Every incident of every reachable log is consistent with its transitions. */
  lemma {:induction false} ReplayIsConsistent(outcomes: seq<Outcome>)
    ensures Consistent(Replay(outcomes))
  {
    if outcomes != [] {
      var before, o := outcomes[..|outcomes| - 1], outcomes[|outcomes| - 1];
      ReplayIsConsistent(before);
      forall i | 0 <= i < |Replay(outcomes).incidents| ensures IncidentConsistent(Replay(outcomes), i) {
        RecordKeepsIncident(Replay(before), o, i);
      }
    }
  }
}

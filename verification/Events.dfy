/**
 Persist-first emission of critical events and their replay, over a bus that may refuse any
 publication and a process that may stop between any two steps.
 */
module Events {
  import opened Common

  type EventId = nat

  datatype Json = Flag(value: bool) | Other(text: string)
  type Payload = map<string, Json>

  const REPLAY_MARKER_KEY := "__replay__"

  datatype Row = Row(topic: string, payload: Payload, emittedAt: int, acknowledgedAt: Option<int>, isCritical: bool)

  datatype Origin = Ephemeral | Original | Replay
  datatype Publication = Publication(origin: Origin, id: EventId, topic: string, payload: Payload)

  /**
   `log` survives a crash. `unsent` are the emissions committed but not yet handed to the bus,
   `pending` the rows the current reconciler run has selected and not yet replayed. `bus` and
   `attempted` record what was published and which replays were tried.
   */
  datatype State = State(log: map<EventId, Row>, unsent: set<EventId>, pending: seq<EventId>,
                         bus: seq<Publication>, attempted: seq<EventId>)

  const INITIAL := State(map[], {}, [], [], [])

  /** What one run of the reconciler selects. */
  predicate Candidate(log: map<EventId, Row>, cutoff: int, id: EventId)
  {
    id in log && log[id].isCritical && log[id].acknowledgedAt.None? && log[id].emittedAt < cutoff
  }

  function Candidates(log: map<EventId, Row>, cutoff: int): set<EventId>
  {
    set id | id in log && Candidate(log, cutoff, id)
  }

  function Marked(payload: Payload): Payload
  {
    payload[REPLAY_MARKER_KEY := Flag(true)]
  }

  ghost predicate Lists(s: seq<EventId>, ids: set<EventId>)
  {
    (forall i, j :: 0 <= i < j < |s| ==> s[i] != s[j]) && forall id :: id in s <==> id in ids
  }

  datatype Step =
    | Persist(id: EventId, topic: string, payload: Payload, now: int)
    | Publish(id: EventId, accepted: bool)
    | Emit(id: EventId, topic: string, payload: Payload, accepted: bool)
    | Acknowledge(id: EventId, now: int)
    | Select(cutoff: int, rows: seq<EventId>)
    | ReplayNext(accepted: bool)
    | Crash

  /** Generated ids are fresh, the query returns its rows in some order, a run ends before the next one. */
  ghost predicate Enabled(s: State, step: Step)
  {
    match step
    case Persist(id, _, _, _) => id !in s.log
    case Publish(id, _) => id in s.unsent && id in s.log
    case Emit(id, _, _, _) => id !in s.log
    case Select(cutoff, rows) => s.pending == [] && Lists(rows, Candidates(s.log, cutoff))
    case ReplayNext(_) => s.pending != [] && s.pending[0] in s.log
    case Acknowledge(_, _) => true
    case Crash => true
  }

  ghost function Next(s: State, step: Step): State
    requires Enabled(s, step)
  {
    match step
    case Persist(id, topic, payload, now) =>
      s.(log := s.log[id := Row(topic, payload, now, None, true)], unsent := s.unsent + {id})
    case Publish(id, accepted) =>
      var row := s.log[id];
      s.(unsent := s.unsent - {id},
         bus := if accepted then s.bus + [Publication(Original, id, row.topic, row.payload)] else s.bus)
    case Emit(id, topic, payload, accepted) =>
      s.(bus := if accepted then s.bus + [Publication(Ephemeral, id, topic, payload)] else s.bus)
    case Acknowledge(id, now) =>
      if id in s.log && s.log[id].acknowledgedAt.None?
      then s.(log := s.log[id := s.log[id].(acknowledgedAt := Some(now))]) else s
    case Select(cutoff, rows) => s.(pending := rows)
    case ReplayNext(accepted) =>
      var id := s.pending[0];
      var row := s.log[id];
      s.(pending := s.pending[1..], attempted := s.attempted + [id],
         bus := if accepted then s.bus + [Publication(Replay, id, row.topic, Marked(row.payload))] else s.bus)
    case Crash => s.(unsent := {}, pending := [])
  }

  ghost predicate Possible(s: State, steps: seq<Step>)
    decreases steps
  {
    steps == [] || (Enabled(s, steps[0]) && Possible(Next(s, steps[0]), steps[1..]))
  }

  ghost function After(s: State, steps: seq<Step>): State
    requires Possible(s, steps)
    decreases steps
  {
    if steps == [] then s else After(Next(s, steps[0]), steps[1..])
  }

  lemma {:induction false} AfterAppend(s: State, steps: seq<Step>, step: Step)
    requires Possible(s, steps) && Enabled(After(s, steps), step)
    ensures Possible(s, steps + [step]) && After(s, steps + [step]) == Next(After(s, steps), step)
    decreases steps
  {
    if steps == [] {
      assert [step][1..] == [];
      assert [] + [step] == [step];
    } else {
      assert (steps + [step])[1..] == steps[1..] + [step];
      AfterAppend(Next(s, steps[0]), steps[1..], step);
    }
  }

  /////////////////////////////////////////////////////////////////////////////
  // Persist first
  /////////////////////////////////////////////////////////////////////////////

  /** A publication of a critical event repeats its row: same topic, same payload, marker on replays. */
  ghost predicate FromRow(p: Publication, log: map<EventId, Row>)
  {
    && p.id in log
    && p.topic == log[p.id].topic
    && (p.origin == Replay ==> MarkedCopy(p.payload, log[p.id].payload))
    && (p.origin != Replay ==> p.payload == log[p.id].payload)
  }

  /** The payload with the marker set and every other key as it was logged. */
  ghost predicate MarkedCopy(payload: Payload, logged: Payload)
  {
    && payload.Keys == logged.Keys + {"__replay__"}
    && payload["__replay__"] == Flag(true)
    && forall k :: k in logged && k != "__replay__" ==> payload[k] == logged[k]
  }

  /** An accepted replay puts the logged event on the bus, marked. */
  lemma ReplayCarriesPayload(s: State)
    requires Enabled(s, ReplayNext(true))
    ensures var id, bus := s.pending[0], Next(s, ReplayNext(true)).bus;
            && |bus| == |s.bus| + 1 && bus[..|s.bus|] == s.bus
            && bus[|s.bus|].origin == Replay && bus[|s.bus|].id == id && bus[|s.bus|].topic == s.log[id].topic
            && MarkedCopy(bus[|s.bus|].payload, s.log[id].payload)
  {
  }

  ghost predicate PersistFirst(s: State)
  {
    && (forall p :: p in s.bus && p.origin != Ephemeral ==> FromRow(p, s.log))
    && (forall id :: id in s.pending ==> id in s.log)
    && s.unsent <= s.log.Keys
  }

  /** An ephemeral event is published as given and leaves no row; a crash loses what was in memory and nothing else. */
  lemma EphemeralAndCrash(s: State, id: EventId, topic: string, payload: Payload, accepted: bool)
    requires Enabled(s, Emit(id, topic, payload, accepted))
    ensures var s' := Next(s, Emit(id, topic, payload, accepted));
            && s'.log == s.log && s'.pending == s.pending && s'.unsent == s.unsent
            && s'.bus == s.bus + if accepted then [Publication(Ephemeral, id, topic, payload)] else []
    ensures Next(s, Crash) == State(s.log, {}, [], s.bus, s.attempted)
  {
  }

  /** A step never removes a row or changes what was logged in it. */
  lemma RowsOnlyGainAcknowledgement(s: State, step: Step, id: EventId)
    requires Enabled(s, step) && id in s.log
    ensures id in Next(s, step).log
    ensures Next(s, step).log[id] == s.log[id].(acknowledgedAt := Next(s, step).log[id].acknowledgedAt)
    ensures s.log[id].acknowledgedAt.Some? ==> Next(s, step).log[id] == s.log[id]
    ensures (step.Acknowledge? && step.id == id) || Next(s, step).log[id] == s.log[id]
  {
  }

  lemma PersistFirstStep(s: State, step: Step)
    requires Enabled(s, step) && PersistFirst(s)
    ensures PersistFirst(Next(s, step))
  {
    var s' := Next(s, step);
    forall p | p in s'.bus && p.origin != Ephemeral ensures FromRow(p, s'.log) {
      if p in s.bus {
        RowsOnlyGainAcknowledgement(s, step, p.id);
      }
    }
  }

  /** In every state of every run, whatever critical event is on the bus was logged first. */
  lemma {:induction false} PublishedWasLogged(s: State, steps: seq<Step>)
    requires PersistFirst(s) && Possible(s, steps)
    ensures PersistFirst(After(s, steps))
    decreases steps
  {
    if steps != [] {
      PersistFirstStep(s, steps[0]);
      PublishedWasLogged(Next(s, steps[0]), steps[1..]);
    }
  }

  /////////////////////////////////////////////////////////////////////////////
  // At least once
  /////////////////////////////////////////////////////////////////////////////

  ghost predicate NeverAcknowledged(steps: seq<Step>, id: EventId)
  {
    forall i :: 0 <= i < |steps| && steps[i].Acknowledge? ==> steps[i].id != id
  }

  /** Until it is acknowledged, a logged critical event stays a candidate of every later run past its cutoff. */
  lemma {:induction false} UnacknowledgedStaysCandidate(s: State, steps: seq<Step>, id: EventId, cutoff: int)
    requires Possible(s, steps) && NeverAcknowledged(steps, id)
    requires Candidate(s.log, cutoff, id)
    ensures Candidate(After(s, steps).log, cutoff, id)
    decreases steps
  {
    if steps != [] {
      RowsOnlyGainAcknowledgement(s, steps[0], id);
      UnacknowledgedStaysCandidate(Next(s, steps[0]), steps[1..], id, cutoff);
    }
  }

  ghost predicate Undisturbed(steps: seq<Step>)
  {
    forall i :: 0 <= i < |steps| ==> !steps[i].Crash? && !steps[i].Select?
  }

  /**
   While a run is neither finished nor cut off, its selection is what was replayed plus what is
   pending, in order, whatever other steps happen in between.
   */
  lemma {:induction false} RunWorksThroughSelection(s: State, steps: seq<Step>)
    requires Possible(s, steps) && Undisturbed(steps)
    ensures After(s, steps).attempted + After(s, steps).pending == s.attempted + s.pending
    decreases steps
  {
    if steps != [] {
      var s' := Next(s, steps[0]);
      assert s'.attempted + s'.pending == s.attempted + s.pending;
      forall i | 0 <= i < |steps[1..]| ensures !steps[1..][i].Crash? && !steps[1..][i].Select? {
        assert steps[1..][i] == steps[i + 1];
      }
      RunWorksThroughSelection(s', steps[1..]);
    }
  }

  /** A run that reaches its end replayed exactly the rows it selected, each once. */
  lemma FinishedRunReplaysSelection(s: State, cutoff: int, rows: seq<EventId>, steps: seq<Step>)
    requires Enabled(s, Select(cutoff, rows)) && Possible(Next(s, Select(cutoff, rows)), steps) && Undisturbed(steps)
    requires After(Next(s, Select(cutoff, rows)), steps).pending == []
    ensures After(Next(s, Select(cutoff, rows)), steps).attempted == s.attempted + rows
    ensures Lists(rows, Candidates(s.log, cutoff))
  {
    RunWorksThroughSelection(Next(s, Select(cutoff, rows)), steps);
  }

  /**
   At least once: as long as nobody acknowledges it, a logged critical event is tried again by
   every run past its cutoff that reaches its end, whatever failures and crashes came before.
   */
  lemma UnacknowledgedIsRetried(s: State, steps: seq<Step>, id: EventId, cutoff: int, rows: seq<EventId>,
                                run: seq<Step>)
    requires Possible(s, steps) && NeverAcknowledged(steps, id) && Candidate(s.log, cutoff, id)
    requires Enabled(After(s, steps), Select(cutoff, rows)) && Undisturbed(run)
    requires Possible(Next(After(s, steps), Select(cutoff, rows)), run)
    requires After(Next(After(s, steps), Select(cutoff, rows)), run).pending == []
    ensures After(Next(After(s, steps), Select(cutoff, rows)), run).attempted == After(s, steps).attempted + rows
    ensures id in rows
  {
    UnacknowledgedStaysCandidate(s, steps, id, cutoff);
    FinishedRunReplaysSelection(After(s, steps), cutoff, rows, run);
  }

  /////////////////////////////////////////////////////////////////////////////
  // No replay after acknowledgement
  /////////////////////////////////////////////////////////////////////////////

  function ReplaysOf(bus: seq<Publication>, id: EventId): nat
  {
    if bus == [] then 0
    else
      ReplaysOf(bus[..|bus| - 1], id) +
      if bus[|bus| - 1].origin == Replay && bus[|bus| - 1].id == id then 1 else 0
  }

  lemma ReplaysUnchanged(s: State, step: Step, id: EventId)
    requires Enabled(s, step) && (step.ReplayNext? ==> s.pending[0] != id)
    ensures ReplaysOf(Next(s, step).bus, id) == ReplaysOf(s.bus, id)
  {
    var bus' := Next(s, step).bus;
    if bus' != s.bus {
      assert bus'[..|bus'| - 1] == s.bus;
    }
  }

  /** Once an event is acknowledged and not in the current selection, it is never replayed again. */
  lemma {:induction false} AcknowledgedIsNotReplayed(s: State, steps: seq<Step>, id: EventId)
    requires Possible(s, steps)
    requires id in s.log && s.log[id].acknowledgedAt.Some? && id !in s.pending
    ensures ReplaysOf(After(s, steps).bus, id) == ReplaysOf(s.bus, id)
    decreases steps
  {
    if steps != [] {
      RowsOnlyGainAcknowledgement(s, steps[0], id);
      ReplaysUnchanged(s, steps[0], id);
      AcknowledgedIsNotReplayed(Next(s, steps[0]), steps[1..], id);
    }
  }

  /** No run that starts after the acknowledgement replays the event. */
  lemma NoReplayFromLaterRuns(s: State, cutoff: int, rows: seq<EventId>, steps: seq<Step>, id: EventId)
    requires id in s.log && s.log[id].acknowledgedAt.Some?
    requires Enabled(s, Select(cutoff, rows)) && Possible(Next(s, Select(cutoff, rows)), steps)
    ensures ReplaysOf(After(Next(s, Select(cutoff, rows)), steps).bus, id) == ReplaysOf(s.bus, id)
  {
    AcknowledgedIsNotReplayed(Next(s, Select(cutoff, rows)), steps, id);
  }

  /////////////////////////////////////////////////////////////////////////////
  // The emitter and the reconciler
  /////////////////////////////////////////////////////////////////////////////

  class EventLog {
    var log: map<EventId, Row>
    var unsent: set<EventId>
    var pending: seq<EventId>
    var bus: seq<Publication>
    var attempted: seq<EventId>

    constructor ()
      ensures View() == INITIAL
    {
      log, unsent, pending, bus, attempted := map[], {}, [], [], [];
    }

    function View(): State
      reads this
    {
      State(log, unsent, pending, bus, attempted)
    }

    /** Commits the row, then publishes; a refused publication leaves the row to the reconciler. */
    method EmitCritical(id: EventId, topic: string, payload: Payload, now: int, accepted: bool)
      requires id !in log
      modifies this
      ensures var committed := Next(old(View()), Persist(id, topic, payload, now));
              View() == Next(committed, Publish(id, accepted))
      ensures id in log && Candidate(log, now + 1, id)
      ensures log == old(log)[id := Row(topic, payload, now, None, true)]
      ensures bus == old(bus) + if accepted then [Publication(Original, id, topic, payload)] else []
    {
      log := log[id := Row(topic, payload, now, None, true)];
      unsent := unsent + {id};
      if accepted {
        bus := bus + [Publication(Original, id, topic, payload)];
      }
      unsent := unsent - {id};
    }

    /** Returns whether a row was found that was not acknowledged before. */
    method AcknowledgeEvent(id: EventId, now: int) returns (updated: bool)
      modifies this`log
      ensures View() == Next(old(View()), Acknowledge(id, now))
      ensures updated <==> id in old(log) && old(log)[id].acknowledgedAt.None?
      ensures updated ==> forall cutoff :: !Candidate(log, cutoff, id)
      ensures updated ==> log == old(log)[id := old(log)[id].(acknowledgedAt := Some(now))]
      ensures !updated ==> log == old(log)
    {
      updated := id in log && log[id].acknowledgedAt.None?;
      if updated {
        log := log[id := log[id].(acknowledgedAt := Some(now))];
      }
    }

    /** The selection query, in whatever order its rows come back. */
    method SelectRows(cutoff: int) returns (rows: seq<EventId>)
      ensures Lists(rows, Candidates(log, cutoff))
      ensures forall id :: id in rows <==>
                id in log && log[id].isCritical && log[id].acknowledgedAt == None && log[id].emittedAt < cutoff
    {
      var left := Candidates(log, cutoff);
      ghost var all := left;
      rows := [];
      while left != {}
        invariant left <= all && Lists(rows, all - left)
      {
        var id :| id in left;
        left := left - {id};
        rows := rows + [id];
      }
    }

    /** Re-emits the next selected row with the marker; the bus may refuse it. */
    method ReplayRow(accepted: bool)
      requires pending != [] && pending[0] in log
      modifies this`pending, this`bus, this`attempted
      ensures View() == Next(old(View()), ReplayNext(accepted))
    {
      var id := pending[0];
      var row := log[id];
      pending, attempted := pending[1..], attempted + [id];
      if accepted {
        bus := bus + [Publication(Replay, id, row.topic, Marked(row.payload))];
      }
    }

    /** Re-emits every selected row in turn. */
    method ReplaySelected(refused: set<EventId>) returns (ghost steps: seq<Step>)
      requires forall id :: id in pending ==> id in log
      modifies this`pending, this`bus, this`attempted
      ensures pending == [] && attempted == old(attempted) + old(pending)
      ensures bus == old(bus) + ReplaysFor(log, old(pending), refused)
      ensures Possible(old(View()), steps) && View() == After(old(View()), steps)
    {
      var selected := pending;
      ghost var start := View();
      steps := [];
      for k := 0 to |selected|
        invariant pending == selected[k..] && attempted == old(attempted) + selected[..k]
        invariant bus == old(bus) + ReplaysFor(log, selected[..k], refused)
        invariant Possible(start, steps) && View() == After(start, steps)
      {
        ghost var step := ReplayNext(selected[k] !in refused);
        assert pending[0] == selected[k] && selected[k] in selected;
        AfterAppend(start, steps, step);
        steps := steps + [step];
        ReplayRow(selected[k] !in refused);
        assert selected[..k + 1][..k] == selected[..k];
      }
      assert selected[..|selected|] == selected;
    }

    /**
     Selects the unacknowledged critical rows past the cutoff and re-emits each; a refusal is
     skipped. Exactly the candidates are attempted, each once, and their number is returned; the
     whole call is a run of the protocol.
     */
    method RunOnce(now: int, gracePeriod: int, refused: set<EventId>)
      returns (count: nat, ghost rows: seq<EventId>, ghost steps: seq<Step>)
      requires pending == []
      modifies this`pending, this`bus, this`attempted
      ensures Lists(rows, Candidates(log, now - gracePeriod)) && count == |rows|
      ensures forall id :: id in rows <==>
                && id in log && log[id].isCritical && log[id].acknowledgedAt == None
                && log[id].emittedAt < now - gracePeriod
      ensures attempted == old(attempted) + rows
      ensures bus == old(bus) + ReplaysFor(log, rows, refused)
      ensures var selected := Next(old(View()), Select(now - gracePeriod, rows));
              Possible(selected, steps) && View() == After(selected, steps)
    {
      var selected := SelectRows(now - gracePeriod);
      pending, rows := selected, selected;
      steps := ReplaySelected(refused);
      count := |selected|;
    }
  }

  /** One marked replay per row that the bus did not refuse, and nothing else. */
  lemma {:induction false} ReplaysForExactly(log: map<EventId, Row>, rows: seq<EventId>, refused: set<EventId>)
    ensures var ps := ReplaysFor(log, rows, refused);
            && (forall p :: p in ps ==> p.origin == Replay && p.id in rows && p.id !in refused && FromRow(p, log))
            && (forall id :: id in rows && id in log && id !in refused ==> exists p :: p in ps && p.id == id)
            && |ps| <= |rows|
  {
    if rows != [] {
      var init, id := rows[..|rows| - 1], rows[|rows| - 1];
      ReplaysForExactly(log, init, refused);
      var before, ps := ReplaysFor(log, init, refused), ReplaysFor(log, rows, refused);
      assert forall x :: x in rows <==> x in init || x == id;
      if id in log && id !in refused {
        assert ps[|before|].id == id && ps[|before|] in ps;
      }
      forall x | x in init && x in log && x !in refused ensures exists p :: p in ps && p.id == x {
        var p :| p in before && p.id == x;
        assert p in ps;
      }
    }
  }

  /** The replays of the listed rows that the bus did not refuse. */
  function ReplaysFor(log: map<EventId, Row>, rows: seq<EventId>, refused: set<EventId>): seq<Publication>
  {
    if rows == [] then []
    else
      var id := rows[|rows| - 1];
      ReplaysFor(log, rows[..|rows| - 1], refused) +
      if id in log && id !in refused then [Publication(Replay, id, log[id].topic, Marked(log[id].payload))] else []
  }
}

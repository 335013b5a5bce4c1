/**
  The validation scheduler.  It goes through the layers of a plan, runs the serial nodes of a layer
  one by one and then its parallel nodes two at a time, halts at a failure, and stores each result
  so that later calls with the same run id and plan reuse it.  Whether a process passes, fails or
  cannot be started, how two processes interleave and whether storing a result succeeds are left
  open (`*`), so the results hold for every behaviour of them.
*/
module Validation {
  import opened Wrappers
  import TestImpact

  datatype Execution = Serial | Parallel
  datatype Resource = Light | Default | CpuHeavy
  datatype Node = Node(execution: Execution, resource: Resource)
  datatype Plan = Plan(hash: string, layers: seq<seq<string>>, nodes: map<string, Node>)

  datatype Status = Passed | Failed | Blocked | Cancelled
  datatype Stored = Stored(planHash: string, results: map<string, Status>)

  /** What happens during a call, in order. */
  datatype Event =
    | Started(id: string)
    | Ended(id: string, status: Status)
    | Broke(id: string)                    // the run of the node threw
    | Reused(id: string)                   // a stored pass stands in for a run
    | Refused(id: string)                  // a stored CPU-heavy failure is not retried
    | Recorded(id: string, status: Status) // the result was stored

  datatype Outcome = Outcome(status: Status, record: bool)
  datatype Verdict = Verdict(status: Status) | Thrown

  predicate IsSerial(plan: Plan, id: string) {
    id in plan.nodes && (plan.nodes[id].execution.Serial? || !plan.nodes[id].resource.Light?)
  }

  predicate IsParallel(plan: Plan, id: string) {
    id in plan.nodes && plan.nodes[id].execution.Parallel? && plan.nodes[id].resource.Light?
  }

  function Select(plan: Plan, ids: seq<string>, serial: bool): seq<string> {
    if ids == [] then []
    else
      var last := ids[|ids| - 1];
      Select(plan, ids[..|ids| - 1], serial)
      + if (if serial then IsSerial(plan, last) else IsParallel(plan, last)) then [last] else []
  }

  /** Every layer lists known nodes, and no node is listed twice. */
  ghost predicate WellFormed(plan: Plan) {
    forall l :: 0 <= l < |plan.layers| ==> LayerFine(plan, l)
  }

  ghost predicate LayerFine(plan: Plan, l: nat)
    requires l < |plan.layers|
  {
    var layer := plan.layers[l];
    && (forall i :: 0 <= i < |layer| ==> layer[i] in plan.nodes && layer[i] !in TestImpact.Union(plan.layers[..l]))
    && (forall i, j :: 0 <= i < j < |layer| ==> layer[i] != layer[j])
  }

  ghost predicate Placed(plan: Plan, id: string, l: nat, j: nat) {
    l < |plan.layers| && j < |plan.layers[l]| && plan.layers[l][j] == id
  }

  /** What must have passed, or been reused, before the node at place `j` of layer `l` starts. */
  function Prerequisites(plan: Plan, l: nat, j: nat): set<string>
    requires l < |plan.layers| && j < |plan.layers[l]|
  {
    var layer := plan.layers[l];
    TestImpact.Union(plan.layers[..l])
    + TestImpact.Members(Select(plan, if IsParallel(plan, layer[j]) then layer else layer[..j], true))
  }

  // ---------- what a log says ----------

  function SettledAfter(settled: set<string>, e: Event): set<string> {
    if e.Reused? || (e.Ended? && e.status.Passed?) then settled + {e.id} else settled
  }

  function RunningAfter(running: set<string>, e: Event): set<string> {
    if e.Started? then running + {e.id}
    else if e.Ended? || e.Broke? then running - {e.id}
    else running
  }

  /** The nodes that passed or were reused. */
  function Settled(log: seq<Event>): set<string> {
    if log == [] then {} else SettledAfter(Settled(log[..|log| - 1]), log[|log| - 1])
  }

  /** The nodes that are running after the log. */
  function Running(log: seq<Event>): set<string> {
    if log == [] then {} else RunningAfter(Running(log[..|log| - 1]), log[|log| - 1])
  }

  function DueAfter(due: set<Event>, e: Event): set<Event> {
    if e.Ended? then due + {Recorded(e.id, e.status)} else if e.Recorded? then due - {e} else due
  }

  /** The records still to be stored. */
  function Due(log: seq<Event>): set<Event> {
    if log == [] then {} else DueAfter(Due(log[..|log| - 1]), log[|log| - 1])
  }

  function StatusesAfter(statuses: set<Status>, e: Event): set<Status> {
    match e
    case Ended(_, status) => statuses + {status}
    case Reused(_) => statuses + {Passed}
    case Refused(_) => statuses + {Failed}
    case _ => statuses
  }

  /** The results of the nodes dealt with. */
  function Statuses(log: seq<Event>): set<Status> {
    if log == [] then {} else StatusesAfter(Statuses(log[..|log| - 1]), log[|log| - 1])
  }

  /** The stored results after the log, if they were `base` before it. */
  function Recall(base: map<string, Status>, log: seq<Event>): map<string, Status> {
    if log == [] then base
    else
      var (before, e) := (Recall(base, log[..|log| - 1]), log[|log| - 1]);
      if e.Recorded? then before[e.id := e.status] else before
  }

  /** The nodes the log mentions. */
  function Touched(log: seq<Event>): set<string> {
    if log == [] then {} else Touched(log[..|log| - 1]) + {log[|log| - 1].id}
  }

  /** What a log says of the nodes. */
  datatype Picture = Picture(touched: set<string>, running: set<string>, settled: set<string>, due: set<Event>,
                             statuses: set<Status>)

  function PictureOf(log: seq<Event>): Picture {
    Picture(Touched(log), Running(log), Settled(log), Due(log), Statuses(log))
  }

  function PictureAfter(p: Picture, e: Event): Picture {
    Picture(p.touched + {e.id}, RunningAfter(p.running, e), SettledAfter(p.settled, e),
            DueAfter(p.due, e), StatusesAfter(p.statuses, e))
  }

  ghost predicate MayStart(plan: Plan, log: seq<Event>, id: string) {
    && (exists l, j :: Placed(plan, id, l, j) && Prerequisites(plan, l, j) <= Settled(log))
    && id !in Touched(log)
    && (forall other :: other in Running(log) ==>
        Running(log) == {other} && IsParallel(plan, other) && IsParallel(plan, id))
    && OnlyPartner(plan, Touched(log) - Settled(log), id)
  }

  /** Besides `id` at most one node has been begun and has not passed, and then both are light and parallel. */
  predicate OnlyPartner(plan: Plan, begun: set<string>, id: string) {
    forall other :: other in begun ==> begun == {other} && IsParallel(plan, other) && IsParallel(plan, id)
  }

  /**
    A node starts only after its prerequisites, only once, and next to at most one other, both light
    and parallel.  So nothing starts after a failure but the partner of the node that failed.
  */
  ghost predicate WellScheduled(plan: Plan, log: seq<Event>) {
    forall i :: 0 <= i < |log| && log[i].Started? ==> MayStart(plan, log[..i], log[i].id)
  }

  predicate PassedIn(base: map<string, Status>, id: string) {
    id in base && base[id] == Passed
  }

  predicate RetiredIn(plan: Plan, base: map<string, Status>, id: string) {
    id in base && base[id] == Failed && id in plan.nodes && plan.nodes[id].resource.CpuHeavy?
  }

  /** What may happen next in a call that found the results `base`. */
  ghost predicate InOrder(plan: Plan, base: map<string, Status>, log: seq<Event>, e: Event) {
    match e
    case Started(id) => MayStart(plan, log, id) && !PassedIn(base, id) && !RetiredIn(plan, base, id)
    case Reused(id) => MayStart(plan, log, id) && PassedIn(base, id)
    case Refused(id) => MayStart(plan, log, id) && RetiredIn(plan, base, id)
    case Ended(id, _) => id in Running(log)
    case Broke(id) => id in Running(log)
    case Recorded(_, _) => e in Due(log)
  }

  /** The log of a call that found the results `base`. */
  ghost predicate Orderly(plan: Plan, base: map<string, Status>, log: seq<Event>) {
    log != [] ==> Orderly(plan, base, log[..|log| - 1]) && InOrder(plan, base, log[..|log| - 1], log[|log| - 1])
  }

  predicate Final(plan: Plan, e: Event, id: string) {
    e == Recorded(id, Passed) || (e == Recorded(id, Failed) && id in plan.nodes && plan.nodes[id].resource.CpuHeavy?)
  }

  /** Nothing recorded passed, and no CPU-heavy node recorded failed, starts again. */
  ghost predicate NoRerun(plan: Plan, events: seq<Event>) {
    forall i, j :: 0 <= i < j < |events| && events[j].Started? ==> !Final(plan, events[i], events[j].id)
  }

  /** `results` holds every final record. */
  ghost predicate Remembers(plan: Plan, results: map<string, Status>, events: seq<Event>) {
    forall i :: 0 <= i < |events| && events[i].Recorded? && Final(plan, events[i], events[i].id) ==>
      events[i].id in results && results[events[i].id] == events[i].status
  }

  ghost predicate Unrecorded(plan: Plan, events: seq<Event>, id: string) {
    forall i :: 0 <= i < |events| ==> !Final(plan, events[i], id)
  }

  lemma LogGrows(plan: Plan, base: map<string, Status>, log: seq<Event>, e: Event)
    requires Orderly(plan, base, log) && InOrder(plan, base, log, e)
    ensures Orderly(plan, base, log + [e])
    ensures PictureOf(log + [e]) == PictureAfter(PictureOf(log), e)
    ensures Recall(base, log + [e]) == if e.Recorded? then Recall(base, log)[e.id := e.status] else Recall(base, log)
  {
    assert (log + [e])[..|log|] == log;
  }

  lemma {:induction false} OrderlyAt(plan: Plan, base: map<string, Status>, log: seq<Event>, i: nat)
    requires Orderly(plan, base, log) && i < |log|
    ensures InOrder(plan, base, log[..i], log[i])
    decreases |log|
  {
    if i < |log| - 1 {
      OrderlyAt(plan, base, log[..|log| - 1], i);
      assert log[..|log| - 1][..i] == log[..i];
    }
  }

  lemma OrderlyIsWellScheduled(plan: Plan, base: map<string, Status>, log: seq<Event>)
    requires Orderly(plan, base, log)
    ensures WellScheduled(plan, log)
  {
    forall i | 0 <= i < |log| && log[i].Started? ensures MayStart(plan, log[..i], log[i].id) {
      OrderlyAt(plan, base, log, i);
    }
  }

  /** What was stored of a node stays as it is until the node is dealt with. */
  lemma {:induction false} UntouchedRecall(base: map<string, Status>, log: seq<Event>, id: string)
    requires id !in Touched(log)
    ensures id in Recall(base, log) <==> id in base
    ensures id in base ==> Recall(base, log)[id] == base[id]
  {
    if log != [] {
      UntouchedRecall(base, log[..|log| - 1], id);
    }
  }

  lemma HistoryGrows(plan: Plan, events: seq<Event>, e: Event)
    requires NoRerun(plan, events)
    requires e.Started? ==> Unrecorded(plan, events, e.id)
    ensures NoRerun(plan, events + [e])
    ensures forall id :: Unrecorded(plan, events + [e], id) <==> Unrecorded(plan, events, id) && !Final(plan, e, id)
  {
    var more := events + [e];
    forall i, j | 0 <= i < j < |more| && more[j].Started?
      ensures !Final(plan, more[i], more[j].id)
    {
      assert more[i] == events[i];
    }
    forall id
      ensures Unrecorded(plan, more, id) <==> Unrecorded(plan, events, id) && !Final(plan, e, id)
    {
      if Unrecorded(plan, more, id) {
        assert more[|events|] == e;
        forall i | 0 <= i < |events| ensures !Final(plan, events[i], id) { assert more[i] == events[i]; }
      }
    }
  }

  lemma {:induction false} TouchedMember(log: seq<Event>, i: nat)
    requires i < |log|
    ensures log[i].id in Touched(log)
    decreases |log|
  {
    if i < |log| - 1 {
      TouchedMember(log[..|log| - 1], i);
    }
  }

  // ---------- the scheduler ----------

  datatype Phase = Waiting | Busy | Over

  /** The record a node that is over still needs. */
  function DueOf(id: string, phase: Phase, outcome: Outcome): set<Event> {
    if phase == Over && outcome.record then {Recorded(id, outcome.status)} else {}
  }

  function StatusOf(phase: Phase, outcome: Outcome): set<Status> {
    if phase == Over then {outcome.status} else {}
  }

  /** What an event of a node that did not throw makes of the picture. */
  predicate Advances(id: string, next: Phase, outcome: Outcome, before: Picture, after: Picture) {
    && after.touched == before.touched + {id}
    && after.running == (if next == Busy then before.running + {id} else before.running - {id})
    && after.settled == (if next == Over && outcome.status == Passed then before.settled + {id} else before.settled)
    && after.due == before.due + DueOf(id, next, outcome)
    && after.statuses == before.statuses + StatusOf(next, outcome)
  }

  lemma BeginningAdvances(id: string, e: Event, before: Picture)
    requires e in {Reused(id), Refused(id), Started(id)} && id !in before.running
    ensures Advances(id, if e.Started? then Busy else Over, Outcome(if e.Reused? then Passed else Failed, false),
                     before, PictureAfter(before, e))
  {
  }

  /** A node that starts and ends. */
  lemma AdvancesTwice(id: string, first: Outcome, outcome: Outcome, start: Picture, mid: Picture, end: Picture)
    requires id !in start.running && Advances(id, Busy, first, start, mid) && Advances(id, Over, outcome, mid, end)
    ensures Advances(id, Over, outcome, start, end)
  {
  }

  function Where(c: bool, id: string): set<string> {
    if c then {id} else {}
  }

  /** The picture when two nodes, of which `start` says nothing, are part of the way through. */
  predicate PairPicture(a: string, phaseA: Phase, first: Outcome, b: string, phaseB: Phase, second: Outcome,
                        start: Picture, now: Picture) {
    && now.running == Where(phaseA == Busy, a) + Where(phaseB == Busy, b)
    && now.touched == start.touched + Where(phaseA != Waiting, a) + Where(phaseB != Waiting, b)
    && now.settled == start.settled +
         Where(phaseA == Over && first.status == Passed, a) + Where(phaseB == Over && second.status == Passed, b)
    && now.due == DueOf(a, phaseA, first) + DueOf(b, phaseB, second)
    && now.statuses == start.statuses + StatusOf(phaseA, first) + StatusOf(phaseB, second)
  }

  lemma PairAdvances(a: string, phaseA: Phase, first: Outcome, b: string, phaseB: Phase, second: Outcome,
                     start: Picture,
                     before: Picture, next: Phase, outcome: Outcome, after: Picture)
    requires a != b && phaseA != Over && next != Waiting && start.touched <= start.settled
    requires PairPicture(a, phaseA, first, b, phaseB, second, start, before) &&
             Advances(a, next, outcome, before, after)
    ensures PairPicture(a, next, outcome, b, phaseB, second, start, after)
    ensures before.settled <= after.settled
    ensures phaseB == Waiting ==> after.running <= {a} && after.touched - after.settled <= {a}
    ensures phaseB == Waiting && b !in start.touched ==> b !in after.touched
  {
  }

  predicate AllPassed(p: Picture, done: set<string>) {
    p.running == {} && p.due == {} && p.touched <= done <= p.settled && p.statuses <= {Passed}
  }

  predicate SomeFailed(p: Picture, all: set<string>) {
    p.running == {} && p.due == {} && !(p.statuses <= {Passed}) && !(all <= p.settled)
  }

  predicate PairEnded(first: Outcome, second: Outcome, done: set<string>, all: set<string>, now: Picture) {
    if first.status == second.status == Passed then AllPassed(now, done) else SomeFailed(now, all)
  }

  /** Two nodes are over and recorded, after all of `done` had passed. */
  lemma ChunkEnds(a: string, first: Outcome, b: string, second: Outcome, start: Picture, now: Picture,
                  done: set<string>, all: set<string>)
    requires a != b && PairPicture(a, Over, first, b, Over, second, start, now)
    requires start.settled <= start.touched && AllPassed(start, done)
    requires {a, b} !! done && done + {a, b} <= all
    ensures start.statuses + {first.status, second.status} == now.statuses
    ensures PairEnded(first, second, done + {a, b}, all, now.(due := {}))
  {
    if first.status != Passed {
      assert a !in now.settled && first.status in now.statuses;
    } else if second.status != Passed {
      assert b !in now.settled && second.status in now.statuses;
    }
  }

  /** The state directory of one run id, used by calls that validate one plan. */
  class ValidationRuns {
    const plan: Plan
    var stored: Option<Stored>
    var log: seq<Event>          // of the current or last call
    ghost var past: seq<Event>   // of the calls before it
    ghost var base: map<string, Status> // the results the call found
    var results: seq<Status>

    constructor (plan: Plan, stored: Option<Stored>)
      requires WellFormed(plan)
      ensures Valid() && this.plan == plan && this.stored == stored && past == log == []
    {
      this.plan, this.stored := plan, stored;
      log, past, results, base := [], [], [], map[];
    }

    ghost function History(): seq<Event>
      reads this
    {
      past + log
    }

    function StoredResults(): map<string, Status>
      reads this
    {
      if stored.Some? && stored.value.planHash == plan.hash then stored.value.results else map[]
    }

    ghost predicate Valid()
      reads this
    {
      && WellFormed(plan)
      && Remembers(plan, StoredResults(), History())
      && NoRerun(plan, History())
    }

    /** What holds between two steps of a call that began with `reusable` and now knows `memory`. */
    ghost predicate InCall(reusable: set<string>, memory: map<string, Status>)
      reads this
    {
      && Valid()
      && Orderly(plan, base, log)
      && memory == StoredResults() == Recall(base, log)
      && (forall id :: id in reusable <==> id in plan.nodes && PassedIn(base, id))
    }

    method Append(e: Event, ghost reusable: set<string>, ghost memory: map<string, Status>)
      requires InCall(reusable, memory)
      requires InOrder(plan, base, log, e) && !e.Recorded?
      requires e.Started? ==> Unrecorded(plan, History(), e.id)
      modifies `log
      ensures log == old(log) + [e] && InCall(reusable, memory)
      ensures PictureOf(log) == PictureAfter(old(PictureOf(log)), e)
      ensures forall id :: Unrecorded(plan, History(), id) <==> old(Unrecorded(plan, History(), id))
    {
      LogGrows(plan, base, log, e);
      HistoryGrows(plan, History(), e);
      assert past + (log + [e]) == History() + [e];
      log := log + [e];
    }

    /** A node not seen in this call, not reusable and not refused has no final record. */
    lemma FreshIsUnrecorded(reusable: set<string>, memory: map<string, Status>, id: string)
      requires InCall(reusable, memory)
      requires id in plan.nodes && id !in Touched(log) && id !in reusable && !RetiredIn(plan, memory, id)
      ensures Unrecorded(plan, History(), id)
    {
      UntouchedRecall(base, log, id);
    }

    /** The event that begins the node: it is reused, refused or started. */
    function Beginning(id: string, reusable: set<string>, memory: map<string, Status>): Event {
      if id in reusable then Reused(id) else if RetiredIn(plan, memory, id) then Refused(id) else Started(id)
    }

    /** One event of a node: decide whether it runs, or learn how its run ended. */
    method Step(id: string, phase: Phase, reusable: set<string>, memory: map<string, Status>)
      returns (next: Phase, outcome: Outcome, threw: bool)
      requires InCall(reusable, memory)
      requires phase == Waiting ==> MayStart(plan, log, id)
      requires phase == Busy ==> id in Running(log) && Unrecorded(plan, History(), id)
      requires phase != Over
      modifies `log
      ensures InCall(reusable, memory)
      ensures phase == Waiting ==> id in plan.nodes && !threw && !outcome.record
      ensures phase == Waiting ==>
                log == old(log) + [if id in memory && memory[id] == Passed then Reused(id)
                                   else if id in memory && memory[id] == Failed && plan.nodes[id].resource == CpuHeavy
                                     then Refused(id)
                                   else Started(id)]
      ensures phase == Waiting ==> next == if log[|log| - 1].Started? then Busy else Over
      ensures phase == Waiting && next == Over ==> (outcome.status == if log[|log| - 1].Reused? then Passed else Failed)
      ensures phase == Busy ==> log == old(log) + [if threw then Broke(id) else Ended(id, outcome.status)]
      ensures phase == Busy ==> next == Over && (!threw ==> outcome.record)
      ensures !threw ==> Advances(id, next, outcome, old(PictureOf(log)), PictureOf(log))
      ensures next == Busy || outcome.record ==> Unrecorded(plan, History(), id)
      ensures forall other :: Unrecorded(plan, History(), other) <==> old(Unrecorded(plan, History(), other))
    {
      if phase == Waiting {
        threw := false;
        next, outcome := Begin(id, reusable, memory);
      } else {
        next := Over;
        outcome, threw := Finish(id, reusable, memory);
      }
    }

    /** A node is reused, refused or started. */
    method Begin(id: string, reusable: set<string>, memory: map<string, Status>) returns (next: Phase, outcome: Outcome)
      requires InCall(reusable, memory) && MayStart(plan, log, id)
      modifies `log
      ensures InCall(reusable, memory) && log == old(log) + [Beginning(id, reusable, memory)]
      ensures id in plan.nodes && (id in reusable <==> id in memory && memory[id] == Passed)
      ensures next == if Beginning(id, reusable, memory).Started? then Busy else Over
      ensures outcome == Outcome(if id in reusable then Passed else Failed, false)
      ensures Advances(id, next, outcome, old(PictureOf(log)), PictureOf(log))
      ensures next == Busy ==> Unrecorded(plan, History(), id)
      ensures forall other :: Unrecorded(plan, History(), other) <==> old(Unrecorded(plan, History(), other))
    {
      var e := Beginning(id, reusable, memory);
      MayBegin(id, reusable, memory);
      next, outcome := if e.Started? then Busy else Over, Outcome(if e.Reused? then Passed else Failed, false);
      BeginningAdvances(id, e, PictureOf(log));
      Append(e, reusable, memory);
    }

    lemma MayBegin(id: string, reusable: set<string>, memory: map<string, Status>)
      requires InCall(reusable, memory) && MayStart(plan, log, id)
      ensures id !in Running(log) && id in plan.nodes && (id in reusable <==> id in memory && memory[id] == Passed)
      ensures var e := Beginning(id, reusable, memory);
              InOrder(plan, base, log, e) && (e.Started? ==> Unrecorded(plan, History(), id))
    {
      UntouchedRecall(base, log, id);
      KnownNode(plan, log, id);
      RunningIsTouched(log);
      if Beginning(id, reusable, memory).Started? {
        FreshIsUnrecorded(reusable, memory, id);
      }
    }

    /** The run of a node ends with a result, or throws. */
    method Finish(id: string, reusable: set<string>, memory: map<string, Status>)
      returns (outcome: Outcome, threw: bool)
      requires InCall(reusable, memory) && id in Running(log) && Unrecorded(plan, History(), id)
      modifies `log
      ensures InCall(reusable, memory)
      ensures log == old(log) + [if threw then Broke(id) else Ended(id, outcome.status)]
      ensures outcome.record == !threw
      ensures !threw ==> Advances(id, Over, outcome, old(PictureOf(log)), PictureOf(log))
      ensures forall other :: Unrecorded(plan, History(), other) <==> old(Unrecorded(plan, History(), other))
    {
      var status: Status;
      status, threw := *, *;
      Append(if threw then Broke(id) else Ended(id, status), reusable, memory);
      outcome := Outcome(status, !threw);
    }

    /** A run broke off, or a result was not stored. */
    ghost predicate Interrupted()
      reads this
    {
      (log != [] && log[|log| - 1].Broke?) || Due(log) != {}
    }

    /** Runs one node. */
    method RunOne(id: string, reusable: set<string>, memory: map<string, Status>)
      returns (outcome: Outcome, threw: bool)
      requires InCall(reusable, memory) && Running(log) == {} && MayStart(plan, log, id)
      modifies `log
      ensures InCall(reusable, memory) && old(log) <= log
      ensures threw ==> Interrupted()
      ensures !threw ==> Running(log) == {} && Touched(log) == old(Touched(log)) + {id}
      ensures !threw ==>
                Settled(log) == if outcome.status == Passed then old(Settled(log)) + {id} else old(Settled(log))
      ensures !threw ==> Due(log) == old(Due(log)) + DueOf(id, Over, outcome)
      ensures !threw ==> Statuses(log) == old(Statuses(log)) + {outcome.status}
      ensures !threw && outcome.record ==> Unrecorded(plan, History(), id)
    {
      var phase;
      ghost var start := PictureOf(log);
      assert id !in start.running;
      phase, outcome, threw := Step(id, Waiting, reusable, memory);
      if phase == Busy {
        ghost var first, mid := outcome, PictureOf(log);
        phase, outcome, threw := Step(id, Busy, reusable, memory);
        if !threw {
          AdvancesTwice(id, first, outcome, start, mid, PictureOf(log));
        }
      }
    }

    /** Two parallel nodes part of the way through, with the picture before them. */
    ghost predicate PairState(a: string, phaseA: Phase, first: Outcome, b: string, phaseB: Phase, second: Outcome,
                              start: Picture)
      reads this
    {
      && a != b && IsParallel(plan, a) && IsParallel(plan, b)
      && PairPicture(a, phaseA, first, b, phaseB, second, start, PictureOf(log))
      && (phaseA == Waiting ==> MayStart(plan, log, a))
      && (phaseB == Waiting ==> MayStart(plan, log, b))
      && (phaseA == Busy || (phaseA == Over && first.record) ==> Unrecorded(plan, History(), a))
      && (phaseB == Busy || (phaseB == Over && second.record) ==> Unrecorded(plan, History(), b))
    }

    /** One event of the first of the two. */
    method Turn(a: string, phaseA: Phase, first: Outcome, b: string, phaseB: Phase, second: Outcome,
                ghost start: Picture, reusable: set<string>, memory: map<string, Status>)
      returns (next: Phase, outcome: Outcome, threw: bool)
      requires InCall(reusable, memory) && PairState(a, phaseA, first, b, phaseB, second, start)
      requires phaseA != Over
      requires b !in start.touched && start.touched <= start.settled
      modifies `log
      ensures InCall(reusable, memory) && old(log) <= log
      ensures threw ==> Interrupted()
      ensures !threw ==> PairState(a, next, outcome, b, phaseB, second, start)
      ensures next == Over || (phaseA == Waiting && next == Busy)
    {
      ghost var before := log;
      next, outcome, threw := Step(a, phaseA, reusable, memory);
      if !threw {
        PairAdvances(a, phaseA, first, b, phaseB, second, start, PictureOf(before), next, outcome, PictureOf(log));
        if phaseB == Waiting {
          MayStartStays(plan, before, log, b, a);
        }
      }
    }

    lemma PairSwaps(a: string, phaseA: Phase, first: Outcome, b: string, phaseB: Phase, second: Outcome, start: Picture)
      requires PairState(a, phaseA, first, b, phaseB, second, start)
      ensures PairState(b, phaseB, second, a, phaseA, first, start)
    {
    }

    /** Runs two parallel nodes in any interleaving; a run that throws ends the call at once. */
    method RunPair(a: string, b: string, reusable: set<string>, memory: map<string, Status>)
      returns (first: Outcome, second: Outcome, threw: bool)
      requires InCall(reusable, memory) && Running(log) == {} && Due(log) == {} && Touched(log) <= Settled(log)
      requires MayStart(plan, log, a) && MayStart(plan, log, b)
      requires a != b && IsParallel(plan, a) && IsParallel(plan, b)
      modifies `log
      ensures InCall(reusable, memory) && old(log) <= log
      ensures threw ==> Interrupted()
      ensures !threw ==> PairPicture(a, Over, first, b, Over, second, old(PictureOf(log)), PictureOf(log))
      ensures !threw && first.record ==> Unrecorded(plan, History(), a)
      ensures !threw && second.record ==> Unrecorded(plan, History(), b)
    {
      var phaseA, phaseB := Waiting, Waiting;
      first, second, threw := Outcome(Failed, false), Outcome(Failed, false), false;
      ghost var start := PictureOf(log);
      while phaseA != Over || phaseB != Over
        invariant InCall(reusable, memory) && old(log) <= log
        invariant PairState(a, phaseA, first, b, phaseB, second, start)
        decreases (if phaseA == Over then 0 else if phaseA == Busy then 1 else 2) +
                  (if phaseB == Over then 0 else if phaseB == Busy then 1 else 2)
      {
        var turnA: bool := *;
        if phaseA != Over && (turnA || phaseB == Over) {
          phaseA, first, threw := Turn(a, phaseA, first, b, phaseB, second, start, reusable, memory);
          if threw {
            return;
          }
        } else {
          PairSwaps(a, phaseA, first, b, phaseB, second, start);
          phaseB, second, threw := Turn(b, phaseB, second, a, phaseA, first, start, reusable, memory);
          if threw {
            return;
          }
          PairSwaps(b, phaseB, second, a, phaseA, first, start);
        }
      }
    }

    /** Stores a result; when that fails nothing changes and the call ends. */
    method Persist(id: string, status: Status, reusable: set<string>, memory: map<string, Status>)
      returns (now: map<string, Status>, threw: bool)
      requires InCall(reusable, memory)
      requires Recorded(id, status) in Due(log) && id in Touched(log) && Unrecorded(plan, History(), id)
      modifies `log, `stored
      ensures Valid() && Orderly(plan, base, log)
      ensures !threw ==> log == old(log) + [Recorded(id, status)] && StoredResults() == now == memory[id := status]
      ensures threw ==> log == old(log) && stored == old(stored)
      ensures !threw ==> InCall(reusable, now)
      ensures !threw ==> PictureOf(log) == old(PictureOf(log)).(due := old(Due(log)) - {Recorded(id, status)})
      ensures forall other :: other != id ==>
                (Unrecorded(plan, History(), other) <==> old(Unrecorded(plan, History(), other)))
    {
      now := memory[id := status];
      threw := *;
      if threw {
        return;
      }
      ghost var e := Recorded(id, status);
      LogGrows(plan, base, log, e);
      HistoryGrows(plan, History(), e);
      RecordRemembered(memory, id, status);
      assert past + (log + [e]) == History() + [e];
      stored := Some(Stored(plan.hash, now));
      log := log + [Recorded(id, status)];
      assert Touched(log) == old(Touched(log)) + {id};
    }

    lemma RecordRemembered(memory: map<string, Status>, id: string, status: Status)
      requires Remembers(plan, memory, History()) && Unrecorded(plan, History(), id)
      ensures Remembers(plan, memory[id := status], History() + [Recorded(id, status)])
    {
    }

    /** Appends a result and, if the node ran, stores it. */
    method Conclude(id: string, outcome: Outcome, reusable: set<string>, memory: map<string, Status>)
      returns (now: map<string, Status>, threw: bool)
      requires InCall(reusable, memory)
      requires DueOf(id, Over, outcome) <= Due(log) && id in Touched(log) &&
               (outcome.record ==> Unrecorded(plan, History(), id))
      modifies `log, `stored, `results
      ensures old(log) <= log && Valid() && Orderly(plan, base, log)
      ensures StoredResults() == Recall(base, log)
      ensures threw ==> Interrupted()
      ensures !threw ==> InCall(reusable, now)
      ensures !threw ==> PictureOf(log) == old(PictureOf(log)).(due := old(Due(log)) - DueOf(id, Over, outcome))
      ensures forall other :: other != id ==>
                (Unrecorded(plan, History(), other) <==> old(Unrecorded(plan, History(), other)))
      ensures results == old(results) + [outcome.status]
    {
      results := results + [outcome.status];
      now, threw := memory, false;
      if outcome.record {
        now, threw := Persist(id, outcome.status, reusable, memory);
      }
    }

    /** The nodes dealt with are those of `done`; all passed, and what ran is stored. */
    ghost predicate Passing(done: set<string>)
      reads this
    {
      AllPassed(PictureOf(log), done) && StatusSet(results) == Statuses(log)
    }

    /** Between two nodes of layer `l`, of which `done` are dealt with. */
    ghost predicate Ahead(l: nat, done: seq<string>)
      requires l < |plan.layers|
      reads this
    {
      Passing(TestImpact.Union(plan.layers[..l]) + TestImpact.Members(done))
    }

    /** A node of the plan did not pass; what ran is stored. */
    ghost predicate Halted()
      reads this
    {
      SomeFailed(PictureOf(log), TestImpact.Union(plan.layers)) && StatusSet(results) == Statuses(log)
    }

    /** The `i`th serial node of a layer. */
    method RunSerialNode(l: nat, i: nat, reusable: set<string>, memory: map<string, Status>)
      returns (now: map<string, Status>, halted: bool, threw: bool)
      requires l < |plan.layers| && i < |Select(plan, plan.layers[l], true)|
      requires InCall(reusable, memory) && Ahead(l, Select(plan, plan.layers[l], true)[..i])
      modifies `log, `stored, `results
      ensures old(log) <= log && Valid() && Orderly(plan, base, log) && StoredResults() == Recall(base, log)
      ensures threw ==> Interrupted()
      ensures !threw && !halted ==> InCall(reusable, now) && Ahead(l, Select(plan, plan.layers[l], true)[..i + 1])
      ensures !threw && halted ==> Halted()
    {
      ghost var nodes := Select(plan, plan.layers[l], true);
      var id := Select(plan, plan.layers[l], true)[i];
      SerialMayStart(plan, log, l, i);
      InPlan(plan, l, true, i);
      UnionGrows(plan, l);
      assert id !in Settled(log) by { SettledIsTouched(log); }
      assert TestImpact.Members(nodes[..i + 1]) == TestImpact.Members(nodes[..i]) + {id};
      assert TestImpact.Members(nodes[..i]) <= TestImpact.Union(plan.layers)
        by { SelectIsFrom(plan, plan.layers[l], true); }
      var outcome;
      now, halted := memory, false;
      outcome, threw := RunOne(id, reusable, memory);
      if threw {
        return;
      }
      ghost var before := results;
      now, threw := Conclude(id, outcome, reusable, memory);
      halted := outcome.status != Passed;
      StatusSetGrows(before, outcome.status);
    }

    /** The serial nodes of a layer, one after another. */
    method RunSerial(l: nat, reusable: set<string>, memory: map<string, Status>)
      returns (now: map<string, Status>, halted: bool, threw: bool)
      requires l < |plan.layers| && InCall(reusable, memory) && Ahead(l, [])
      modifies `log, `stored, `results
      ensures old(log) <= log && Valid() && Orderly(plan, base, log) && StoredResults() == Recall(base, log)
      ensures threw ==> Interrupted()
      ensures !threw && !halted ==> InCall(reusable, now) && Ahead(l, Select(plan, plan.layers[l], true))
      ensures !threw && halted ==> Halted()
    {
      var nodes := Select(plan, plan.layers[l], true);
      now, halted, threw := memory, false, false;
      var i := 0;
      while i < |nodes|
        invariant 0 <= i <= |nodes|
        invariant !halted && !threw
        invariant old(log) <= log && InCall(reusable, now) && Ahead(l, nodes[..i])
      {
        now, halted, threw := RunSerialNode(l, i, reusable, now);
        if halted || threw {
          return;
        }
        i := i + 1;
      }
      assert nodes[..i] == nodes;
    }

    /** The last parallel node of a layer, when it has no partner. */
    method RunLast(l: nat, offset: nat, reusable: set<string>, memory: map<string, Status>)
      returns (now: map<string, Status>, halted: bool, threw: bool)
      requires l < |plan.layers| && offset + 1 == |Select(plan, plan.layers[l], false)|
      requires InCall(reusable, memory) && Ahead(l, UpTo(plan, l, offset))
      modifies `log, `stored, `results
      ensures old(log) <= log && Valid() && Orderly(plan, base, log) && StoredResults() == Recall(base, log)
      ensures threw ==> Interrupted()
      ensures !threw && !halted ==> InCall(reusable, now) && Ahead(l, UpTo(plan, l, offset + 2))
      ensures !threw && halted ==> Halted()
    {
      var id := Select(plan, plan.layers[l], false)[offset];
      now, halted := memory, false;
      ParallelMayStart(plan, log, l, offset, offset);
      ChunkFacts(l, offset);
      SettledIsTouched(log);
      ghost var before := results;
      var outcome;
      outcome, threw := RunOne(id, reusable, memory);
      if threw {
        return;
      }
      now, threw := Conclude(id, outcome, reusable, memory);
      halted := outcome.status != Passed;
      StatusSetGrows(before, outcome.status);
    }

    /** Two parallel nodes of a layer, side by side. */
    method RunChunk(l: nat, offset: nat, reusable: set<string>, memory: map<string, Status>)
      returns (now: map<string, Status>, halted: bool, threw: bool)
      requires l < |plan.layers| && offset + 1 < |Select(plan, plan.layers[l], false)|
      requires InCall(reusable, memory) && Ahead(l, UpTo(plan, l, offset))
      modifies `log, `stored, `results
      ensures old(log) <= log && Valid() && Orderly(plan, base, log) && StoredResults() == Recall(base, log)
      ensures threw ==> Interrupted()
      ensures !threw && !halted ==> InCall(reusable, now) && Ahead(l, UpTo(plan, l, offset + 2))
      ensures !threw && halted ==> Halted()
    {
      var nodes := Select(plan, plan.layers[l], false);
      var a, b := nodes[offset], nodes[offset + 1];
      ghost var done := ChunkReady(l, offset);
      now, halted, threw := RunBoth(a, b, done, reusable, memory);
    }

    /** Two parallel nodes that are due, after all of `done` had passed. */
    method RunBoth(a: string, b: string, ghost done: set<string>, reusable: set<string>, memory: map<string, Status>)
      returns (now: map<string, Status>, halted: bool, threw: bool)
      requires InCall(reusable, memory) && Passing(done)
      requires MayStart(plan, log, a) && MayStart(plan, log, b)
      requires a != b && IsParallel(plan, a) && IsParallel(plan, b)
      requires {a, b} !! done && done + {a, b} <= TestImpact.Union(plan.layers)
      modifies `log, `stored, `results
      ensures old(log) <= log && Valid() && Orderly(plan, base, log) && StoredResults() == Recall(base, log)
      ensures threw ==> Interrupted()
      ensures !threw && !halted ==> InCall(reusable, now) && Passing(done + {a, b})
      ensures !threw && halted ==> Halted()
    {
      now, halted := memory, false;
      var first, second;
      first, second, threw := RunToEnd(a, b, done, reusable, memory);
      if threw {
        return;
      }
      now, threw := ConcludePair(a, first, b, second, done + {a, b}, reusable, memory);
      halted := first.status != Passed || second.status != Passed;
    }

    /** Both nodes run to their end; their results are still to be recorded. */
    method RunToEnd(a: string, b: string, ghost done: set<string>, reusable: set<string>, memory: map<string, Status>)
      returns (first: Outcome, second: Outcome, threw: bool)
      requires InCall(reusable, memory) && Passing(done)
      requires MayStart(plan, log, a) && MayStart(plan, log, b)
      requires a != b && IsParallel(plan, a) && IsParallel(plan, b)
      requires {a, b} !! done && done + {a, b} <= TestImpact.Union(plan.layers)
      modifies `log
      ensures InCall(reusable, memory) && old(log) <= log
      ensures threw ==> Interrupted()
      ensures !threw ==>
                a in Touched(log) && b in Touched(log) && Due(log) == DueOf(a, Over, first) + DueOf(b, Over, second)
      ensures !threw && first.record ==> Unrecorded(plan, History(), a)
      ensures !threw && second.record ==> Unrecorded(plan, History(), b)
      ensures !threw ==>
                PairEnded(first, second, done + {a, b}, TestImpact.Union(plan.layers), PictureOf(log).(due := {}))
      ensures !threw ==> StatusSet(results) + {first.status, second.status} == Statuses(log)
    {
      ghost var start := PictureOf(log);
      SettledIsTouched(log);
      first, second, threw := RunPair(a, b, reusable, memory);
      if !threw {
        ChunkEnds(a, first, b, second, start, PictureOf(log), done, TestImpact.Union(plan.layers));
      }
    }

    lemma ChunkReady(l: nat, offset: nat) returns (done: set<string>)
      requires WellFormed(plan) && l < |plan.layers| && offset + 1 < |Select(plan, plan.layers[l], false)|
      requires Ahead(l, UpTo(plan, l, offset))
      ensures var nodes := Select(plan, plan.layers[l], false);
              var (a, b) := (nodes[offset], nodes[offset + 1]);
              && a != b && IsParallel(plan, a) && IsParallel(plan, b) &&
                 MayStart(plan, log, a) && MayStart(plan, log, b)
              && Passing(done)
              && {a, b} !! done && done + {a, b} <= TestImpact.Union(plan.layers)
              && done + {a, b} == TestImpact.Union(plan.layers[..l]) + TestImpact.Members(UpTo(plan, l, offset + 2))
    {
      done := TestImpact.Union(plan.layers[..l]) + TestImpact.Members(UpTo(plan, l, offset));
      ParallelMayStart(plan, log, l, offset, offset);
      ParallelMayStart(plan, log, l, offset, offset + 1);
      ChunkFacts(l, offset);
    }

    method ConcludePair(a: string, first: Outcome, b: string, second: Outcome, ghost done: set<string>,
                        reusable: set<string>, memory: map<string, Status>)
      returns (now: map<string, Status>, threw: bool)
      requires InCall(reusable, memory) && a != b && a in Touched(log) && b in Touched(log)
      requires Due(log) == DueOf(a, Over, first) + DueOf(b, Over, second)
      requires first.record ==> Unrecorded(plan, History(), a)
      requires second.record ==> Unrecorded(plan, History(), b)
      requires PairEnded(first, second, done, TestImpact.Union(plan.layers), PictureOf(log).(due := {}))
      requires StatusSet(results) + {first.status, second.status} == Statuses(log)
      modifies `log, `stored, `results
      ensures old(log) <= log && Valid() && Orderly(plan, base, log) && StoredResults() == Recall(base, log)
      ensures threw ==> Interrupted()
      ensures !threw ==>
                InCall(reusable, now) && if first.status == second.status == Passed then Passing(done) else Halted()
    {
      ghost var end := PictureOf(log).(due := {});
      StatusSetGrows(results, first.status);
      StatusSetGrows(results + [first.status], second.status);
      now, threw := Conclude(a, first, reusable, memory);
      if !threw {
        now, threw := Conclude(b, second, reusable, now);
        assert !threw ==> PictureOf(log) == end;
      }
    }

    lemma ChunkFacts(l: nat, offset: nat)
      requires WellFormed(plan) && l < |plan.layers| && offset < |Select(plan, plan.layers[l], false)|
      ensures var nodes := Select(plan, plan.layers[l], false);
              var last := if offset + 1 < |nodes| then {nodes[offset], nodes[offset + 1]} else {nodes[offset]};
              && TestImpact.Members(UpTo(plan, l, offset + 2)) == TestImpact.Members(UpTo(plan, l, offset)) + last
              && last !! TestImpact.Members(UpTo(plan, l, offset)) + TestImpact.Union(plan.layers[..l])
              && (offset + 1 < |nodes| ==>
                   && nodes[offset] != nodes[offset + 1]
                   && IsParallel(plan, nodes[offset]) && IsParallel(plan, nodes[offset + 1]))
              && TestImpact.Union(plan.layers[..l]) + TestImpact.Members(UpTo(plan, l, offset + 2))
                 <= TestImpact.Union(plan.layers)
    {
      UpToGrows(plan, l, offset);
      UpToInPlan(plan, l, offset + 2);
      ParallelFacts(plan, l, offset);
      if offset + 1 < |Select(plan, plan.layers[l], false)| {
        ParallelFacts(plan, l, offset + 1);
      }
    }

    /** The parallel nodes of a layer, two at a time. */
    method RunParallel(l: nat, reusable: set<string>, memory: map<string, Status>)
      returns (now: map<string, Status>, halted: bool, threw: bool)
      requires l < |plan.layers| && InCall(reusable, memory) && Ahead(l, Select(plan, plan.layers[l], true))
      modifies `log, `stored, `results
      ensures old(log) <= log && Valid() && Orderly(plan, base, log) && StoredResults() == Recall(base, log)
      ensures threw ==> Interrupted()
      ensures !threw && !halted ==> InCall(reusable, now) && Ahead(l, plan.layers[l])
      ensures !threw && halted ==> Halted()
    {
      var nodes := Select(plan, plan.layers[l], false);
      now, halted, threw := memory, false, false;
      var offset := 0;
      assert UpTo(plan, l, 0) == Select(plan, plan.layers[l], true);
      while offset < |nodes|
        invariant !halted && !threw
        invariant old(log) <= log && InCall(reusable, now) && Ahead(l, UpTo(plan, l, offset))
      {
        if offset + 1 < |nodes| {
          now, halted, threw := RunChunk(l, offset, reusable, now);
        } else {
          now, halted, threw := RunLast(l, offset, reusable, now);
        }
        if halted || threw {
          return;
        }
        offset := offset + 2;
      }
      assert LayerFine(plan, l);
      SelectCovers(plan, plan.layers[l]);
      assert TestImpact.Members(UpTo(plan, l, offset)) == TestImpact.Members(plan.layers[l]);
    }

    /** The reusable nodes: those stored as passed under the same plan. */
    function Reusable(): set<string>
      reads this
    {
      set id | id in plan.nodes && id in StoredResults() && StoredResults()[id] == Passed
    }

    /** Every node of the plan is stored as passed. */
    ghost predicate AllStored()
      reads this
    {
      forall id :: id in TestImpact.Union(plan.layers) ==> PassedIn(StoredResults(), id)
    }

    /**
      One validation call.  Whatever happens in it, its log is one the plan and the results found at
      its start allow, and the results stored are those overwritten by its records.  Its verdict sums
      up the log, with every result stored that a node ended with; without a verdict a run broke off
      or a result was not stored.  Once a call has passed, later ones only reuse its results.
    */
    method RunImpactPlan() returns (verdict: Verdict)
      requires Valid()
      modifies this
      ensures Valid() && past == old(History())
      ensures Orderly(plan, old(StoredResults()), log) && WellScheduled(plan, log)
      ensures StoredResults() == Recall(old(StoredResults()), log)
      ensures var found := old(if stored.Some? && stored.value.planHash == plan.hash then stored.value.results
                               else map[]);
              var now := if stored.Some? && stored.value.planHash == plan.hash then stored.value.results else map[];
              TurnsAreRight(plan, found, log) && StoresItsRecords(found, log, now)
      ensures NeverAgain(plan, past + log)
      ensures if verdict.Thrown? then CutShort(log) else EndsWith(plan, log, verdict.status)
      ensures verdict.Thrown? ==> Interrupted()
      ensures verdict.Verdict? ==> verdict.status == SummaryOf(Statuses(log)) == Summary(results)
      ensures verdict.Verdict? ==> (verdict.status == Passed <==> TestImpact.Union(plan.layers) <= Settled(log))
      ensures verdict.Verdict? ==> Running(log) == {} && EndsAreStored(log, StoredResults())
      ensures verdict == Verdict(Passed) ==> AllStored()
      ensures old(AllStored()) ==> verdict == Verdict(Passed) && forall i :: 0 <= i < |log| ==> log[i].Reused?
    {
      past, log, results, base := past + log, [], [], StoredResults();
      assert past + [] == past;
      var reusable := Reusable();
      var memory := StoredResults();
      assert InCall(reusable, memory);
      var halted, threw := RunLayers(reusable, memory);
      OrderlyIsWellScheduled(plan, base, log);
      AfterPass(threw, halted);
      CallIsRight(threw);
      if threw {
        return Thrown;
      }
      CallEnds(halted);
      VerdictMeans(plan, log);
      return Verdict(Summary(results));
    }

    lemma CallIsRight(threw: bool)
      requires Valid() && Orderly(plan, base, log) && StoredResults() == Recall(base, log) && (threw ==> Interrupted())
      ensures TurnsAreRight(plan, base, log) && StoresItsRecords(base, log, StoredResults())
      ensures NeverAgain(plan, History()) && (threw ==> CutShort(log))
    {
      TurnsOf(plan, base, log);
      RecallStores(base, log);
      if Due(log) != {} {
        DueIsUnrecorded(plan, base, log);
      }
    }

    /** A call that has found everything passed ends with a pass. */
    lemma AfterPass(threw: bool, halted: bool)
      requires Orderly(plan, base, log) && (threw ==> Interrupted()) && (!threw && halted ==> Halted())
      ensures (forall id :: id in TestImpact.Union(plan.layers) ==> PassedIn(base, id)) ==>
                !threw && !halted && forall i :: 0 <= i < |log| ==> log[i].Reused?
    {
      if forall id :: id in TestImpact.Union(plan.layers) ==> PassedIn(base, id) {
        OnlyReused(plan, base, log);
      }
    }

    /** What the verdict of a call that is not broken off says. */
    lemma CallEnds(halted: bool)
      requires Orderly(plan, base, log) && StoredResults() == Recall(base, log)
      requires if halted then Halted() else Passing(TestImpact.Union(plan.layers))
      ensures SummaryOf(Statuses(log)) == Summary(results)
      ensures Summary(results) == Passed <==> !halted
      ensures !halted <==> TestImpact.Union(plan.layers) <= Settled(log)
      ensures Running(log) == {} && EndsAreStored(log, StoredResults())
      ensures !halted ==> AllStored()
    {
      EndsStored(plan, base, log);
      PassedIff(Statuses(log));
      PassesStored(plan, base, log);
    }

    /** Layer after layer, until a node does not pass. */
    method RunLayers(reusable: set<string>, memory: map<string, Status>) returns (halted: bool, threw: bool)
      requires InCall(reusable, memory) && log == [] && results == []
      modifies `log, `stored, `results
      ensures Valid() && Orderly(plan, base, log) && StoredResults() == Recall(base, log)
      ensures threw ==> Interrupted()
      ensures !threw && halted ==> Halted()
      ensures !threw && !halted ==> Passing(TestImpact.Union(plan.layers))
    {
      halted, threw := false, false;
      var now := memory;
      var l := 0;
      while l < |plan.layers|
        invariant !halted && !threw && 0 <= l <= |plan.layers| && InCall(reusable, now)
        invariant Passing(TestImpact.Union(plan.layers[..l]))
      {
        LayerEnds(l);
        now, halted, threw := RunSerial(l, reusable, now);
        if halted || threw {
          return;
        }
        now, halted, threw := RunParallel(l, reusable, now);
        if halted || threw {
          return;
        }
        l := l + 1;
      }
      assert plan.layers[..|plan.layers|] == plan.layers;
    }

    lemma LayerEnds(l: nat)
      requires l < |plan.layers|
      ensures TestImpact.Union(plan.layers[..l]) + TestImpact.Members([]) == TestImpact.Union(plan.layers[..l])
      ensures TestImpact.Union(plan.layers[..l + 1]) ==
              TestImpact.Union(plan.layers[..l]) + TestImpact.Members(plan.layers[l])
    {
      assert plan.layers[..l + 1][..l] == plan.layers[..l];
    }
  }

  function SummaryOf(statuses: set<Status>): Status {
    if Cancelled in statuses then Cancelled
    else if Blocked in statuses then Blocked
    else if Failed in statuses then Failed
    else Passed
  }

  lemma PassedIff(statuses: set<Status>)
    ensures SummaryOf(statuses) == Passed <==> statuses <= {Passed}
  {
    if SummaryOf(statuses) == Passed {
      forall s | s in statuses ensures s == Passed {
        match s
        case _ =>
      }
    }
  }

  function StatusSet(results: seq<Status>): set<Status> {
    set s | s in results
  }

  lemma StatusSetGrows(results: seq<Status>, status: Status)
    ensures StatusSet(results + [status]) == StatusSet(results) + {status}
  {
  }

  function Summary(results: seq<Status>): Status {
    if Cancelled in results then Cancelled
    else if Blocked in results then Blocked
    else if Failed in results then Failed
    else Passed
  }

  /** The serial nodes of a layer and its first `n` parallel ones. */
  function UpTo(plan: Plan, l: nat, n: nat): seq<string>
    requires l < |plan.layers|
  {
    var nodes := Select(plan, plan.layers[l], false);
    Select(plan, plan.layers[l], true) + if n < |nodes| then nodes[..n] else nodes
  }

  lemma {:induction false} RunningIsTouched(log: seq<Event>)
    ensures Running(log) <= Touched(log)
    decreases |log|
  {
    if log != [] {
      RunningIsTouched(log[..|log| - 1]);
    }
  }

  lemma KnownNode(plan: Plan, log: seq<Event>, id: string)
    requires WellFormed(plan) && MayStart(plan, log, id)
    ensures id in plan.nodes
  {
    var l, j :| Placed(plan, id, l, j) && Prerequisites(plan, l, j) <= Settled(log);
    assert LayerFine(plan, l);
  }

  lemma MayStartStays(plan: Plan, log: seq<Event>, later: seq<Event>, id: string, partner: string)
    requires MayStart(plan, log, id)
    requires Settled(log) <= Settled(later) && id !in Touched(later)
    requires Running(later) <= {partner} && Touched(later) - Settled(later) <= {partner}
    requires IsParallel(plan, partner) && IsParallel(plan, id)
    ensures MayStart(plan, later, id)
  {
    var l, j :| Placed(plan, id, l, j) && Prerequisites(plan, l, j) <= Settled(log);
    assert Prerequisites(plan, l, j) <= Settled(later);
  }

  // ---------- picking nodes out of a layer ----------

  lemma {:induction false} SelectAt(plan: Plan, ids: seq<string>, serial: bool, i: nat) returns (j: nat)
    requires i < |Select(plan, ids, serial)|
    ensures j < |ids| && ids[j] == Select(plan, ids, serial)[i]
    ensures Select(plan, ids[..j], serial) == Select(plan, ids, serial)[..i]
    ensures if serial then IsSerial(plan, ids[j]) else IsParallel(plan, ids[j])
    decreases |ids|
  {
    var n := |ids| - 1;
    if i < |Select(plan, ids[..n], serial)| {
      j := SelectAt(plan, ids[..n], serial, i);
      assert ids[..n][..j] == ids[..j];
    } else {
      j := n;
    }
  }

  lemma InPlan(plan: Plan, l: nat, serial: bool, i: nat)
    requires WellFormed(plan) && l < |plan.layers| && i < |Select(plan, plan.layers[l], serial)|
    ensures var id := Select(plan, plan.layers[l], serial)[i];
            && id in plan.layers[l]
            && id in TestImpact.Union(plan.layers)
            && id !in TestImpact.Union(plan.layers[..l])
            && id !in Select(plan, plan.layers[l], serial)[..i]
  {
    var layer := plan.layers[l];
    var j := SelectAt(plan, layer, serial, i);
    assert LayerFine(plan, l);
    TestImpact.MemberOfUnion(plan.layers, l, layer[j]);
    SelectIsFrom(plan, layer[..j], serial);
  }

  lemma {:induction false} SelectIsFrom(plan: Plan, ids: seq<string>, serial: bool)
    ensures forall id :: id in Select(plan, ids, serial) ==>
              id in ids && if serial then IsSerial(plan, id) else IsParallel(plan, id)
    decreases |ids|
  {
    if ids != [] {
      SelectIsFrom(plan, ids[..|ids| - 1], serial);
    }
  }

  lemma UnionGrows(plan: Plan, l: nat)
    requires l < |plan.layers|
    ensures TestImpact.Union(plan.layers[..l]) <= TestImpact.Union(plan.layers)
    ensures TestImpact.Members(plan.layers[l]) <= TestImpact.Union(plan.layers)
  {
    forall id | id in TestImpact.Union(plan.layers[..l])
      ensures id in TestImpact.Union(plan.layers)
    {
      var k := TestImpact.LayerOf(plan.layers[..l], id);
      TestImpact.MemberOfUnion(plan.layers, k, id);
    }
    forall id | id in plan.layers[l]
      ensures id in TestImpact.Union(plan.layers)
    {
      TestImpact.MemberOfUnion(plan.layers, l, id);
    }
  }

  lemma SerialMayStart(plan: Plan, log: seq<Event>, l: nat, i: nat)
    requires WellFormed(plan) && l < |plan.layers| && i < |Select(plan, plan.layers[l], true)|
    requires Running(log) == {}
    requires TestImpact.Union(plan.layers[..l]) +
             TestImpact.Members(Select(plan, plan.layers[l], true)[..i]) <= Settled(log)
    requires Touched(log) <= TestImpact.Union(plan.layers[..l]) +
             TestImpact.Members(Select(plan, plan.layers[l], true)[..i])
    ensures MayStart(plan, log, Select(plan, plan.layers[l], true)[i])
  {
    var j := SelectAt(plan, plan.layers[l], true, i);
    InPlan(plan, l, true, i);
    assert Placed(plan, plan.layers[l][j], l, j);
  }

  lemma {:induction false} SelectCovers(plan: Plan, ids: seq<string>)
    requires forall i :: 0 <= i < |ids| ==> ids[i] in plan.nodes
    ensures TestImpact.Members(Select(plan, ids, true)) + TestImpact.Members(Select(plan, ids, false))
            == TestImpact.Members(ids)
    decreases |ids|
  {
    if ids != [] {
      var n := |ids| - 1;
      SelectCovers(plan, ids[..n]);
      assert ids == ids[..n] + [ids[n]];
      MembersAppend(ids[..n], ids[n]);
      MembersAppend(Select(plan, ids[..n], true), ids[n]);
      MembersAppend(Select(plan, ids[..n], false), ids[n]);
      assert IsSerial(plan, ids[n]) != IsParallel(plan, ids[n]);
    }
  }

  lemma MembersAppend(ids: seq<string>, id: string)
    ensures TestImpact.Members(ids + [id]) == TestImpact.Members(ids) + {id}
    ensures ids + [] == ids
  {
  }

  lemma ParallelFacts(plan: Plan, l: nat, i: nat)
    requires WellFormed(plan) && l < |plan.layers| && i < |Select(plan, plan.layers[l], false)|
    ensures var id := Select(plan, plan.layers[l], false)[i];
            && IsParallel(plan, id)
            && id !in Select(plan, plan.layers[l], false)[..i]
            && id !in Select(plan, plan.layers[l], true)
            && id !in TestImpact.Union(plan.layers[..l])
  {
    InPlan(plan, l, false, i);
    SelectIsFrom(plan, plan.layers[l], true);
    SelectIsFrom(plan, plan.layers[l], false);
  }

  lemma UpToGrows(plan: Plan, l: nat, offset: nat)
    requires l < |plan.layers| && offset < |Select(plan, plan.layers[l], false)|
    ensures var nodes := Select(plan, plan.layers[l], false);
            var last := if offset + 1 < |nodes| then {nodes[offset], nodes[offset + 1]} else {nodes[offset]};
            TestImpact.Members(UpTo(plan, l, offset + 2)) == TestImpact.Members(UpTo(plan, l, offset)) + last
  {
    var nodes := Select(plan, plan.layers[l], false);
    var more := if offset + 1 < |nodes| then [nodes[offset], nodes[offset + 1]] else [nodes[offset]];
    assert UpTo(plan, l, offset + 2) == UpTo(plan, l, offset) + more;
  }

  lemma UpToInPlan(plan: Plan, l: nat, n: nat)
    requires l < |plan.layers|
    ensures TestImpact.Union(plan.layers[..l]) + TestImpact.Members(UpTo(plan, l, n)) <= TestImpact.Union(plan.layers)
  {
    UnionGrows(plan, l);
    SelectIsFrom(plan, plan.layers[l], true);
    SelectIsFrom(plan, plan.layers[l], false);
  }

  lemma ParallelMayStart(plan: Plan, log: seq<Event>, l: nat, offset: nat, i: nat)
    requires WellFormed(plan) && l < |plan.layers| && offset <= i < |Select(plan, plan.layers[l], false)|
    requires Running(log) == {}
    requires TestImpact.Union(plan.layers[..l]) + TestImpact.Members(UpTo(plan, l, offset)) <= Settled(log)
    requires Touched(log) <= TestImpact.Union(plan.layers[..l]) + TestImpact.Members(UpTo(plan, l, offset))
    ensures MayStart(plan, log, Select(plan, plan.layers[l], false)[i])
  {
    var nodes := Select(plan, plan.layers[l], false);
    var j := SelectAt(plan, plan.layers[l], false, i);
    ParallelFacts(plan, l, i);
    assert nodes[..i][..offset] == nodes[..offset];
    assert Placed(plan, plan.layers[l][j], l, j);
  }

  lemma {:induction false} SettledIsTouched(log: seq<Event>)
    ensures Settled(log) <= Touched(log)
    decreases |log|
  {
    if log != [] {
      SettledIsTouched(log[..|log| - 1]);
    }
  }

  // ---------- reading a well-scheduled log ----------

  predicate Passes(e: Event, id: string) {
    e == Reused(id) || e == Ended(id, Passed)
  }

  lemma {:induction false} SettledAt(log: seq<Event>, id: string) returns (m: nat)
    requires id in Settled(log)
    ensures m < |log| && Passes(log[m], id)
    decreases |log|
  {
    var n := |log| - 1;
    if Passes(log[n], id) {
      m := n;
    } else {
      m := SettledAt(log[..n], id);
    }
  }

  lemma {:induction false} PlacedOnce(plan: Plan, id: string, l: nat, j: nat, k: nat, i: nat)
    requires WellFormed(plan) && Placed(plan, id, l, j) && Placed(plan, id, k, i)
    ensures l == k && j == i
  {
    assert LayerFine(plan, l) && LayerFine(plan, k);
    if l < k {
      assert plan.layers[..k][l] == plan.layers[l];
      TestImpact.MemberOfUnion(plan.layers[..k], l, id);
    } else if k < l {
      assert plan.layers[..l][k] == plan.layers[k];
      TestImpact.MemberOfUnion(plan.layers[..l], k, id);
    }
  }

  /**
    At place `k`, `n` of the plan stands a node that goes before the one at place `l`, `j`: it is in an
    earlier layer, or it is not both light and parallel and comes earlier in the same layer, or anywhere
    in it if the other node is light and parallel.
  */
  predicate GoesBefore(plan: Plan, k: nat, n: nat, l: nat, j: nat)
    requires k < |plan.layers| && n < |plan.layers[k]| && plan.layers[k][n] in plan.nodes
    requires l < |plan.layers| && j < |plan.layers[l]| && plan.layers[l][j] in plan.nodes
  {
    var (first, second) := (plan.nodes[plan.layers[k][n]], plan.nodes[plan.layers[l][j]]);
    || k < l
    || (k == l && (first.execution == Serial || first.resource != Light) &&
        (n < j || (second.execution == Parallel && second.resource == Light)))
  }

  /** A node starts only after each node that goes before it has passed or been reused in this call. */
  lemma StartsInOrder(plan: Plan, log: seq<Event>, i: nat, l: nat, j: nat, k: nat, n: nat)
    requires WellFormed(plan) && WellScheduled(plan, log) && i < |log|
    requires l < |plan.layers| && j < |plan.layers[l]| && log[i] == Started(plan.layers[l][j])
    requires k < |plan.layers| && n < |plan.layers[k]|
    requires plan.layers[k][n] in plan.nodes && plan.layers[l][j] in plan.nodes && GoesBefore(plan, k, n, l, j)
    ensures Reused(plan.layers[k][n]) in log[..i] || Ended(plan.layers[k][n], Passed) in log[..i]
  {
    assert MayStart(plan, log[..i], log[i].id);
    var l', j' :| Placed(plan, log[i].id, l', j') && Prerequisites(plan, l', j') <= Settled(log[..i]);
    assert Placed(plan, log[i].id, l, j);
    PlacedOnce(plan, log[i].id, l, j, l', j');
    IsPrerequisite(plan, k, n, l, j);
    SettledMeans(log[..i], plan.layers[k][n]);
  }

  lemma IsPrerequisite(plan: Plan, k: nat, n: nat, l: nat, j: nat)
    requires k < |plan.layers| && n < |plan.layers[k]| && plan.layers[k][n] in plan.nodes
    requires l < |plan.layers| && j < |plan.layers[l]| && plan.layers[l][j] in plan.nodes
    requires GoesBefore(plan, k, n, l, j)
    ensures plan.layers[k][n] in Prerequisites(plan, l, j)
  {
    var layer := plan.layers[l];
    if k < l {
      assert plan.layers[..l][k] == plan.layers[k];
      TestImpact.MemberOfUnion(plan.layers[..l], k, plan.layers[k][n]);
    } else if n < j {
      assert layer[..j][n] == layer[n];
      SerialIsSelected(plan, layer[..j], n);
      SerialIsSelected(plan, layer, n);
    } else {
      SerialIsSelected(plan, layer, n);
    }
  }

  lemma {:induction false} SerialIsSelected(plan: Plan, ids: seq<string>, n: nat)
    requires n < |ids| && IsSerial(plan, ids[n])
    ensures ids[n] in Select(plan, ids, true)
    decreases |ids|
  {
    if n < |ids| - 1 {
      SerialIsSelected(plan, ids[..|ids| - 1], n);
    }
  }

  /** At every moment of a call at most two nodes run, and two only if both are light and parallel. */
  lemma AtMostTwoRun(plan: Plan, log: seq<Event>, i: nat)
    requires WellScheduled(plan, log) && i <= |log|
    ensures forall a, b, c :: Runs(log, i, a) && Runs(log, i, b) && Runs(log, i, c) ==> a == b || b == c || a == c
    ensures forall a, b :: Runs(log, i, a) && Runs(log, i, b) && a != b ==>
              a in plan.nodes && plan.nodes[a].execution == Parallel && plan.nodes[a].resource == Light
  {
    var running := Running(log[..i]);
    FewAreRunning(plan, log, i);
    forall a | Runs(log, i, a) ensures a in running {
      RunningMeans(log, i, a);
    }
    forall a, b, c | a in running && b in running && c in running
      ensures a == b || b == c || a == c
      ensures a != b ==> IsParallel(plan, a)
    {
      ThreeOfTwo(running, a, b, c);
    }
  }

  lemma ThreeOfTwo(s: set<string>, a: string, b: string, c: string)
    requires a in s && b in s && c in s && |s| <= 2
    ensures a == b || b == c || a == c
    ensures a != b ==> |s| == 2
  {
    if a != b {
      var rest := s - {a} - {b};
      assert |rest| == |s| - 2;
      assert c in rest ==> |rest| > 0;
    }
  }

  lemma {:induction false} FewAreRunning(plan: Plan, log: seq<Event>, i: nat)
    requires WellScheduled(plan, log) && i <= |log|
    ensures |Running(log[..i])| <= 2
    ensures |Running(log[..i])| == 2 ==> forall id :: id in Running(log[..i]) ==> IsParallel(plan, id)
  {
    if i > 0 {
      FewAreRunning(plan, log, i - 1);
      assert log[..i][..i - 1] == log[..i - 1];
      assert log[i - 1].Started? ==> MayStart(plan, log[..i - 1], log[i - 1].id);
      RunningStaysSmall(plan, Running(log[..i - 1]), log[i - 1]);
    }
  }

  lemma RunningStaysSmall(plan: Plan, running: set<string>, e: Event)
    requires |running| <= 2 && (|running| == 2 ==> forall id :: id in running ==> IsParallel(plan, id))
    requires e.Started? ==>
               forall other :: other in running ==>
                 running == {other} && IsParallel(plan, other) && IsParallel(plan, e.id)
    ensures |RunningAfter(running, e)| <= 2
    ensures |RunningAfter(running, e)| == 2 ==> forall id :: id in RunningAfter(running, e) ==> IsParallel(plan, id)
  {
    if e.Started? {
      if running != {} {
        var other :| other in running;
        assert running == {other};
      }
    } else if e.id in running {
      assert |running - {e.id}| == |running| - 1;
    } else {
      assert running - {e.id} == running;
    }
  }

  /** The planner's layers make a well-formed plan. */
  lemma LayeredIsWellFormed(plan: Plan, graph: TestImpact.Graph, selected: set<string>)
    requires TestImpact.Layered(graph, selected, plan.layers) && selected <= plan.nodes.Keys
    ensures WellFormed(plan)
  {
    forall l | 0 <= l < |plan.layers|
      ensures LayerFine(plan, l)
    {
      assert TestImpact.LayerOk(graph, selected, plan.layers, l);
      assert forall i :: 0 <= i < |plan.layers[l]| ==> plan.layers[l][i] in plan.layers[l];
    }
  }

  /**
    Planner and scheduler together: a node starts only after each of its selected dependencies has
    passed or been reused.
  */
  lemma DependenciesPassFirst(plan: Plan, graph: TestImpact.Graph, selected: set<string>, log: seq<Event>, i: nat,
                              d: string)
    requires TestImpact.Layered(graph, selected, plan.layers) && selected <= plan.nodes.Keys
    requires WellScheduled(plan, log) && i < |log| && log[i].Started?
    requires d in graph(log[i].id) && d in selected
    ensures Reused(d) in log[..i] || Ended(d, Passed) in log[..i]
  {
    LayeredIsWellFormed(plan, graph, selected);
    assert MayStart(plan, log[..i], log[i].id);
    var l: nat, j: nat :| Placed(plan, log[i].id, l, j) && Prerequisites(plan, l, j) <= Settled(log[..i]);
    var k := TestImpact.DependenciesFirst(graph, selected, plan.layers, l, log[i].id, d);
    assert plan.layers[..l][k] == plan.layers[k];
    TestImpact.MemberOfUnion(plan.layers[..l], k, d);
    SettledMeans(log[..i], d);
  }

  // ---------- what a call does, written out ----------

  /** Each node has one turn, and its stored result and its resource level say what becomes of it. */
  ghost predicate TurnsAreRight(plan: Plan, found: map<string, Status>, log: seq<Event>) {
    && (forall i :: 0 <= i < |log| && (log[i].Started? || log[i].Reused? || log[i].Refused?) ==>
          var id := log[i].id;
          && id in plan.nodes
          && log[i] == if id in found && found[id] == Passed then Reused(id)
                       else if id in found && found[id] == Failed && plan.nodes[id].resource == CpuHeavy
                         then Refused(id)
                       else Started(id))
    && (forall i, j :: 0 <= i < j < |log| && (log[j].Started? || log[j].Reused? || log[j].Refused?) ==>
          log[i].id != log[j].id)
  }

  lemma TurnsOf(plan: Plan, base: map<string, Status>, log: seq<Event>)
    requires WellFormed(plan) && Orderly(plan, base, log)
    ensures TurnsAreRight(plan, base, log)
  {
    forall i | 0 <= i < |log| && (log[i].Started? || log[i].Reused? || log[i].Refused?)
      ensures MayStart(plan, log[..i], log[i].id) && InOrder(plan, base, log[..i], log[i]) && log[i].id in plan.nodes
    {
      OrderlyAt(plan, base, log, i);
      KnownNode(plan, log[..i], log[i].id);
    }
    forall i, j | 0 <= i < j < |log| && (log[j].Started? || log[j].Reused? || log[j].Refused?)
      ensures log[i].id != log[j].id
    {
      TouchedMember(log[..j], i);
    }
  }

  /** How a call ends, told from its log. */
  ghost predicate EndsWith(plan: Plan, log: seq<Event>, status: Status) {
    && (status == Cancelled <==> exists id :: Ended(id, Cancelled) in log)
    && (status == Blocked <==> status != Cancelled && exists id :: Ended(id, Blocked) in log)
    && (status == Failed <==>
        status !in {Cancelled, Blocked} && exists id :: Ended(id, Failed) in log || Refused(id) in log)
    && (status == Passed <==>
        forall l, j :: 0 <= l < |plan.layers| && 0 <= j < |plan.layers[l]| ==>
          Reused(plan.layers[l][j]) in log || Ended(plan.layers[l][j], Passed) in log)
  }

  lemma VerdictMeans(plan: Plan, log: seq<Event>)
    requires SummaryOf(Statuses(log)) == Passed <==> TestImpact.Union(plan.layers) <= Settled(log)
    ensures EndsWith(plan, log, SummaryOf(Statuses(log)))
  {
    forall status
      ensures status in Statuses(log) <==>
              exists id :: Ended(id, status) in log || (status == Passed && Reused(id) in log) ||
                           (status == Failed && Refused(id) in log)
    {
      if status in Statuses(log) {
        var i := StatusIsSeen(log, status);
        assert log[i] in log;
      }
      if id :| Ended(id, status) in log || (status == Passed && Reused(id) in log) ||
               (status == Failed && Refused(id) in log) {
        StatusCounts(log, id, status);
      }
    }
    forall id ensures id in Settled(log) <==> Reused(id) in log || Ended(id, Passed) in log {
      SettledMeans(log, id);
    }
    forall l, j | 0 <= l < |plan.layers| && 0 <= j < |plan.layers[l]|
      ensures plan.layers[l][j] in TestImpact.Union(plan.layers)
    {
      TestImpact.MemberOfUnion(plan.layers, l, plan.layers[l][j]);
    }
    forall id | id in TestImpact.Union(plan.layers)
      ensures exists l, j :: 0 <= l < |plan.layers| && 0 <= j < |plan.layers[l]| && plan.layers[l][j] == id
    {
      var l := TestImpact.LayerOf(plan.layers, id);
    }
  }

  lemma {:induction false} StatusCounts(log: seq<Event>, id: string, status: Status)
    requires Ended(id, status) in log || (status == Passed && Reused(id) in log) ||
             (status == Failed && Refused(id) in log)
    ensures status in Statuses(log)
    decreases |log|
  {
    var n := |log| - 1;
    assert log == log[..n] + [log[n]];
    if status !in StatusesAfter({}, log[n]) {
      StatusCounts(log[..n], id, status);
    }
  }

  lemma {:induction false} SettledMeans(log: seq<Event>, id: string)
    ensures id in Settled(log) <==> Reused(id) in log || Ended(id, Passed) in log
    decreases |log|
  {
    if log != [] {
      var n := |log| - 1;
      assert log == log[..n] + [log[n]];
      SettledMeans(log[..n], id);
    }
  }

  /** A call without a verdict was broken off, or a result was not stored. */
  ghost predicate CutShort(log: seq<Event>) {
    || (log != [] && log[|log| - 1].Broke?)
    || exists id, status :: Ended(id, status) in log && Recorded(id, status) !in log
  }

  lemma DueIsUnrecorded(plan: Plan, base: map<string, Status>, log: seq<Event>)
    requires Orderly(plan, base, log) && Due(log) != {}
    ensures CutShort(log)
  {
    OrderlyIsTraced(plan, base, log);
    var e :| e in Due(log);
    var k := DueHasEnded(log, e);
    assert log[k] in log;
    NotYetRecorded(log, e);
  }

  lemma {:induction false} NotYetRecorded(log: seq<Event>, e: Event)
    requires Traced(log) && e in Due(log)
    ensures e !in log
    decreases |log|
  {
    var n := |log| - 1;
    assert log == log[..n] + [log[n]];
    var k := DueHasEnded(log, e);
    if e in Due(log[..n]) {
      NotYetRecorded(log[..n], e);
    } else if e in log[..n] {
      var r :| 0 <= r < n && log[r] == e;
      TracedAt(log, r);
      var m := DueHasEnded(log[..r], e);
      EndsOnce(log, m, n);
    }
  }

  /** What the log leaves stored, if `found` was stored before it: the last record of a node counts. */
  ghost predicate StoresItsRecords(found: map<string, Status>, log: seq<Event>, now: map<string, Status>) {
    && (forall id :: (forall status :: Recorded(id, status) !in log) ==>
          (id in now <==> id in found) && (id in found ==> now[id] == found[id]))
    && (forall i :: 0 <= i < |log| && log[i].Recorded? &&
                    (forall j :: i < j < |log| && log[j].id == log[i].id ==> !log[j].Recorded?) ==>
          log[i].id in now && now[log[i].id] == log[i].status)
  }

  lemma {:induction false} RecallStores(found: map<string, Status>, log: seq<Event>)
    ensures StoresItsRecords(found, log, Recall(found, log))
    decreases |log|
  {
    if log != [] {
      var n := |log| - 1;
      var now := Recall(found, log);
      RecallStores(found, log[..n]);
      assert log == log[..n] + [log[n]];
      forall i | 0 <= i < |log| && log[i].Recorded? &&
                 (forall j :: i < j < |log| && log[j].id == log[i].id ==> !log[j].Recorded?)
        ensures log[i].id in now && now[log[i].id] == log[i].status
      {
        if i < n {
          assert log[n].id == log[i].id ==> !log[n].Recorded?;
          assert log[..n][i] == log[i];
        }
      }
    }
  }

  /** Over all calls: what was recorded passed, or CPU-heavy and failed, is never started again. */
  ghost predicate NeverAgain(plan: Plan, events: seq<Event>) {
    forall i, j :: 0 <= i < j < |events| && events[j].Started? ==>
      var id := events[j].id;
      && events[i] != Recorded(id, Passed)
      && (id in plan.nodes && plan.nodes[id].resource == CpuHeavy ==> events[i] != Recorded(id, Failed))
  }

  /** The node started at `s` and its run is not over before place `i` of the log. */
  predicate RunsSince(log: seq<Event>, s: nat, i: nat, id: string)
    requires i <= |log|
  {
    && s < i && log[s] == Started(id)
    && forall k :: s < k < i ==> log[k] != Broke(id) && !(log[k].Ended? && log[k].id == id)
  }

  ghost predicate Runs(log: seq<Event>, i: nat, id: string)
    requires i <= |log|
  {
    exists s :: RunsSince(log, s, i, id)
  }

  lemma {:induction false} RunningMeans(log: seq<Event>, i: nat, id: string)
    requires i <= |log|
    ensures id in Running(log[..i]) <==> Runs(log, i, id)
  {
    if i > 0 {
      RunningMeans(log, i - 1, id);
      assert log[..i][..i - 1] == log[..i - 1];
      RunsOn(log, i, id);
    }
  }

  lemma RunsOn(log: seq<Event>, i: nat, id: string)
    requires 0 < i <= |log|
    ensures var e := log[i - 1];
            Runs(log, i, id) <==>
            e == Started(id) || (Runs(log, i - 1, id) && !((e.Ended? || e.Broke?) && e.id == id))
  {
    var (e, p) := (log[i - 1], i - 1);
    if e == Started(id) {
      assert RunsSince(log, p, i, id);
    } else if s :| RunsSince(log, s, i, id) {
      assert RunsSince(log, s, p, id);
    } else if s :| RunsSince(log, s, p, id) {
      assert !((e.Ended? || e.Broke?) && e.id == id) ==> RunsSince(log, s, i, id);
    }
  }

  /** After a node has failed nothing starts but the one light parallel node it ran beside. */
  lemma FailureHalts(plan: Plan, base: map<string, Status>, log: seq<Event>, k: nat, i: nat)
    requires Orderly(plan, base, log) && k < i < |log| && log[i].Started?
    requires log[k].Refused? || (log[k].Ended? && log[k].status != Passed)
    ensures forall id :: id in {log[i].id, log[k].id} ==>
              id in plan.nodes && plan.nodes[id].execution == Parallel && plan.nodes[id].resource == Light
    ensures forall m :: 0 <= m < i && log[m].id != log[k].id ==>
              Reused(log[m].id) in log[..i] || Ended(log[m].id, Passed) in log[..i]
  {
    OrderlyIsTraced(plan, base, log);
    OrderlyAt(plan, base, log, i);
    TouchedMember(log[..i], k);
    FailedIsNotSettled(log, k, i);
    OnlyUnsettled(plan, log[..i], log[i].id, log[k].id);
    forall m | 0 <= m < i && log[m].id != log[k].id
      ensures Reused(log[m].id) in log[..i] || Ended(log[m].id, Passed) in log[..i]
    {
      TouchedMember(log[..i], m);
      SettledMeans(log[..i], log[m].id);
    }
  }

  lemma OnlyUnsettled(plan: Plan, log: seq<Event>, id: string, other: string)
    requires MayStart(plan, log, id) && other in Touched(log) && other !in Settled(log)
    ensures IsParallel(plan, other) && IsParallel(plan, id)
    ensures Touched(log) <= Settled(log) + {other}
  {
    var begun := Touched(log) - Settled(log);
    assert other in begun && begun == {other};
    forall t | t in Touched(log) ensures t in Settled(log) + {other} {
      assert t !in Settled(log) ==> t in begun;
    }
  }

  /** A node with two events in the log was started with the first of them, or the second is a record. */
  lemma LaterRan(log: seq<Event>, k: nat, m: nat)
    requires Traced(log) && k < m < |log| && log[k].id == log[m].id && !log[m].Recorded?
    ensures log[k].Started?
  {
    TracedAt(log, m);
    TouchedMember(log[..m], k);
    RunningIsNew(log[..m], log[m].id, k);
  }

  lemma FailedIsNotSettled(log: seq<Event>, k: nat, i: nat)
    requires Traced(log) && k < i <= |log|
    requires log[k].Refused? || (log[k].Ended? && log[k].status != Passed)
    ensures log[k].id !in Settled(log[..i])
  {
    var id := log[k].id;
    if id in Settled(log[..i]) {
      var m := SettledAt(log[..i], id);
      assert log[..i][m] == log[m];
      LaterRan(log, if k < m then k else m, if k < m then m else k);
    }
  }

  // ---------- what a call leaves behind ----------

  /** Each result a node ended with was recorded, and is the one stored for it. */
  predicate EndsAreStored(log: seq<Event>, results: map<string, Status>) {
    forall i :: 0 <= i < |log| && log[i].Ended? ==>
      Recorded(log[i].id, log[i].status) in log && log[i].id in results && results[log[i].id] == log[i].status
  }

  /** Every node that passed or was reused is stored as passed. */
  lemma PassesStored(plan: Plan, base: map<string, Status>, log: seq<Event>)
    requires Orderly(plan, base, log) && Due(log) == {}
    ensures forall id :: id in Settled(log) ==> PassedIn(Recall(base, log), id)
  {
    OrderlyIsTraced(plan, base, log);
    forall id | id in Settled(log) ensures PassedIn(Recall(base, log), id) {
      var m := SettledAt(log, id);
      if log[m].Reused? {
        OrderlyAt(plan, base, log, m);
        ReusedIsStored(base, log, m);
      } else {
        EndIsStored(base, log, m);
      }
    }
  }

  /** A call that finds every node stored as passed starts none. */
  lemma {:induction false} OnlyReused(plan: Plan, base: map<string, Status>, log: seq<Event>)
    requires Orderly(plan, base, log)
    requires forall id :: id in TestImpact.Union(plan.layers) ==> PassedIn(base, id)
    ensures forall i :: 0 <= i < |log| ==> log[i].Reused?
    ensures Running(log) == {} && Due(log) == {} && Statuses(log) <= {Passed}
  {
    if log != [] {
      var n := |log| - 1;
      OnlyReused(plan, base, log[..n]);
      ReusedNext(plan, base, log[..n], log[n]);
      forall i | 0 <= i < |log| ensures log[i].Reused? {
        assert i < n ==> log[i] == log[..n][i];
      }
    }
  }

  lemma ReusedNext(plan: Plan, base: map<string, Status>, log: seq<Event>, e: Event)
    requires InOrder(plan, base, log, e) && Running(log) == {} && Due(log) == {}
    requires forall id :: id in TestImpact.Union(plan.layers) ==> PassedIn(base, id)
    ensures e.Reused?
  {
    if e.Started? || e.Refused? {
      var l, j :| Placed(plan, e.id, l, j) && Prerequisites(plan, l, j) <= Settled(log);
      TestImpact.MemberOfUnion(plan.layers, l, e.id);
    }
  }

  /** Each result that counts in the verdict is that of a node of the log. */
  lemma {:induction false} StatusIsSeen(log: seq<Event>, status: Status) returns (i: nat)
    requires status in Statuses(log)
    ensures i < |log|
    ensures log[i] == Ended(log[i].id, status) ||
            (status == Passed && log[i].Reused?) || (status == Failed && log[i].Refused?)
    decreases |log|
  {
    var n := |log| - 1;
    if status in Statuses(log[..n]) {
      i := StatusIsSeen(log[..n], status);
    } else {
      i := n;
    }
  }

  /** What an event presupposes, whatever the plan. */
  predicate Follows(log: seq<Event>, e: Event) {
    match e
    case Ended(id, _) => id in Running(log)
    case Broke(id) => id in Running(log)
    case Recorded(_, _) => e in Due(log)
    case _ => e.id !in Touched(log)
  }

  predicate Traced(log: seq<Event>) {
    log != [] ==> Traced(log[..|log| - 1]) && Follows(log[..|log| - 1], log[|log| - 1])
  }

  lemma {:induction false} OrderlyIsTraced(plan: Plan, base: map<string, Status>, log: seq<Event>)
    requires Orderly(plan, base, log)
    ensures Traced(log)
  {
    if log != [] {
      var n := |log| - 1;
      OrderlyIsTraced(plan, base, log[..n]);
    }
  }

  /** A running node has not ended, been reused or been refused. */
  lemma {:induction false} RunningIsNew(log: seq<Event>, id: string, k: nat)
    requires Traced(log) && id in Running(log) && k < |log| && log[k].id == id
    ensures log[k].Started?
    decreases |log|
  {
    var n := |log| - 1;
    if k < n {
      TouchedMember(log[..n], k);
      RunningIsNew(log[..n], id, k);
    } else {
      RunningIsTouched(log[..n]);
      if log[n].Recorded? {
        var m := DueHasEnded(log[..n], log[n]);
        RunningIsNew(log[..n], id, m);
      }
    }
  }

  /** What is due is the result of a node that ended. */
  lemma {:induction false} DueHasEnded(log: seq<Event>, e: Event) returns (k: nat)
    requires e in Due(log)
    ensures k < |log| && e.Recorded? && log[k] == Ended(e.id, e.status)
    decreases |log|
  {
    var n := |log| - 1;
    if log[n].Ended? && e == Recorded(log[n].id, log[n].status) {
      k := n;
    } else {
      k := DueHasEnded(log[..n], e);
    }
  }

  /** A node that has been reused or has ended does not end later. */
  lemma {:induction false} EndsOnce(log: seq<Event>, i: nat, j: nat)
    requires Traced(log) && i < j < |log| && (log[i].Reused? || log[i].Ended?) && log[j].Ended?
    ensures log[i].id != log[j].id
    decreases |log|
  {
    var n := |log| - 1;
    if j < n {
      EndsOnce(log[..n], i, j);
    } else if log[i].id == log[j].id {
      RunningIsNew(log[..n], log[j].id, i);
    }
  }

  /** A result is due until it is recorded, and then it stays stored. */
  lemma {:induction false} EndIsStored(base: map<string, Status>, log: seq<Event>, i: nat)
    requires Traced(log) && i < |log| && log[i].Ended?
    ensures Recorded(log[i].id, log[i].status) in Due(log) || Kept(base, log, log[i].id, log[i].status)
    decreases |log|
  {
    var n := |log| - 1;
    var (id, status) := (log[i].id, log[i].status);
    if i < n {
      EndIsStored(base, log[..n], i);
      assert Recorded(id, status) in log[..n] ==> Recorded(id, status) in log;
      if log[n].Recorded? && log[n].id == id {
        var k := DueHasEnded(log[..n], log[n]);
        if k < i {
          EndsOnce(log, k, i);
        } else if i < k {
          EndsOnce(log, i, k);
        }
      }
    }
  }

  /** The record is there, and the last of its node. */
  predicate Kept(base: map<string, Status>, log: seq<Event>, id: string, status: Status) {
    Recorded(id, status) in log && id in Recall(base, log) && Recall(base, log)[id] == status
  }

  lemma EndsStored(plan: Plan, base: map<string, Status>, log: seq<Event>)
    requires Orderly(plan, base, log)
    ensures Due(log) == {} ==> EndsAreStored(log, Recall(base, log))
  {
    OrderlyIsTraced(plan, base, log);
    forall i | 0 <= i < |log| && log[i].Ended?
      ensures Recorded(log[i].id, log[i].status) in Due(log) || Kept(base, log, log[i].id, log[i].status)
    {
      EndIsStored(base, log, i);
    }
  }

  /** A reused result stays stored. */
  lemma {:induction false} ReusedIsStored(base: map<string, Status>, log: seq<Event>, i: nat)
    requires Traced(log) && i < |log| && log[i].Reused? && PassedIn(base, log[i].id)
    ensures PassedIn(Recall(base, log), log[i].id)
    decreases |log|
  {
    var n := |log| - 1;
    if i == n {
      UntouchedRecall(base, log[..n], log[i].id);
    } else {
      ReusedIsStored(base, log[..n], i);
      if log[n].Recorded? && log[n].id == log[i].id {
        var k := DueHasEnded(log[..n], log[n]);
        if k < i {
          TouchedMember(log[..i], k);
          TracedAt(log, i);
        } else {
          EndsOnce(log, i, k);
        }
      }
    }
  }

  lemma {:induction false} TracedAt(log: seq<Event>, i: nat)
    requires Traced(log) && i < |log|
    ensures Traced(log[..i]) && Follows(log[..i], log[i])
    decreases |log|
  {
    if i < |log| - 1 {
      TracedAt(log[..|log| - 1], i);
      assert log[..|log| - 1][..i] == log[..i];
    }
  }
}

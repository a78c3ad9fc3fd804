/** The dispatch-job state machine: compare-and-set updates on a table of job rows. */
module Dispatch {
  import opened Wrappers

  type JobId = string
  type AgentId = string

  datatype Status = Pending | Converting | Slicing | Claimable | Claimed | Dispatched | Completed | Failed

  datatype FailureReason =
    | UnsupportedFormat | ConversionFailed | SlicingFailed | Unreachable | AuthFailed | TargetRejected
    | ClaimTimeout | Cancelled | FirmwareError | UnknownFailure

  datatype Job = Job(
    status: Status, claimMarker: Option<AgentId>, claimedAt: Option<int>, startedAt: Option<int>,
    completedAt: Option<int>, failureReason: Option<FailureReason>, failureDetails: Option<string>)

  datatype Outcome = Done | WrongState(current: Status) | NotFound | InvalidArg | AlreadyExists

  predicate LegalTransition(from: Status, to: Status) {
    match from
    case Pending => to in {Converting, Slicing, Claimable, Failed}
    case Converting => to in {Slicing, Claimable, Failed}
    case Slicing => to in {Claimable, Failed}
    case Claimable => to in {Claimed, Failed}
    case Claimed => to in {Dispatched, Failed, Claimable}
    case Dispatched => to in {Completed, Failed}
    case Completed => false
    case Failed => false
  }

  predicate Terminal(s: Status) {
    s == Completed || s == Failed
  }

  /** One call of the transition functions. */
  datatype Call =
    | MarkConverting
    | MarkSlicing(from: Status)
    | MarkClaimable(from: Status)
    | MarkClaimed(agent: AgentId, now: int)
    | MarkDispatched(now: int)
    | MarkCompleted(now: int)
    | MarkFailed(reason: FailureReason, details: Option<string>, now: int)
    | UnclaimStale(agent: AgentId, claimTimeoutMs: int, now: int)

  /** The row test in the update's WHERE clause. */
  predicate Guard(c: Call, j: Job) {
    match c
    case MarkConverting => j.status == Pending
    case MarkSlicing(from) => from in {Pending, Converting} && j.status == from
    case MarkClaimable(from) => from in {Pending, Converting, Slicing} && j.status == from
    case MarkClaimed(_, _) => j.status == Claimable
    case MarkDispatched(_) => j.status == Claimed
    case MarkCompleted(_) => j.status == Dispatched
    case MarkFailed(_, _, _) => !Terminal(j.status)
    case UnclaimStale(agent, timeout, now) =>
      j.status == Claimed && j.claimMarker == Some(agent) && j.claimedAt.Some? && j.claimedAt.value < now - timeout
  }

  /** The row after the update's SET clause. */
  function Patch(c: Call, j: Job): Job {
    match c
    case MarkConverting => j.(status := Converting)
    case MarkSlicing(_) => j.(status := Slicing)
    case MarkClaimable(_) => j.(status := Claimable)
    case MarkClaimed(agent, now) => j.(status := Claimed, claimMarker := Some(agent), claimedAt := Some(now))
    case MarkDispatched(now) => j.(status := Dispatched, startedAt := Some(now))
    case MarkCompleted(now) => j.(status := Completed, completedAt := Some(now))
    case MarkFailed(reason, details, now) =>
      j.(status := Failed, completedAt := Some(now), failureReason := Some(reason), failureDetails := details)
    case UnclaimStale(_, _, _) => j.(status := Claimable, claimMarker := None, claimedAt := None)
  }

  function NewJob(initial: Status): Job {
    Job(initial, None, None, None, None, None, None)
  }

  // ---------------------------------------------------------------- the table

  /** What a call answers that changed nothing. */
  function Missed(rows: map<JobId, Job>, id: JobId): Outcome {
    if id in rows then WrongState(rows[id].status) else NotFound
  }

  /** The call succeeds if and only if the row exists in one of some states, and only that row changes. */
  ghost predicate Moves(rows: map<JobId, Job>, id: JobId, from: set<Status>, o: Outcome, rows': map<JobId, Job>) {
    && (o == Done <==> id in rows && rows[id].status in from)
    && (o == Done ==> id in rows' && rows' == rows[id := rows'[id]])
    && (o != Done ==> rows' == rows && o == Missed(rows, id))
  }

  /** A claim by the agent that is older than the timeout. */
  predicate IsStale(j: Job, agent: AgentId, timeout: int, now: int) {
    j.status == Claimed && j.claimMarker == Some(agent) && j.claimedAt.Some? && now - j.claimedAt.value > timeout
  }

  class JobTable {
    var rows: map<JobId, Job>

    constructor ()
      ensures rows == map[]
    {
      rows := map[];
    }

    method CreateDispatchJob(id: JobId, initial: Status) returns (o: Outcome)
      modifies this
      ensures id in old(rows) ==> o == AlreadyExists && rows == old(rows)
      ensures id !in old(rows) ==> o == Done && rows == old(rows)[id := NewJob(initial)]
    {
      if id in rows {
        return AlreadyExists;
      }
      rows := rows[id := NewJob(initial)];
      return Done;
    }

    /** The compare-and-set: one row, and only if its status is expected. */
    method RunGuardedUpdate(id: JobId, expected: set<Status>, patch: Job -> Job) returns (changes: nat)
      modifies this
      ensures changes == if id in old(rows) && old(rows)[id].status in expected then 1 else 0
      ensures rows == if changes == 1 then old(rows)[id := patch(old(rows)[id])] else old(rows)
    {
      if id in rows && rows[id].status in expected {
        rows := rows[id := patch(rows[id])];
        return 1;
      }
      return 0;
    }

    /** Why an update touched nothing, from a fresh look at the row. */
    method ExplainMiss(id: JobId) returns (o: Outcome)
      ensures o == if id in rows then WrongState(rows[id].status) else NotFound
    {
      if id !in rows {
        return NotFound;
      }
      return WrongState(rows[id].status);
    }

    method MarkConverting(id: JobId) returns (o: Outcome)
      modifies this
      ensures Effect(old(rows), id, Call.MarkConverting, o, rows)
      ensures Moves(old(rows), id, {Pending}, o, rows)
      ensures o == Done ==> rows[id] == old(rows)[id].(status := Converting)
    {
      var changes := RunGuardedUpdate(id, {Pending}, (j: Job) => j.(status := Converting));
      if changes == 1 {
        return Done;
      }
      o := ExplainMiss(id);
    }

    method MarkSlicing(id: JobId, from: Status) returns (o: Outcome)
      modifies this
      ensures Effect(old(rows), id, Call.MarkSlicing(from), o, rows)
      ensures from !in {Pending, Converting} ==> o == InvalidArg && rows == old(rows)
      ensures from in {Pending, Converting} ==> Moves(old(rows), id, {from}, o, rows)
      ensures o == Done ==> rows[id] == old(rows)[id].(status := Slicing)
    {
      if from != Pending && from != Converting {
        return InvalidArg;
      }
      var changes := RunGuardedUpdate(id, {from}, (j: Job) => j.(status := Slicing));
      if changes == 1 {
        return Done;
      }
      o := ExplainMiss(id);
    }

    method MarkClaimable(id: JobId, from: Status) returns (o: Outcome)
      modifies this
      ensures Effect(old(rows), id, Call.MarkClaimable(from), o, rows)
      ensures from !in {Pending, Converting, Slicing} ==> o == InvalidArg && rows == old(rows)
      ensures from in {Pending, Converting, Slicing} ==> Moves(old(rows), id, {from}, o, rows)
      ensures o == Done ==> rows[id] == old(rows)[id].(status := Claimable)
    {
      if from != Pending && from != Converting && from != Slicing {
        return InvalidArg;
      }
      var changes := RunGuardedUpdate(id, {from}, (j: Job) => j.(status := Claimable));
      if changes == 1 {
        return Done;
      }
      o := ExplainMiss(id);
    }

    method MarkClaimed(id: JobId, agent: AgentId, now: int) returns (o: Outcome)
      modifies this
      ensures Effect(old(rows), id, Call.MarkClaimed(agent, now), o, rows)
      ensures Moves(old(rows), id, {Claimable}, o, rows)
      ensures o == Done ==>
        rows[id] == old(rows)[id].(status := Claimed, claimMarker := Some(agent), claimedAt := Some(now))
    {
      var changes := RunGuardedUpdate(id, {Claimable},
        (j: Job) => j.(status := Claimed, claimMarker := Some(agent), claimedAt := Some(now)));
      if changes == 1 {
        return Done;
      }
      o := ExplainMiss(id);
    }

    method MarkDispatched(id: JobId, now: int) returns (o: Outcome)
      modifies this
      ensures Effect(old(rows), id, Call.MarkDispatched(now), o, rows)
      ensures Moves(old(rows), id, {Claimed}, o, rows)
      ensures o == Done ==> rows[id] == old(rows)[id].(status := Dispatched, startedAt := Some(now))
    {
      var changes := RunGuardedUpdate(id, {Claimed}, (j: Job) => j.(status := Dispatched, startedAt := Some(now)));
      if changes == 1 {
        return Done;
      }
      o := ExplainMiss(id);
    }

    method MarkCompleted(id: JobId, now: int) returns (o: Outcome)
      modifies this
      ensures Effect(old(rows), id, Call.MarkCompleted(now), o, rows)
      ensures Moves(old(rows), id, {Dispatched}, o, rows)
      ensures o == Done ==> rows[id] == old(rows)[id].(status := Completed, completedAt := Some(now))
    {
      var changes := RunGuardedUpdate(id, {Dispatched}, (j: Job) => j.(status := Completed, completedAt := Some(now)));
      if changes == 1 {
        return Done;
      }
      o := ExplainMiss(id);
    }

    method MarkFailed(id: JobId, reason: FailureReason, details: Option<string>, now: int) returns (o: Outcome)
      modifies this
      ensures Effect(old(rows), id, Call.MarkFailed(reason, details, now), o, rows)
      ensures Moves(old(rows), id, {Pending, Converting, Slicing, Claimable, Claimed, Dispatched}, o, rows)
      ensures o == Done ==> rows[id] == old(rows)[id].(
        status := Failed, completedAt := Some(now), failureReason := Some(reason), failureDetails := details)
    {
      var nonTerminal := {Pending, Converting, Slicing, Claimable, Claimed, Dispatched};
      var changes := RunGuardedUpdate(id, nonTerminal,
        (j: Job) => j.(status := Failed, completedAt := Some(now), failureReason := Some(reason),
          failureDetails := details));
      if changes == 1 {
        return Done;
      }
      o := ExplainMiss(id);
    }

    method UnclaimStaleJob(id: JobId, agent: AgentId, claimTimeoutMs: int, now: int) returns (o: Outcome)
      modifies this
      ensures Effect(old(rows), id, UnclaimStale(agent, claimTimeoutMs, now), o, rows)
      ensures o == Done <==> id in old(rows) && IsStale(old(rows)[id], agent, claimTimeoutMs, now)
      ensures o == Done ==>
        rows == old(rows)[id := old(rows)[id].(status := Claimable, claimMarker := None, claimedAt := None)]
      ensures o != Done ==> rows == old(rows) && o == Missed(old(rows), id)
    {
      var cutoff := now - claimTimeoutMs;
      if id in rows && rows[id].status == Claimed && rows[id].claimMarker == Some(agent)
         && rows[id].claimedAt.Some? && rows[id].claimedAt.value < cutoff {
        rows := rows[id := rows[id].(status := Claimable, claimMarker := None, claimedAt := None)];
        return Done;
      }
      o := ExplainMiss(id);
    }

    /** Deleting an agent sets every claim marker that names it to null. */
    method ForgetAgent(agent: AgentId)
      modifies this
      ensures Forgotten(old(rows), agent, rows)
    {
      rows := map id | id in rows :: if rows[id].claimMarker == Some(agent) then rows[id].(claimMarker := None)
        else rows[id];
    }
  }

  /** No row comes or goes; the markers that name the agent are empty now, the others are as they were; no other column
      of any row has changed. */
  ghost predicate Forgotten(rows: map<JobId, Job>, agent: AgentId, rows': map<JobId, Job>) {
    && rows'.Keys == rows.Keys
    && forall id :: id in rows ==>
         && (rows[id].claimMarker == Some(agent) ==> rows'[id].claimMarker == None)
         && (rows[id].claimMarker != Some(agent) ==> rows'[id].claimMarker == rows[id].claimMarker)
         && rows'[id] == rows[id].(claimMarker := rows'[id].claimMarker)
  }

  function WithoutAgent(rows: map<JobId, Job>, agent: AgentId): map<JobId, Job> {
    map id | id in rows :: if rows[id].claimMarker == Some(agent) then rows[id].(claimMarker := None) else rows[id]
  }

  predicate BadArg(c: Call) {
    (c.MarkSlicing? && c.from !in {Pending, Converting}) ||
      (c.MarkClaimable? && c.from !in {Pending, Converting, Slicing})
  }

  /** What one call does: the guarded row is patched and nothing else moves, or nothing moves at all. */
  predicate Effect(rows: map<JobId, Job>, id: JobId, c: Call, o: Outcome, rows': map<JobId, Job>) {
    && rows' == Step(rows, Act(id, c))
    && (o == Done <==> id in rows && Guard(c, rows[id]))
    && (o != Done ==> o == if BadArg(c) then InvalidArg else if id in rows then WrongState(rows[id].status)
      else NotFound)
  }

  // ---------------------------------------------------------------- runs

  datatype Action =
    | Create(id: JobId, initial: Status)
    | Act(id: JobId, call: Call)
    | DeleteAgent(agent: AgentId)

  function Step(rows: map<JobId, Job>, a: Action): map<JobId, Job> {
    match a
    case Create(id, initial) => if id in rows then rows else rows[id := NewJob(initial)]
    case Act(id, c) => if id in rows && Guard(c, rows[id]) then rows[id := Patch(c, rows[id])] else rows
    case DeleteAgent(agent) => WithoutAgent(rows, agent)
  }

  function Run(actions: seq<Action>): map<JobId, Job> {
    if actions == [] then map[] else Step(Run(actions[..|actions| - 1]), actions[|actions| - 1])
  }

  /** Did the n-th action of a run succeed as a call on this job? */
  predicate Succeeds(actions: seq<Action>, n: nat, id: JobId)
    requires n < |actions|
  {
    var rows, a := Run(actions[..n]), actions[n];
    a.Act? && a.id == id && id in rows && Guard(a.call, rows[id])
  }

  datatype Tally = Tally(steps: nat, claims: nat, recoveries: nat, dispatches: nat, terminals: nat)

  function Count(t: Tally, c: Call): Tally {
    Tally(t.steps + 1,
          t.claims + (if c.MarkClaimed? then 1 else 0),
          t.recoveries + (if c.UnclaimStale? then 1 else 0),
          t.dispatches + (if c.MarkDispatched? then 1 else 0),
          t.terminals + (if c.MarkCompleted? || c.MarkFailed? then 1 else 0))
  }

  /** The successful calls of a run on one job, by kind. */
  function TallyOf(actions: seq<Action>, id: JobId): Tally {
    if actions == [] then Tally(0, 0, 0, 0, 0)
    else
      var n := |actions| - 1;
      var t := TallyOf(actions[..n], id);
      if Succeeds(actions, n, id) then Count(t, actions[n].call) else t
  }

  /** Jobs start before any claim. The documented starts are pending and claimable. */
  predicate StartsUnclaimed(actions: seq<Action>) {
    forall k :: 0 <= k < |actions| && actions[k].Create? ==>
      actions[k].initial in {Pending, Converting, Slicing, Claimable}
  }

  function Level(s: Status): nat {
    match s
    case Pending => 0 case Converting => 1 case Slicing => 2 case Claimable => 3
    case Claimed => 4 case Dispatched => 5 case Completed => 6 case Failed => 6
  }

  /** How a row's status accounts for the job's history. */
  predicate HistoryOk(j: Job, t: Tally) {
    && t.recoveries <= t.claims <= t.recoveries + 1
    && (j.status in {Pending, Converting, Slicing, Claimable} ==> t.claims == t.recoveries)
    && (j.status in {Claimed, Dispatched, Completed} ==> t.claims == t.recoveries + 1)
    && t.dispatches <= 1
    && (j.status in {Pending, Converting, Slicing, Claimable, Claimed} ==> t.dispatches == 0)
    && (j.status in {Dispatched, Completed} ==> t.dispatches == 1)
    && t.terminals == (if Terminal(j.status) then 1 else 0)
    && t.steps <= Level(j.status) + 2 * t.recoveries
  }

  /** Which columns are set in which status. */
  predicate ShapeOk(j: Job) {
    && (j.completedAt.Some? <==> Terminal(j.status))
    && (j.failureReason.Some? <==> j.status == Failed)
    && (j.status in {Pending, Converting, Slicing, Claimable} ==> j.claimMarker == None && j.claimedAt == None)
    && (j.status in {Claimed, Dispatched, Completed} ==> j.claimedAt.Some?)
    && (j.status in {Dispatched, Completed} ==> j.startedAt.Some?)
  }

  /** One successful call keeps history and shape, and follows the transition table. */
  lemma PatchKeeps(c: Call, j: Job, t: Tally)
    requires Guard(c, j) && HistoryOk(j, t) && ShapeOk(j)
    ensures HistoryOk(Patch(c, j), Count(t, c)) && ShapeOk(Patch(c, j))
    ensures LegalTransition(j.status, Patch(c, j).status)
  {
    match c case _ =>
  }

  predicate Accounted(rows: map<JobId, Job>, id: JobId, t: Tally) {
    if id in rows then HistoryOk(rows[id], t) && ShapeOk(rows[id]) else t == Tally(0, 0, 0, 0, 0)
  }

  lemma StepKeepsRow(rows: map<JobId, Job>, a: Action, id: JobId, t: Tally)
    requires Accounted(rows, id, t) && (a.Create? ==> a.initial in {Pending, Converting, Slicing, Claimable})
    ensures Accounted(Step(rows, a), id,
      if a.Act? && a.id == id && id in rows && Guard(a.call, rows[id]) then Count(t, a.call) else t)
  {
    if a.Act? && a.id == id && id in rows && Guard(a.call, rows[id]) {
      PatchKeeps(a.call, rows[id], t);
    }
  }

  /** For every run, any number of agents, any interleaving: the whole history of every job fits its row. */
  lemma {:induction false} RunKeepsRows(actions: seq<Action>)
    requires StartsUnclaimed(actions)
    ensures forall id :: Accounted(Run(actions), id, TallyOf(actions, id))
  {
    if actions != [] {
      var n := |actions| - 1;
      assert forall k :: 0 <= k < n ==> actions[..n][k] == actions[k];
      RunKeepsRows(actions[..n]);
      forall id
        ensures Accounted(Run(actions), id, TallyOf(actions, id))
      {
        StepKeepsRow(Run(actions[..n]), actions[n], id, TallyOf(actions[..n], id));
      }
    }
  }

  /** A job is dispatched at most once, ends at most once, and is claimed at most once more than it is recovered. */
  lemma AtMostOnce(actions: seq<Action>, id: JobId)
    requires StartsUnclaimed(actions)
    ensures var t := TallyOf(actions, id);
      && t.dispatches <= 1 && t.terminals <= 1
      && (t.claims == t.recoveries || t.claims == t.recoveries + 1)
      && t.steps <= 6 + 2 * t.recoveries
  {
    RunKeepsRows(actions);
  }

  lemma {:induction false} RecoveriesGrow(actions: seq<Action>, i: nat, j: nat, id: JobId)
    requires i <= j <= |actions|
    ensures TallyOf(actions[..j], id).recoveries > TallyOf(actions[..i], id).recoveries ==>
      exists k :: i <= k < j && Succeeds(actions, k, id) && actions[k].call.UnclaimStale?
    decreases j
  {
    if i < j {
      assert actions[..j][..j - 1] == actions[..j - 1];
      RecoveriesGrow(actions, i, j - 1, id);
      assert Succeeds(actions[..j], j - 1, id) == Succeeds(actions, j - 1, id);
    }
  }

  /** Between two successful claims of one job there is a successful stale recovery. */
  lemma ClaimsSeparated(actions: seq<Action>, i: nat, j: nat, id: JobId)
    requires StartsUnclaimed(actions) && i < j < |actions|
    requires Succeeds(actions, i, id) && actions[i].call.MarkClaimed?
    requires Succeeds(actions, j, id) && actions[j].call.MarkClaimed?
    ensures exists k :: i < k < j && Succeeds(actions, k, id) && actions[k].call.UnclaimStale?
  {
    var before, after, later := actions[..i], actions[..i + 1], actions[..j];
    assert after[..i] == before;
    assert Succeeds(after, i, id) == Succeeds(actions, i, id);
    RunKeepsRows(after);
    RunKeepsRows(later);
    ClaimsMonotone(actions, i + 1, j, id);
    RecoveriesGrow(actions, i + 1, j, id);
  }

  lemma {:induction false} ClaimsMonotone(actions: seq<Action>, i: nat, j: nat, id: JobId)
    requires i <= j <= |actions|
    ensures TallyOf(actions[..i], id).claims <= TallyOf(actions[..j], id).claims
    decreases j
  {
    if i < j {
      assert actions[..j][..j - 1] == actions[..j - 1];
      ClaimsMonotone(actions, i, j - 1, id);
    }
  }

  // ---------------------------------------------------------------- claims and their recovery

  /** The i-th action claims the job, and up to the n-th no other call on the job succeeds. */
  predicate Stands(actions: seq<Action>, n: nat, i: nat, id: JobId)
    requires n <= |actions|
  {
    i < n && Succeeds(actions, i, id) && actions[i].call.MarkClaimed? &&
    forall k :: i < k < n ==> !Succeeds(actions, k, id)
  }

  /** The agent is deleted between the two positions. */
  predicate DeletedBetween(actions: seq<Action>, i: nat, n: nat, agent: AgentId)
    requires n <= |actions|
  {
    exists k :: i < k < n && actions[k] == DeleteAgent(agent)
  }

  lemma RunSnoc(actions: seq<Action>, n: nat)
    requires n < |actions|
    ensures Run(actions[..n + 1]) == Step(Run(actions[..n]), actions[n])
  {
    assert actions[..n + 1][..n] == actions[..n];
  }

  /** Where no call on the job succeeds, a step can only empty its marker. */
  lemma QuietStep(rows: map<JobId, Job>, a: Action, id: JobId)
    requires id in rows && !(a.Act? && a.id == id && Guard(a.call, rows[id]))
    ensures id in Step(rows, a) && Step(rows, a)[id] ==
      if a.DeleteAgent? && rows[id].claimMarker == Some(a.agent) then rows[id].(claimMarker := None) else rows[id]
  {
  }

  /** Only a claim makes a row claimed. */
  lemma BecomesClaimed(rows: map<JobId, Job>, a: Action, id: JobId)
    requires id in Step(rows, a) && Step(rows, a)[id].status == Claimed && (a.Create? ==> a.initial != Claimed)
    ensures id in rows && (rows[id].status == Claimed || (a.Act? && a.id == id && a.call.MarkClaimed?))
    ensures a.Act? && a.id == id && Guard(a.call, rows[id]) ==> a.call.MarkClaimed?
  {
  }

  /** A standing claim is in the row, with its time; its agent is named until the agent is deleted. */
  lemma {:induction false} StandingClaimIsInRow(actions: seq<Action>, n: nat, i: nat, id: JobId)
    requires n <= |actions| && Stands(actions, n, i, id)
    ensures id in Run(actions[..n]) && Run(actions[..n])[id].status == Claimed
    ensures Run(actions[..n])[id].claimedAt == Some(actions[i].call.now)
    ensures Run(actions[..n])[id].claimMarker ==
      if DeletedBetween(actions, i, n, actions[i].call.agent) then None else Some(actions[i].call.agent)
    decreases n
  {
    RunSnoc(actions, n - 1);
    if i < n - 1 {
      StandingClaimIsInRow(actions, n - 1, i, id);
      assert !Succeeds(actions, n - 1, id);
      QuietStep(Run(actions[..n - 1]), actions[n - 1], id);
    }
  }

  /** A job that is claimed has a claim that stands. */
  lemma {:induction false} ClaimedHasStanding(actions: seq<Action>, n: nat, id: JobId) returns (i: nat)
    requires StartsUnclaimed(actions) && n <= |actions|
    requires id in Run(actions[..n]) && Run(actions[..n])[id].status == Claimed
    ensures Stands(actions, n, i, id)
    decreases n
  {
    RunSnoc(actions, n - 1);
    assert actions[n - 1].Create? ==> actions[n - 1].initial != Claimed;
    BecomesClaimed(Run(actions[..n - 1]), actions[n - 1], id);
    if Succeeds(actions, n - 1, id) {
      i := n - 1;
    } else {
      i := ClaimedHasStanding(actions, n - 1, id);
    }
  }

  /** The j-th action recovers the claim of the i-th, which is the same agent's and older than the timeout. */
  predicate RecoversStale(actions: seq<Action>, j: nat, i: nat, id: JobId)
    requires j < |actions| && actions[j].Act? && actions[j].call.UnclaimStale?
  {
    && Stands(actions, j, i, id) && actions[i].call.agent == actions[j].call.agent
    && actions[j].call.now - actions[i].call.now > actions[j].call.claimTimeoutMs
  }

  /** A recovered claim was the same agent's last one, and older than the timeout. */
  lemma RecoveredClaimWasStale(actions: seq<Action>, j: nat, id: JobId)
    requires StartsUnclaimed(actions) && j < |actions|
    requires Succeeds(actions, j, id) && actions[j].call.UnclaimStale?
    ensures exists i :: RecoversStale(actions, j, i, id)
  {
    var i := ClaimedHasStanding(actions, j, id);
    StandingClaimIsInRow(actions, j, i, id);
    assert RecoversStale(actions, j, i, id);
  }

  /** While a claim stands, a recovery succeeds if and only if it is the claiming agent's, the agent has not been
      deleted since, and the claim is older than the timeout. */
  lemma RecoverySucceedsIff(actions: seq<Action>, j: nat, i: nat, id: JobId)
    requires j < |actions| && Stands(actions, j, i, id)
    requires actions[j].Act? && actions[j].id == id && actions[j].call.UnclaimStale?
    ensures Succeeds(actions, j, id) <==>
      && actions[j].call.agent == actions[i].call.agent
      && !DeletedBetween(actions, i, j, actions[i].call.agent)
      && actions[j].call.now - actions[i].call.now > actions[j].call.claimTimeoutMs
  {
    StandingClaimIsInRow(actions, j, i, id);
  }

  // ---------------------------------------------------------------- exactness

  /** Some call takes the row to this status. */
  ghost predicate Reachable(j: Job, to: Status) {
    exists c :: Guard(c, j) && Patch(c, j).status == to
  }

  /** A claim without holder or without time. */
  predicate Orphaned(j: Job) {
    j.status == Claimed && (j.claimMarker.None? || j.claimedAt.None?)
  }

  lemma LegalIsReachable(j: Job, to: Status)
    requires LegalTransition(j.status, to) && !(Orphaned(j) && to == Claimable)
    ensures Reachable(j, to)
  {
    var c := match to
      case Converting => MarkConverting
      case Slicing => MarkSlicing(j.status)
      case Claimable =>
        if j.status == Claimed then UnclaimStale(j.claimMarker.value, 0, j.claimedAt.value + 1)
          else MarkClaimable(j.status)
      case Claimed => MarkClaimed("agent", 0)
      case Dispatched => MarkDispatched(0)
      case Completed => MarkCompleted(0)
      case _ => MarkFailed(UnknownFailure, None, 0);
    assert Guard(c, j) && Patch(c, j).status == to;
  }

  /** From any row whatever the calls realise exactly the documented transitions, if and only if the row is not an
      orphaned claim; among rows of the proper shape these are the claims whose marker is empty. */
  lemma TableIsExact(j: Job)
    ensures (forall to :: LegalTransition(j.status, to) <==> Reachable(j, to)) <==> !Orphaned(j)
    ensures ShapeOk(j) ==> (Orphaned(j) <==> j.status == Claimed && j.claimMarker.None?)
  {
    forall to | LegalTransition(j.status, to) && !(Orphaned(j) && to == Claimable)
      ensures Reachable(j, to)
    {
      LegalIsReachable(j, to);
    }
    if Orphaned(j) {
      assert LegalTransition(j.status, Claimable) && !Reachable(j, Claimable);
    }
  }

  /** Deleting an agent orphans a row of the proper shape if and only if the row is claimed by that agent. */
  lemma DeletionOrphansIff(rows: map<JobId, Job>, id: JobId, agent: AgentId)
    requires id in rows && ShapeOk(rows[id]) && !Orphaned(rows[id])
    ensures Orphaned(Step(rows, DeleteAgent(agent))[id]) <==>
      rows[id].status == Claimed && rows[id].claimMarker == Some(agent)
  {
  }

  function Orphaning(id: JobId, agent: AgentId, now: int): seq<Action> {
    [Create(id, Claimable), Act(id, MarkClaimed(agent, now)), DeleteAgent(agent)]
  }

  lemma RunOfThree(a: Action, b: Action, c: Action)
    ensures Run([a, b, c]) == Step(Step(Step(map[], a), b), c)
  {
    assert [a, b, c][..2] == [a, b] && [a, b][..1] == [a] && [a][..0] == [];
    assert Run([a]) == Step(map[], a);
  }

  /** Runs that orphan a claim: create a job, claim it, delete the agent. */
  lemma OrphanedClaimIsReached(id: JobId, agent: AgentId, now: int)
    ensures StartsUnclaimed(Orphaning(id, agent, now))
    ensures Run(Orphaning(id, agent, now)) == map[id := NewJob(Claimable).(status := Claimed, claimedAt := Some(now))]
    ensures Orphaned(Run(Orphaning(id, agent, now))[id])
  {
    RunOfThree(Create(id, Claimable), Act(id, MarkClaimed(agent, now)), DeleteAgent(agent));
    var created := Step(map[], Create(id, Claimable));
    assert created == map[id := NewJob(Claimable)];
    var claimed := Step(created, Act(id, MarkClaimed(agent, now)));
    assert claimed == map[id := NewJob(Claimable).(status := Claimed, claimMarker := Some(agent),
      claimedAt := Some(now))];
  }

  /** The row-shape rules hold of a new job exactly when it does not start in a terminal, claimed or dispatched
      state. */
  lemma NewJobShapeIff(initial: Status)
    ensures ShapeOk(NewJob(initial)) <==> initial in {Pending, Converting, Slicing, Claimable}
  {
    match initial case _ =>
  }

  /** Any caller may dispatch a claimed job: the claim holder plays no part in that guard. */
  lemma DispatchIgnoresHolder(j: Job, holder: Option<AgentId>, now: int)
    ensures Guard(MarkDispatched(now), j) <==> Guard(MarkDispatched(now), j.(claimMarker := holder))
    ensures Guard(MarkDispatched(now), j) ==> Patch(MarkDispatched(now), j).claimMarker == j.claimMarker
  {
  }

  /** Only deletions orphan claims. */
  lemma {:induction false} NoDeletionNoOrphan(actions: seq<Action>)
    requires StartsUnclaimed(actions) && forall k :: 0 <= k < |actions| ==> !actions[k].DeleteAgent?
    ensures forall id :: id in Run(actions) ==> !Orphaned(Run(actions)[id])
  {
    if actions != [] {
      var init := actions[..|actions| - 1];
      assert forall k :: 0 <= k < |init| ==> init[k] == actions[k];
      NoDeletionNoOrphan(init);
    }
  }

  /** Past the claim without a recovery. */
  predicate BeyondRecovery(j: Job) {
    Orphaned(j) || j.status in {Dispatched, Completed, Failed}
  }

  lemma StepStaysBeyond(rows: map<JobId, Job>, a: Action, id: JobId)
    requires id in rows && BeyondRecovery(rows[id])
    ensures id in Step(rows, a) && BeyondRecovery(Step(rows, a)[id])
  {
  }

  /** A claim orphaned by deleting its agent is never recovered: the job stays claimed until somebody
      dispatches or fails it. */
  lemma {:induction false} OrphanedClaimNeverRecovers(actions: seq<Action>, n: nat, id: JobId)
    requires n <= |actions| && id in Run(actions[..n])
    requires Orphaned(Run(actions[..n])[id])
    ensures id in Run(actions) && BeyondRecovery(Run(actions)[id])
  {
    if n == |actions| {
      assert actions[..n] == actions;
    } else {
      var init := actions[..|actions| - 1];
      assert init[..n] == actions[..n];
      OrphanedClaimNeverRecovers(init, n, id);
      StepStaysBeyond(Run(init), actions[|actions| - 1], id);
    }
  }
}

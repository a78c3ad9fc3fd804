/** System-wide mass: how far the mass of mixes and recycled spools can be from the mass drawn to make them. */
module MaterialMass {
  import opened Wrappers
  import opened Sums
  import opened Materials
  import opened MaterialRuns
  import opened MaterialStore
  import Colors

  // ---------------------------------------------------------------- drift bounds

  /** The volume of all mix batches, as their materials were created. */
  ghost function MixInitial(ms: map<Id, Material>, rows: seq<MixRow>): real
    requires forall r :: r in rows ==> r.material in ms
  {
    if rows == [] then 0.0 else MixInitial(ms, rows[..|rows| - 1]) + ms[rows[|rows| - 1].material].initial
  }

  function MixDrawn(rows: seq<MixRow>): real {
    if rows == [] then 0.0 else MixDrawn(rows[..|rows| - 1]) + SumDraws(rows[|rows| - 1].draws)
  }

  ghost predicate AllOk(ms: map<Id, Material>, ledger: seq<Event>) {
    forall k :: 0 <= k < |ledger| ==> EventOk(ms, ledger[k])
  }

  lemma {:induction false} MixRowsDrift(ms: map<Id, Material>, ledger: seq<Event>, mixRows: seq<MixRow>,
    recycleRows: seq<RecycleRow>)
    requires AllOk(ms, ledger) && RowsMatch(ms, ledger, mixRows, recycleRows)
    ensures forall r :: r in mixRows ==> r.material in ms
    ensures Abs(MixInitial(ms, mixRows) - MixDrawn(mixRows)) <= MASS_TOLERANCE_ML * |mixRows| as real
  {
    if ledger != [] {
      var init, e := ledger[..|ledger| - 1], ledger[|ledger| - 1];
      assert EventOk(ms, e);
      if e.MixCreated? {
        MixRowsDrift(ms, init, mixRows[..|mixRows| - 1], recycleRows);
      } else if e.Recycled? {
        MixRowsDrift(ms, init, mixRows, recycleRows[..|recycleRows| - 1]);
      } else {
        MixRowsDrift(ms, init, mixRows, recycleRows);
      }
    }
  }

  ghost predicate WithinDrift(db: Db) {
    && (forall r :: r in db.mixRows ==> r.material in db.materials)
    && Abs(MixInitial(db.materials, db.mixRows) - MixDrawn(db.mixRows)) <= MASS_TOLERANCE_ML * |db.mixRows| as real
  }

  lemma ConsistentDrift(s: Sys)
    requires Consistent(s)
    ensures WithinDrift(s.db)
  {
    MixRowsDrift(s.db.materials, s.db.ledger, s.db.mixRows, s.db.recycleRows);
  }

  /** After any run with n mix batches, their total volume is within 0.1 n of the total drawn for them. */
  lemma MixDrift(s: Sys, actions: seq<Action>)
    requires Consistent(s)
    ensures WithinDrift(Run(s, actions).db)
  {
    RunKeeps(s, actions);
    ConsistentDrift(Run(s, actions));
  }

  /** Total output of the recycles nobody acknowledged as anomalous. */
  function UnackedOutput(ledger: seq<Event>): real {
    if ledger == [] then 0.0
    else
      var e := ledger[|ledger| - 1];
      UnackedOutput(ledger[..|ledger| - 1]) + if e.Recycled? && !e.acked then e.output else 0.0
  }

  function UnackedInput(ledger: seq<Event>): real {
    if ledger == [] then 0.0
    else
      var e := ledger[|ledger| - 1];
      UnackedInput(ledger[..|ledger| - 1]) + if e.Recycled? && !e.acked then SumWeights(e.inputs) else 0.0
  }

  lemma {:induction false} UnackedBound(ms: map<Id, Material>, ledger: seq<Event>)
    requires AllOk(ms, ledger)
    ensures UnackedOutput(ledger) <= UnackedInput(ledger) * WEIGHT_ANOMALY_THRESHOLD
  {
    if ledger != [] {
      assert EventOk(ms, ledger[|ledger| - 1]);
      UnackedBound(ms, ledger[..|ledger| - 1]);
    }
  }

  /** After any run, unacknowledged recycling has put out at most 1.05 times what it took in. */
  lemma RecycleGain(s: Sys, actions: seq<Action>)
    requires Consistent(s)
    ensures UnackedOutput(Run(s, actions).db.ledger) <=
      UnackedInput(Run(s, actions).db.ledger) * WEIGHT_ANOMALY_THRESHOLD
  {
    RunKeeps(s, actions);
    UnackedBound(Run(s, actions).db.materials, Run(s, actions).db.ledger);
  }

  // ---------------------------------------------------------------- the schema's system-wide invariant

  predicate IsDerived(k: Kind) {
    k == MixBatch || k == RecycledSpool
  }

  ghost function DerivedMass(ms: map<Id, Material>): real {
    SumOver(ms.Keys, id => if id in ms && IsDerived(ms[id].kind) then ms[id].initial else 0.0)
  }

  /** The decrements mixes and recycles record against tracked sources. */
  function Withdrawn(ledger: seq<Event>): real {
    if ledger == [] then 0.0
    else
      var e := ledger[|ledger| - 1];
      Withdrawn(ledger[..|ledger| - 1]) + if e.MixCreated? || e.Recycled? then SumDraws(EventDraws(e)) else 0.0
  }

  /** The schema's wording: derived mass equals the decrements from source materials, at any time. */
  ghost predicate SchemaInvariant(db: Db) {
    DerivedMass(db.materials) == Withdrawn(db.ledger)
  }

  /** By how much one event breaks that equality. */
  function Slack(e: Event): real {
    match e
    case Added(_, _, kind, initial) => if IsDerived(kind) then initial else 0.0
    case MixCreated(_, _, _, total, draws, _) => total - SumDraws(draws)
    case Recycled(_, _, _, inputs, output, _, _, _) => output - SumDraws(Tracked(inputs))
    case _ => 0.0
  }

  function TotalSlack(ledger: seq<Event>): real {
    if ledger == [] then 0.0 else TotalSlack(ledger[..|ledger| - 1]) + Slack(ledger[|ledger| - 1])
  }

  /** The slack a request would commit; known to the caller before the call. */
  function RequestSlack(req: Request): real {
    match req
    case CreateReq(i) => if IsDerived(i.kind) then i.initial else 0.0
    case MixReq(i) => i.total - SumDraws(i.draws)
    case RecycleReq(r) => r.output - SumDraws(Tracked(r.inputs))
    case _ => 0.0
  }

  lemma DerivedMassGrows(ms: map<Id, Material>, ms': map<Id, Material>, newId: Id)
    requires Keeps(ms, ms') && newId !in ms && ms'.Keys == ms.Keys + {newId}
    ensures DerivedMass(ms') == DerivedMass(ms) + if IsDerived(ms'[newId].kind) then ms'[newId].initial else 0.0
  {
    var f := id => if id in ms && IsDerived(ms[id].kind) then ms[id].initial else 0.0;
    var f' := id => if id in ms' && IsDerived(ms'[id].kind) then ms'[id].initial else 0.0;
    SumInsert(ms.Keys, f', newId);
    SumCongruent(ms.Keys, f, f');
  }

  lemma DerivedMassSame(ms: map<Id, Material>, ms': map<Id, Material>)
    requires Keeps(ms, ms') && ms'.Keys == ms.Keys
    ensures DerivedMass(ms') == DerivedMass(ms)
  {
    var f := id => if id in ms && IsDerived(ms[id].kind) then ms[id].initial else 0.0;
    var f' := id => if id in ms' && IsDerived(ms'[id].kind) then ms'[id].initial else 0.0;
    SumCongruent(ms.Keys, f, f');
  }

  ghost predicate MassLaw(db: Db) {
    DerivedMass(db.materials) == Withdrawn(db.ledger) + TotalSlack(db.ledger)
  }

  /** What a transaction appends, and which row it adds. */
  lemma TransactShape(db: Db, c: Call, newId: Id, rowId: Id, at: int) returns (e: Event)
    requires Transact(db, c, newId, rowId, at).Some?
    ensures Transact(db, c, newId, rowId, at).value.ledger == db.ledger + [e]
    ensures Slack(e) == RequestSlack(c.req)
    ensures var ms' := Transact(db, c, newId, rowId, at).value.materials;
      if c.req.ConsumeReq? || c.req.RetireReq? then ms'.Keys == db.materials.Keys && !e.MixCreated? && !e.Recycled?
      else
        && newId !in db.materials && ms'.Keys == db.materials.Keys + {newId}
        && (if IsDerived(ms'[newId].kind) then ms'[newId].initial else 0.0)
           == Slack(e) + if e.MixCreated? || e.Recycled? then SumDraws(EventDraws(e)) else 0.0
  {
    match c.req
    case CreateReq(i) => e := Added(newId, at, i.kind, i.initial);
    case MixReq(i) => e := MixEvent(i, newId, at);
    case RecycleReq(r) => e := RecycleEvent(r, newId, at);
    case ConsumeReq(ev) => e := ConsumptionEvent(ev, c.seen.value, at);
    case RetireReq(i) => e := Retired(i.material, at, c.seen.value.remaining);
  }

  lemma LedgerSnoc(ledger: seq<Event>, e: Event)
    ensures TotalSlack(ledger + [e]) == TotalSlack(ledger) + Slack(e)
    ensures Withdrawn(ledger + [e]) == Withdrawn(ledger) + if e.MixCreated? || e.Recycled? then
      SumDraws(EventDraws(e)) else 0.0
  {
    assert (ledger + [e])[..|ledger|] == ledger;
  }

  lemma TransactMass(db: Db, c: Call, newId: Id, rowId: Id, at: int)
    requires TablesOk(db) && CallOk(db.materials, c) && c.stage == Reads(c.req)
    requires Transact(db, c, newId, rowId, at).Some? && MassLaw(db)
    ensures var db' := Transact(db, c, newId, rowId, at).value;
      MassLaw(db') && TotalSlack(db'.ledger) == TotalSlack(db.ledger) + RequestSlack(c.req)
  {
    TransactKeeps(db, c, newId, rowId, at);
    var e := TransactShape(db, c, newId, rowId, at);
    LedgerSnoc(db.ledger, e);
    var ms' := Transact(db, c, newId, rowId, at).value.materials;
    if c.req.ConsumeReq? || c.req.RetireReq? {
      DerivedMassSame(db.materials, ms');
    } else {
      DerivedMassGrows(db.materials, ms', newId);
    }
  }

  lemma StepMass(s: Sys, a: Action)
    requires Consistent(s) && MassLaw(s.db)
    ensures MassLaw(Next(s, a).db)
  {
    match a
    case Finish(cid, newId, rowId, at, ledgerThrows) =>
      if cid in s.calls && s.calls[cid].stage == Reads(s.calls[cid].req) &&
        Transact(s.db, s.calls[cid], newId, rowId, at).Some? {
        TransactMass(s.db, s.calls[cid], newId, rowId, at);
      }
    case _ =>
  }

  lemma {:induction false} RunMass(s: Sys, actions: seq<Action>)
    requires Consistent(s) && MassLaw(s.db)
    ensures MassLaw(Run(s, actions).db)
  {
    if actions != [] {
      RunMass(s, actions[..|actions| - 1]);
      RunKeeps(s, actions[..|actions| - 1]);
      StepMass(Run(s, actions[..|actions| - 1]), actions[|actions| - 1]);
    }
  }

  /** Empty tables are under the mass law. */
  lemma EmptyMass()
    ensures MassLaw(EMPTY.db)
  {
  }

  /** The schema's equality holds after a run exactly when the slacks of the run's events cancel. */
  lemma SchemaInvariantIff(s: Sys, actions: seq<Action>)
    requires Consistent(s) && MassLaw(s.db)
    ensures SchemaInvariant(Run(s, actions).db) <==> TotalSlack(Run(s, actions).db.ledger) == 0.0
  {
    RunMass(s, actions);
  }

  /** From reachable tables (consistent, and under the mass law) where it holds, one commit keeps the schema's
      equality exactly when the request has no slack. */
  lemma SchemaInvariantStep(db: Db, c: Call, newId: Id, rowId: Id, at: int)
    requires TablesOk(db) && CallOk(db.materials, c) && c.stage == Reads(c.req)
    requires MassLaw(db) && SchemaInvariant(db) && Transact(db, c, newId, rowId, at).Some?
    ensures SchemaInvariant(Transact(db, c, newId, rowId, at).value) <==> RequestSlack(c.req) == 0.0
  {
    TransactMass(db, c, newId, rowId, at);
  }

  /** A run after which the schema's equality fails: creating a mix batch directly, drawing on nothing. */
  lemma SchemaInvariantFails(i: CreateInput)
    requires PreCreate(i).None? && i.kind == MixBatch
    ensures var actions := [Begin(0, CreateReq(i)), Finish(0, "m", "r", 0, false)];
      !SchemaInvariant(Run(EMPTY, actions).db)
  {
    var actions := [Begin(0, CreateReq(i)), Finish(0, "m", "r", 0, false)];
    assert actions[..1] == [Begin(0, CreateReq(i))];
    assert actions[..1][..0] == [];
    assert Run(EMPTY, actions[..1]) == Next(EMPTY, Begin(0, CreateReq(i)));
    var db := Run(EMPTY, actions).db;
    assert db.ledger == [Added("m", 0, MixBatch, i.initial)];
    assert db.ledger[..0] == [];
    EmptyIsConsistent();
    EmptyMass();
    SchemaInvariantIff(EMPTY, actions);
  }

  /** Such an input exists. */
  lemma DirectMixBatchIsValid()
    ensures PreCreate(CreateInput("ann", MixBatch, Ml, 1.0, None, ["#000000"], Colors.Solid)).None?
  {
    assert Colors.Acceptable(["#000000"], Colors.Solid);
  }

  // ---------------------------------------------------------------- the balance of a recycle

  /** The balance the file header states: inputs, tracked or not, equal the output within 0.1. */
  predicate Balanced(req: RecycleRequest) {
    Abs(SumWeights(req.inputs) - req.output) <= 0.1
  }

  /** A request that is well-formed but for its output weight. */
  predicate WellFormedInputs(req: RecycleRequest) {
    && req.owner != "" && req.actor != "" && MIN_INPUTS <= |req.inputs| <= MAX_INPUTS
    && (forall i :: i in req.inputs ==> InputWellFormed(i)) && ResolveOverride(req.override).Success?
  }

  /** No output that validation accepts without anomaly is out of balance. */
  ghost predicate AlwaysBalanced(req: RecycleRequest) {
    forall o: real :: Unremarkable(req, o) ==> Balanced(req.(output := o))
  }

  predicate Unremarkable(req: RecycleRequest, output: real) {
    PreRecycle(req.(output := output)) == None && !Anomalous(req.(output := output))
  }

  /** The inputs of a recycle guarantee the stated balance if and only if they weigh at most 0.1 together: above that
      validation accepts an output that is out of balance. */
  lemma BalanceGuaranteedIff(req: RecycleRequest)
    requires WellFormedInputs(req)
    ensures AlwaysBalanced(req) <==> SumWeights(req.inputs) <= 0.1
  {
    var total := SumWeights(req.inputs);
    SumWeightsPositive(req.inputs);
    if total <= 0.1 {
      forall o: real | Unremarkable(req, o)
        ensures Balanced(req.(output := o))
      {
        assert 0.0 < o <= total * WEIGHT_ANOMALY_THRESHOLD;
      }
    } else {
      var o := (total - 0.1) / 2.0;
      assert Unremarkable(req, o) && !Balanced(req.(output := o));
    }
  }

  const SCRAP := RecycleInput(Some("a"), 100.0, Measured)

  const LOSSY := RecycleRequest("ann", "ann", [SCRAP], 1.0, false, None, ColorOverride(None, None, None))

  const SPOOL := Material("ann", FilamentSpool, 100.0, 100.0, G, true, None, [])

  const RACK := Db(map["a" := SPOOL], [Added("a", 0, FilamentSpool, 100.0)], [], [], map[], [])

  lemma OneInput(i: RecycleInput)
    ensures SumWeights([i]) == i.weight
    ensures i.source.Some? ==> Tracked([i]) == [Draw(i.source.value, i.weight, i.provenance)]
  {
    assert [i][..0] == [];
  }

  lemma LossIsWellFormed()
    ensures PreRecycle(LOSSY) == None && !Anomalous(LOSSY) && !Balanced(LOSSY)
  {
    OneInput(SCRAP);
    assert forall i :: i in LOSSY.inputs ==> i == SCRAP;
  }

  lemma LossIsCovered()
    ensures CheckDraws(RACK.materials, "ann", Tracked(LOSSY.inputs)) == None
  {
    OneInput(SCRAP);
    CheckDrawsAll(RACK.materials, "ann", Tracked(LOSSY.inputs));
  }

  lemma LossCommits()
    ensures CommitRecycle(RACK, LOSSY, "m", "r", 1).Some?
  {
  }

  /** A recycle that is accepted and stored: 100 g in, 1 g out, nothing acknowledged and no anomaly recorded. */
  lemma LossIsAccepted()
    ensures !Balanced(LOSSY) && !Anomalous(LOSSY)
    ensures RecycleCall(RACK, LOSSY, "m", "r", 1, false).0 == Success("m")
  {
    LossIsWellFormed();
    LossIsCovered();
    LossCommits();
  }

  lemma {:induction false} SumWeightsPositive(inputs: seq<RecycleInput>)
    requires inputs != [] && forall i :: i in inputs ==> i.weight > 0.0
    ensures SumWeights(inputs) > 0.0
  {
    if |inputs| > 1 {
      SumWeightsPositive(inputs[..|inputs| - 1]);
    }
  }
}

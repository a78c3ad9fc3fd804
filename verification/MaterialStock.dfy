/** When stock stays non-negative, and how uninterrupted calls sit inside the concurrent machine. */
module MaterialStock {
  import opened Wrappers
  import opened Materials
  import opened MaterialStore
  import Runs = MaterialRuns

  /** No source is named twice. */
  predicate NamesOnce(draws: seq<Draw>) {
    forall i, j :: 0 <= i < j < |draws| ==> draws[i].source != draws[j].source
  }

  /** Every source can cover all that the list draws from it. */
  predicate Covered(ms: map<Id, Material>, draws: seq<Draw>) {
    forall d :: d in draws && d.source in ms ==> DrawnBy(draws, d.source) <= ms[d.source].remaining
  }

  /** Nothing that was not below zero is below zero now. */
  ghost predicate KeepsStock(ms: map<Id, Material>, ms': map<Id, Material>) {
    forall id :: id in ms && ms[id].remaining >= 0.0 ==> id in ms' && ms'[id].remaining >= 0.0
  }

  /** Draws on sources none of which is below zero. */
  lemma DrawsKeepStockIff(ms: map<Id, Material>, draws: seq<Draw>)
    requires forall d :: d in draws && d.source in ms ==> ms[d.source].remaining >= 0.0
    ensures KeepsStock(ms, AfterDraws(ms, draws)) <==> Covered(ms, draws)
  {
    var after := AfterDraws(ms, draws);
    if Covered(ms, draws) {
      forall id | id in ms && ms[id].remaining >= 0.0
        ensures after[id].remaining >= 0.0
      {
        if !(exists d :: d in draws && d.source == id) {
          DrawnByAbsent(draws, id);
        }
      }
    }
    if KeepsStock(ms, after) {
      forall d | d in draws && d.source in ms
        ensures DrawnBy(draws, d.source) <= ms[d.source].remaining
      {
        assert after[d.source].remaining >= 0.0;
      }
    }
  }

  lemma CheckedSources(ms: map<Id, Material>, owner: Id, draws: seq<Draw>)
    requires CheckDraws(ms, owner, draws) == None && forall d :: d in draws ==> d.amount > 0.0
    ensures forall d :: d in draws ==> d.source in ms && ms[d.source].remaining > 0.0
  {
    CheckDrawsAll(ms, owner, draws);
    forall d | d in draws
      ensures d.source in ms && ms[d.source].remaining > 0.0
    {
      var k :| 0 <= k < |draws| && draws[k] == d;
      assert CheckSource(ms, owner, draws[k].source, draws[k].amount) == None;
    }
  }

  lemma NamesOnceCovered(ms: map<Id, Material>, owner: Id, draws: seq<Draw>)
    requires CheckDraws(ms, owner, draws) == None && NamesOnce(draws)
    ensures Covered(ms, draws)
  {
    CheckDrawsAll(ms, owner, draws);
    forall d | d in draws && d.source in ms
      ensures DrawnBy(draws, d.source) <= ms[d.source].remaining
    {
      var k :| 0 <= k < |draws| && draws[k] == d;
      assert CheckSource(ms, owner, draws[k].source, draws[k].amount) == None;
      DrawnByDistinct(draws, k);
    }
  }

  /** An accepted, uninterrupted mix pushes no material below zero exactly when every source covers its total draw,
      whatever other materials already are; naming each source once is enough. */
  lemma MixKeepsStockIff(db: Db, input: MixInput, newId: Id, rowId: Id, at: int)
    requires MixCall(db, input, newId, rowId, at, false).0.Success?
    ensures KeepsStock(db.materials, MixCall(db, input, newId, rowId, at, false).1.materials) <==>
      Covered(db.materials, input.draws)
    ensures NamesOnce(input.draws) ==> Covered(db.materials, input.draws)
  {
    forall d | d in input.draws ensures d.amount > 0.0 {
      assert DrawWellFormed(d);
    }
    CheckedSources(db.materials, input.actor, input.draws);
    DrawsKeepStockIff(db.materials, input.draws);
    NewRowKeepsStock(db.materials, AfterDraws(db.materials, input.draws), newId, MixMaterial(input));
    if NamesOnce(input.draws) {
      NamesOnceCovered(db.materials, input.actor, input.draws);
    }
  }

  lemma NewRowKeepsStock(ms: map<Id, Material>, after: map<Id, Material>, newId: Id, m: Material)
    requires newId !in ms && after.Keys == ms.Keys
    ensures KeepsStock(ms, after[newId := m]) <==> KeepsStock(ms, after)
  {
    forall id | id in ms
      ensures after[newId := m][id] == after[id]
    {
    }
  }

  lemma RecycleKeepsStockIff(db: Db, req: RecycleRequest, newId: Id, rowId: Id, at: int)
    requires RecycleCall(db, req, newId, rowId, at, false).0.Success?
    ensures KeepsStock(db.materials, RecycleCall(db, req, newId, rowId, at, false).1.materials) <==>
      Covered(db.materials, Tracked(req.inputs))
    ensures NamesOnce(Tracked(req.inputs)) ==> Covered(db.materials, Tracked(req.inputs))
  {
    var draws := Tracked(req.inputs);
    TrackedArePositive(req.inputs);
    CheckedSources(db.materials, req.owner, draws);
    DrawsKeepStockIff(db.materials, draws);
    NewRowKeepsStock(db.materials, AfterDraws(db.materials, draws), newId, RecycleMaterial(req));
    if NamesOnce(draws) {
      NamesOnceCovered(db.materials, req.owner, draws);
    }
  }

  lemma {:induction false} TrackedArePositive(inputs: seq<RecycleInput>)
    requires forall i :: i in inputs ==> InputWellFormed(i)
    ensures forall d :: d in Tracked(inputs) ==> d.amount > 0.0
  {
    if inputs != [] {
      assert InputWellFormed(inputs[|inputs| - 1]);
      TrackedArePositive(inputs[..|inputs| - 1]);
    }
  }

  const TWICE := MixInput("recipe", "ann", 2.0, [Draw("a", 1.0, Measured), Draw("a", 1.0, Measured)],
    ColorOverride(None, None, None))

  const ONE_LEFT := Material("ann", ResinBottle, 1.0, 1.0, Ml, true, None, [])

  const SHELF := Db(map["a" := ONE_LEFT], [Added("a", 0, ResinBottle, 1.0)], [], [],
    map["recipe" := Recipe("ann", 2)], [])

  lemma TwiceDraws()
    ensures SumDraws(TWICE.draws) == 2.0 && DrawnBy(TWICE.draws, "a") == 2.0
    ensures forall x :: x in TWICE.draws ==> x == Draw("a", 1.0, Measured)
  {
    var d := Draw("a", 1.0, Measured);
    DrawnBySnoc([], d, "a");
    DrawnBySnoc([d], d, "a");
    assert [] + [d] == [d] && TWICE.draws == [d] + [d];
  }

  lemma TwiceIsWellFormed()
    ensures PreMix(TWICE) == None
  {
    TwiceDraws();
  }

  lemma TwiceIsCovered()
    ensures CheckDraws(SHELF.materials, "ann", TWICE.draws) == None
  {
    TwiceDraws();
    CheckDrawsAll(SHELF.materials, "ann", TWICE.draws);
  }

  lemma TwiceIsAccepted()
    ensures MixRefusal(SHELF, TWICE) == None
  {
    TwiceIsWellFormed();
    TwiceIsCovered();
    assert CheckRecipe(SHELF, TWICE) == None;
  }

  lemma TwiceCommits()
    ensures CommitMix(SHELF, TWICE, "m", "r", 1).Some?
    ensures CommitMix(SHELF, TWICE, "m", "r", 1).value.materials["a"].remaining == -1.0
  {
    TwiceDraws();
    var after := CommitMix(SHELF, TWICE, "m", "r", 1).value.materials;
    assert after["a"] == AfterDraws(SHELF.materials, TWICE.draws)["a"];
  }

  /** A mix that names one source twice is accepted and takes it below zero. */
  lemma TwiceNamedOverdraws()
    ensures MixCall(SHELF, TWICE, "m", "r", 1, false).0 == Success("m")
    ensures MixCall(SHELF, TWICE, "m", "r", 1, false).1.materials["a"].remaining == -1.0
  {
    TwiceIsAccepted();
    TwiceCommits();
  }

  // ---------------------------------------------------------------- sequential runs

  /** One uninterrupted call with its generated ids, its clock and whether its ledger write throws. */
  datatype Op = Op(req: Runs.Request, newId: Id, rowId: Id, at: int, ledgerThrows: bool)

  function Solo(db: Db, op: Op): Db {
    match op.req
    case CreateReq(i) => CreateCall(db, i, op.newId, op.at, op.ledgerThrows).1
    case MixReq(i) => MixCall(db, i, op.newId, op.rowId, op.at, op.ledgerThrows).1
    case RecycleReq(r) => RecycleCall(db, r, op.newId, op.rowId, op.at, op.ledgerThrows).1
    case ConsumeReq(e) => ConsumeCall(db, e, op.at, op.ledgerThrows).1
    case RetireReq(i) => RetireCall(db, i, op.at, op.ledgerThrows).1
  }

  function SoloRun(db: Db, ops: seq<Op>): Db {
    if ops == [] then db else Solo(SoloRun(db, ops[..|ops| - 1]), ops[|ops| - 1])
  }

  predicate Careful(op: Op) {
    && (op.req.MixReq? ==> NamesOnce(op.req.mix.draws))
    && (op.req.RecycleReq? ==> NamesOnce(Tracked(op.req.recycle.inputs)))
  }

  predicate Explains(e: Event, id: Id) {
    e.Consumed? && e.id == id && e.reconcile && e.newRemaining < 0.0
  }

  predicate Below(db: Db, id: Id) {
    id in db.materials && db.materials[id].remaining < 0.0
  }

  /** The operation is a consumption, accepted and stored, of more than the material holds. */
  predicate Overdraws(db: Db, op: Op, id: Id) {
    && op.req.ConsumeReq? && op.req.event.material == id && PreConsume(op.req.event).None? && !op.ledgerThrows
    && id in db.materials && op.req.event.weight > db.materials[id].remaining
  }

  /** Draws that each pass the check, each source once, push nothing below zero. */
  lemma CheckedDrawsSafe(ms: map<Id, Material>, owner: Id, draws: seq<Draw>, id: Id)
    requires CheckDraws(ms, owner, draws) == None && NamesOnce(draws) && id in ms && ms[id].remaining >= 0.0
    ensures AfterDraws(ms, draws)[id].remaining >= 0.0
  {
    if exists k :: 0 <= k < |draws| && draws[k].source == id {
      var k :| 0 <= k < |draws| && draws[k].source == id;
      CheckDrawsAll(ms, owner, draws);
      assert CheckSource(ms, owner, draws[k].source, draws[k].amount) == None;
      DrawnByDistinct(draws, k);
    } else {
      DrawnByAbsent(draws, id);
    }
  }

  lemma ConsumptionBelowIff(db: Db, e: ConsumeEvent, at: int, id: Id)
    requires !Below(db, id) && ConsumeCall(db, e, at, false).0.Success?
    ensures Below(ConsumeCall(db, e, at, false).1, id) <==> e.material == id && e.weight > db.materials[id].remaining
  {
    var d := Draw(e.material, e.weight, e.provenance);
    assert [] + [d] == [d];
    if id in db.materials {
      DrawnBySnoc([], d, id);
    }
  }

  lemma MixNotBelow(db: Db, i: MixInput, newId: Id, rowId: Id, at: int, id: Id)
    requires !Below(db, id) && NamesOnce(i.draws) && MixCall(db, i, newId, rowId, at, false).0.Success?
    ensures !Below(MixCall(db, i, newId, rowId, at, false).1, id)
  {
    if id in db.materials {
      CheckedDrawsSafe(db.materials, i.actor, i.draws, id);
    }
  }

  lemma RecycleNotBelow(db: Db, r: RecycleRequest, newId: Id, rowId: Id, at: int, id: Id)
    requires !Below(db, id) && NamesOnce(Tracked(r.inputs)) && RecycleCall(db, r, newId, rowId, at, false).0.Success?
    ensures !Below(RecycleCall(db, r, newId, rowId, at, false).1, id)
  {
    if id in db.materials {
      CheckedDrawsSafe(db.materials, r.owner, Tracked(r.inputs), id);
    }
  }

  /** A single call whose batch names each source once takes a material below zero if and only if it is a consumption
      of more than that material holds. */
  lemma GoesBelowIff(db: Db, op: Op, id: Id)
    requires Careful(op) && !Below(db, id)
    ensures Below(Solo(db, op), id) <==> Overdraws(db, op, id)
  {
    if !op.ledgerThrows {
      match op.req
      case CreateReq(i) =>
      case MixReq(i) =>
        if MixCall(db, i, op.newId, op.rowId, op.at, false).0.Success? {
          MixNotBelow(db, i, op.newId, op.rowId, op.at, id);
        }
      case RecycleReq(r) =>
        if RecycleCall(db, r, op.newId, op.rowId, op.at, false).0.Success? {
          RecycleNotBelow(db, r, op.newId, op.rowId, op.at, id);
        }
      case ConsumeReq(e) =>
        if ConsumeCall(db, e, op.at, false).0.Success? {
          ConsumptionBelowIff(db, e, op.at, id);
        }
      case RetireReq(i) =>
    }
  }

  /** And such a consumption says so: its ledger event asks for reconciliation. */
  lemma OverdrawIsRecorded(db: Db, op: Op, id: Id)
    requires Overdraws(db, op, id)
    ensures exists e :: Solo(db, op).ledger == db.ledger + [e] && Explains(e, id)
  {
    var e := ConsumptionEvent(op.req.event, db.materials[id], op.at);
    assert Solo(db, op).ledger == db.ledger + [e] && Explains(e, id);
  }

  /** The k-th call of a sequential run takes the material below zero: it is a consumption of more than the material
      then holds, and the event it appends says so. */
  ghost predicate TakenBelowAt(db: Db, ops: seq<Op>, k: nat, id: Id)
    requires k < |ops|
  {
    var before, after := SoloRun(db, ops[..k]), SoloRun(db, ops[..k + 1]);
    && !Below(before, id) && Below(after, id) && Overdraws(before, ops[k], id)
    && exists e :: after.ledger == before.ledger + [e] && Explains(e, id)
  }

  lemma TakenInPrefix(db: Db, ops: seq<Op>, n: nat, k: nat, id: Id)
    requires k < n <= |ops| && TakenBelowAt(db, ops[..n], k, id)
    ensures TakenBelowAt(db, ops, k, id)
  {
    assert ops[..n][..k] == ops[..k] && ops[..n][..k + 1] == ops[..k + 1];
  }

  lemma TakenLast(db: Db, ops: seq<Op>, id: Id)
    requires ops != [] && Careful(ops[|ops| - 1])
    requires !Below(SoloRun(db, ops[..|ops| - 1]), id) && Below(SoloRun(db, ops), id)
    ensures TakenBelowAt(db, ops, |ops| - 1, id)
  {
    var before := SoloRun(db, ops[..|ops| - 1]);
    GoesBelowIff(before, ops[|ops| - 1], id);
    OverdrawIsRecorded(before, ops[|ops| - 1], id);
    assert ops[..|ops|] == ops;
  }

  /** In a sequential run whose mixes and recycles name each source once, a material that did not start below zero and
      ends below zero was taken there by a consumption that recorded it. Whatever the ledger held before plays no
      part. */
  lemma {:induction false} OnlyConsumptionGoesNegative(db: Db, ops: seq<Op>, id: Id)
    requires !Below(db, id) && Below(SoloRun(db, ops), id)
    requires forall k :: 0 <= k < |ops| ==> Careful(ops[k])
    ensures exists k :: 0 <= k < |ops| && TakenBelowAt(db, ops, k, id)
  {
    var n := |ops| - 1;
    if Below(SoloRun(db, ops[..n]), id) {
      OnlyConsumptionGoesNegative(db, ops[..n], id);
      var k :| 0 <= k < n && TakenBelowAt(db, ops[..n], k, id);
      TakenInPrefix(db, ops, n, k, id);
    } else {
      TakenLast(db, ops, id);
    }
  }

  /** An uninterrupted consumption asks for reconciliation exactly when the row it leaves is negative,
      and reports that row's amount. */
  lemma ConsumptionIsHonest(db: Db, e: ConsumeEvent, at: int)
    requires ConsumeCall(db, e, at, false).0.Success?
    ensures var (r, db') := ConsumeCall(db, e, at, false);
      && db'.materials[e.material].remaining == r.value.newRemaining
      && (r.value.reconciliationNeeded <==> db'.materials[e.material].remaining < 0.0)
  {
    DrawnBySnoc([], Draw(e.material, e.weight, e.provenance), e.material);
    assert [] + [Draw(e.material, e.weight, e.provenance)] == [Draw(e.material, e.weight, e.provenance)];
  }

  // ---------------------------------------------------------------- uninterrupted calls inside the machine

  function Times(n: nat, a: Runs.Action): seq<Runs.Action> {
    seq(n, _ => a)
  }

  /** The row a call has seen after k reads of one unchanging snapshot. */
  function SeenAfter(db: Db, req: Runs.Request, k: nat): Option<Material> {
    if k > 0 && req.ConsumeReq? && req.event.material in db.materials then Some(db.materials[req.event.material])
    else if k > 0 && req.RetireReq? && req.retire.material in db.materials then Some(db.materials[req.retire.material])
    else None
  }

  function Refused(db: Db, req: Runs.Request, k: nat): bool
    requires k <= Runs.Reads(req)
  {
    k > 0 && (Refused(db, req, k - 1) || Runs.ReadOne(db, Runs.Call(req, k - 1, SeenAfter(db, req, k - 1))).Failure?)
  }

  /** After k reads by one call alone: it is gone if one was refused, else it has moved on; nothing else has changed. */
  ghost predicate HasRead(start: Runs.Sys, s: Runs.Sys, cid: nat, req: Runs.Request, k: nat)
    requires k <= Runs.Reads(req)
  {
    && s.db == start.db && s.calls - {cid} == start.calls - {cid}
    && if Refused(start.db, req, k) then cid !in s.calls
       else cid in s.calls && s.calls[cid] == Runs.Call(req, k, SeenAfter(start.db, req, k))
  }

  lemma ReadsOnce(start: Runs.Sys, s: Runs.Sys, cid: nat, req: Runs.Request, k: nat)
    requires 0 < k <= Runs.Reads(req) && HasRead(start, s, cid, req, k - 1)
    ensures HasRead(start, Runs.Next(s, Runs.ReadNext(cid)), cid, req, k)
  {
    assert Refused(start.db, req, k) ==
      (Refused(start.db, req, k - 1) ||
       Runs.ReadOne(start.db, Runs.Call(req, k - 1, SeenAfter(start.db, req, k - 1))).Failure?);
  }

  lemma {:induction false} ReadsAlone(s: Runs.Sys, cid: nat, req: Runs.Request, k: nat)
    requires cid in s.calls && s.calls[cid] == Runs.Call(req, 0, None) && k <= Runs.Reads(req)
    ensures HasRead(s, Runs.Run(s, Times(k, Runs.ReadNext(cid))), cid, req, k)
  {
    if k > 0 {
      ReadsAlone(s, cid, req, k - 1);
      assert Times(k, Runs.ReadNext(cid))[..k - 1] == Times(k - 1, Runs.ReadNext(cid));
      ReadsOnce(s, Runs.Run(s, Times(k - 1, Runs.ReadNext(cid))), cid, req, k);
    }
  }

  lemma {:induction false} RunConcat(s: Runs.Sys, xs: seq<Runs.Action>, ys: seq<Runs.Action>)
    ensures Runs.Run(s, xs + ys) == Runs.Run(Runs.Run(s, xs), ys)
  {
    if ys == [] {
      assert xs + ys == xs;
    } else {
      assert (xs + ys)[..|xs + ys| - 1] == xs + ys[..|ys| - 1];
      RunConcat(s, xs, ys[..|ys| - 1]);
    }
  }

  /** The reads of a mix are refused exactly when the uninterrupted checks are. */
  lemma {:induction false} MixRefused(db: Db, i: MixInput, k: nat)
    requires k <= |i.draws|
    ensures Refused(db, Runs.MixReq(i), 1 + k) <==>
      CheckRecipe(db, i).Some? || CheckDraws(db.materials, i.actor, i.draws[..k]).Some?
  {
    if k == 0 {
      assert !Refused(db, Runs.MixReq(i), 0);
    } else {
      MixRefused(db, i, k - 1);
      assert i.draws[..k][..k - 1] == i.draws[..k - 1];
    }
  }

  lemma {:induction false} RecycleRefused(db: Db, r: RecycleRequest, k: nat)
    requires k <= |Tracked(r.inputs)|
    ensures Refused(db, Runs.RecycleReq(r), k) <==> CheckDraws(db.materials, r.owner, Tracked(r.inputs)[..k]).Some?
  {
    if k > 0 {
      RecycleRefused(db, r, k - 1);
      assert Tracked(r.inputs)[..k][..k - 1] == Tracked(r.inputs)[..k - 1];
    }
  }

  lemma RetireRefused(db: Db, i: RetireInput)
    ensures Refused(db, Runs.RetireReq(i), 3) <==> CheckRetire(db, i).Some?
  {
    assert !Refused(db, Runs.RetireReq(i), 0);
    assert Refused(db, Runs.RetireReq(i), 2) <==>
      Refused(db, Runs.RetireReq(i), 1) ||
        Runs.ReadOne(db, Runs.Call(Runs.RetireReq(i), 1, SeenAfter(db, Runs.RetireReq(i), 1))).Failure?;
  }

  /** All reads of a request against one snapshot fail exactly when the uninterrupted call refuses. */
  lemma SoloRefused(db: Db, op: Op)
    requires Runs.Pre(op.req).None?
    ensures Refused(db, op.req, Runs.Reads(op.req)) ==> Solo(db, op) == db
    ensures !Refused(db, op.req, Runs.Reads(op.req)) ==>
      var t := Runs.Transact(db, Runs.Call(op.req, Runs.Reads(op.req), SeenAfter(db, op.req, Runs.Reads(op.req))),
        op.newId, op.rowId, op.at);
      Solo(db, op) == if t.None? || op.ledgerThrows then db else t.value
  {
    match op.req
    case CreateReq(i) =>
    case MixReq(i) =>
      MixRefused(db, i, |i.draws|);
      assert i.draws[..|i.draws|] == i.draws;
    case RecycleReq(r) =>
      RecycleRefused(db, r, |Tracked(r.inputs)|);
      assert Tracked(r.inputs)[..|Tracked(r.inputs)|] == Tracked(r.inputs);
    case ConsumeReq(e) =>
      assert !Refused(db, op.req, 0);
    case RetireReq(i) =>
      RetireRefused(db, i);
  }

  /** Run alone, the machine's separate steps do to the tables exactly what the uninterrupted call does. */
  lemma UninterruptedCall(s: Runs.Sys, cid: nat, op: Op)
    requires cid !in s.calls
    ensures Runs.Run(s, [Runs.Begin(cid, op.req)] + Times(Runs.Reads(op.req), Runs.ReadNext(cid))
                        + [Runs.Finish(cid, op.newId, op.rowId, op.at, op.ledgerThrows)]).db == Solo(s.db, op)
  {
    var begin := [Runs.Begin(cid, op.req)];
    var readAll := Times(Runs.Reads(op.req), Runs.ReadNext(cid));
    var finish := [Runs.Finish(cid, op.newId, op.rowId, op.at, op.ledgerThrows)];
    RunConcat(s, begin + readAll, finish);
    RunConcat(s, begin, readAll);
    assert begin[..0] == [] && finish[..0] == [];
    var s1 := Runs.Next(s, begin[0]);
    assert Runs.Run(s, begin) == s1;
    if Runs.Pre(op.req).None? {
      ReadsAlone(s1, cid, op.req, Runs.Reads(op.req));
      SoloRefused(s.db, op);
    } else {
      IdleReads(s1, cid, Runs.Reads(op.req));
    }
  }

  lemma {:induction false} IdleReads(s: Runs.Sys, cid: nat, k: nat)
    requires cid !in s.calls
    ensures Runs.Run(s, Times(k, Runs.ReadNext(cid))) == s
  {
    if k > 0 {
      IdleReads(s, cid, k - 1);
      assert Times(k, Runs.ReadNext(cid))[..k - 1] == Times(k - 1, Runs.ReadNext(cid));
    }
  }

  // ---------------------------------------------------------------- calls validated on one snapshot

  /** The draws a request makes when it commits. */
  function DrawsOf(req: Runs.Request): seq<Draw> {
    match req
    case MixReq(i) => i.draws
    case RecycleReq(r) => Tracked(r.inputs)
    case ConsumeReq(e) => [Draw(e.material, e.weight, e.provenance)]
    case CreateReq(_) => []
    case RetireReq(_) => []
  }

  /** The call as it stands when it has passed all its reads of one snapshot. */
  function ReadyCall(snap: Db, req: Runs.Request): Runs.Call {
    Runs.Call(req, Runs.Reads(req), SeenAfter(snap, req, Runs.Reads(req)))
  }

  /** What its transaction makes of the tables it meets: nothing, if it is rolled back. */
  function CommitOne(snap: Db, db: Db, op: Op): Db {
    var committed := Runs.Transact(db, ReadyCall(snap, op.req), op.newId, op.rowId, op.at);
    if committed.None? || op.ledgerThrows then db else committed.value
  }

  predicate Commits(snap: Db, db: Db, op: Op) {
    Runs.Transact(db, ReadyCall(snap, op.req), op.newId, op.rowId, op.at).Some? && !op.ledgerThrows
  }

  function CommitAll(snap: Db, db: Db, ops: seq<Op>): Db {
    if ops == [] then db else CommitOne(snap, CommitAll(snap, db, ops[..|ops| - 1]), ops[|ops| - 1])
  }

  /** What the transactions that are not rolled back take from one material. */
  function TotalDrawn(snap: Db, db: Db, ops: seq<Op>, id: Id): real {
    if ops == [] then 0.0
    else
      var init, op := ops[..|ops| - 1], ops[|ops| - 1];
      TotalDrawn(snap, db, init, id) +
      if Commits(snap, CommitAll(snap, db, init), op) then DrawnBy(DrawsOf(op.req), id) else 0.0
  }

  lemma CommitOneDraws(snap: Db, db: Db, op: Op, id: Id)
    requires id in db.materials
    ensures id in CommitOne(snap, db, op).materials
    ensures CommitOne(snap, db, op).materials[id].remaining ==
      db.materials[id].remaining - if Commits(snap, db, op) then DrawnBy(DrawsOf(op.req), id) else 0.0
  {
  }

  lemma {:induction false} CommitAllDraws(snap: Db, db: Db, ops: seq<Op>, id: Id)
    requires id in db.materials
    ensures id in CommitAll(snap, db, ops).materials
    ensures CommitAll(snap, db, ops).materials[id].remaining ==
      db.materials[id].remaining - TotalDrawn(snap, db, ops, id)
  {
    if ops != [] {
      CommitAllDraws(snap, db, ops[..|ops| - 1], id);
      CommitOneDraws(snap, CommitAll(snap, db, ops[..|ops| - 1]), ops[|ops| - 1], id);
    }
  }

  /** The call begins and reads everything it has to. */
  function ReadUp(n: nat, req: Runs.Request): seq<Runs.Action> {
    [Runs.Begin(n, req)] + Times(Runs.Reads(req), Runs.ReadNext(n))
  }

  function Finish(n: nat, op: Op): Runs.Action {
    Runs.Finish(n, op.newId, op.rowId, op.at, op.ledgerThrows)
  }

  /** Call after call reads up. */
  function ReadUps(ops: seq<Op>): seq<Runs.Action> {
    if ops == [] then [] else ReadUps(ops[..|ops| - 1]) + ReadUp(|ops| - 1, ops[|ops| - 1].req)
  }

  /** Only then do they commit, in the same order. */
  function Finishes(ops: seq<Op>): seq<Runs.Action> {
    if ops == [] then [] else Finishes(ops[..|ops| - 1]) + [Finish(|ops| - 1, ops[|ops| - 1])]
  }

  predicate Passes(db: Db, op: Op) {
    Runs.Pre(op.req).None? && !Refused(db, op.req, Runs.Reads(op.req))
  }

  /** Every call passes its checks on these tables. */
  predicate Validated(db: Db, ops: seq<Op>) {
    forall k :: 0 <= k < |ops| ==> Passes(db, ops[k])
  }

  ghost predicate Ready(calls: map<nat, Runs.Call>, snap: Db, ops: seq<Op>) {
    forall k :: 0 <= k < |ops| ==> k in calls && calls[k] == ReadyCall(snap, ops[k].req)
  }

  /** The calls have read up, and there are no others. */
  ghost predicate AllRead(s: Runs.Sys, snap: Db, ops: seq<Op>) {
    s.db == snap && Ready(s.calls, snap, ops) && forall k :: k in s.calls ==> k < |ops|
  }

  lemma RunSingle(s: Runs.Sys, a: Runs.Action)
    ensures Runs.Run(s, [a]) == Runs.Next(s, a)
  {
    assert [a][..0] == [] && Runs.Run(s, []) == s;
  }

  lemma ReadsReady(s: Runs.Sys, n: nat, req: Runs.Request, calls: map<nat, Runs.Call>)
    requires n !in calls && s.calls == calls[n := Runs.Call(req, 0, None)] && !Refused(s.db, req, Runs.Reads(req))
    ensures Runs.Run(s, Times(Runs.Reads(req), Runs.ReadNext(n))) == Runs.Sys(s.db, calls[n := ReadyCall(s.db, req)])
  {
    ReadsAlone(s, n, req, Runs.Reads(req));
    SameButOne(s.calls, Runs.Run(s, Times(Runs.Reads(req), Runs.ReadNext(n))).calls, calls, n, ReadyCall(s.db, req));
  }

  lemma SameButOne(before: map<nat, Runs.Call>, after: map<nat, Runs.Call>, calls: map<nat, Runs.Call>, n: nat,
    c: Runs.Call)
    requires n !in calls && before - {n} == calls && after - {n} == before - {n} && n in after && after[n] == c
    ensures after == calls[n := c]
  {
    assert forall k :: k in after && k != n ==> k in after - {n} && (after - {n})[k] == after[k];
    assert forall k :: k in calls ==> k in after - {n};
  }

  lemma ReadUpOne(s: Runs.Sys, n: nat, op: Op)
    requires n !in s.calls && Passes(s.db, op)
    ensures Runs.Run(s, ReadUp(n, op.req)) == s.(calls := s.calls[n := ReadyCall(s.db, op.req)])
  {
    var begin := Runs.Begin(n, op.req);
    RunSingle(s, begin);
    RunConcat(s, [begin], Times(Runs.Reads(op.req), Runs.ReadNext(n)));
    ReadsReady(Runs.Next(s, begin), n, op.req, s.calls);
  }

  lemma ReadyGrows(calls: map<nat, Runs.Call>, snap: Db, ops: seq<Op>, n: nat)
    requires n + 1 == |ops| && Ready(calls, snap, ops[..n])
    ensures Ready(calls[n := ReadyCall(snap, ops[n].req)], snap, ops)
  {
    assert forall k :: 0 <= k < n ==> ops[..n][k] == ops[k];
  }

  lemma ReadUpNext(s: Runs.Sys, snap: Db, ops: seq<Op>)
    requires ops != [] && Validated(snap, ops) && AllRead(s, snap, ops[..|ops| - 1])
    ensures AllRead(Runs.Run(s, ReadUp(|ops| - 1, ops[|ops| - 1].req)), snap, ops)
  {
    var n := |ops| - 1;
    assert Passes(snap, ops[n]);
    ReadUpOne(s, n, ops[n]);
    ReadyGrows(s.calls, snap, ops, n);
  }

  lemma {:induction false} ReadUpsAll(s: Runs.Sys, ops: seq<Op>)
    requires s.calls == map[] && Validated(s.db, ops)
    ensures AllRead(Runs.Run(s, ReadUps(ops)), s.db, ops)
  {
    if ops != [] {
      var n := |ops| - 1;
      assert Validated(s.db, ops[..n]) by {
        assert forall k :: 0 <= k < n ==> ops[..n][k] == ops[k];
      }
      ReadUpsAll(s, ops[..n]);
      RunConcat(s, ReadUps(ops[..n]), ReadUp(n, ops[n].req));
      ReadUpNext(Runs.Run(s, ReadUps(ops[..n])), s.db, ops);
    }
  }

  /** The calls have committed, and the later ones are as they were. */
  ghost predicate AllFinished(start: Runs.Sys, s: Runs.Sys, snap: Db, ops: seq<Op>) {
    && s.db == CommitAll(snap, start.db, ops)
    && forall k :: k in start.calls && k >= |ops| ==> k in s.calls && s.calls[k] == start.calls[k]
  }

  lemma FinishNext(start: Runs.Sys, s: Runs.Sys, snap: Db, ops: seq<Op>)
    requires ops != [] && Ready(start.calls, snap, ops) && AllFinished(start, s, snap, ops[..|ops| - 1])
    ensures AllFinished(start, Runs.Next(s, Finish(|ops| - 1, ops[|ops| - 1])), snap, ops)
  {
    var n := |ops| - 1;
    assert s.calls[n] == ReadyCall(snap, ops[n].req);
  }

  lemma {:induction false} FinishesAll(s: Runs.Sys, snap: Db, ops: seq<Op>)
    requires Ready(s.calls, snap, ops)
    ensures AllFinished(s, Runs.Run(s, Finishes(ops)), snap, ops)
  {
    if ops != [] {
      var n := |ops| - 1;
      assert Ready(s.calls, snap, ops[..n]) by {
        assert forall k :: 0 <= k < n ==> ops[..n][k] == ops[k];
      }
      FinishesAll(s, snap, ops[..n]);
      FinishesNext(s, snap, ops);
    }
  }

  lemma FinishesNext(s: Runs.Sys, snap: Db, ops: seq<Op>)
    requires ops != [] && Ready(s.calls, snap, ops)
    requires AllFinished(s, Runs.Run(s, Finishes(ops[..|ops| - 1])), snap, ops[..|ops| - 1])
    ensures AllFinished(s, Runs.Run(s, Finishes(ops)), snap, ops)
  {
    var n := |ops| - 1;
    var now := Runs.Run(s, Finishes(ops[..n]));
    RunConcat(s, Finishes(ops[..n]), [Finish(n, ops[n])]);
    RunSingle(now, Finish(n, ops[n]));
    FinishNext(s, now, snap, ops);
  }

  /** Any number of calls that are all validated on the same tables before the first of them commits, in the concurrent
      machine: a material is below zero afterwards if and only if the commits that are not rolled back draw more on it
      together than it held. No commit checks anything again. */
  lemma InterleavedCallsOverdrawIff(s: Runs.Sys, ops: seq<Op>, id: Id)
    requires s.calls == map[] && Validated(s.db, ops) && id in s.db.materials
    ensures Below(Runs.Run(s, ReadUps(ops) + Finishes(ops)).db, id) <==>
      TotalDrawn(s.db, s.db, ops, id) > s.db.materials[id].remaining
  {
    RunConcat(s, ReadUps(ops), Finishes(ops));
    ReadUpsAll(s, ops);
    FinishesAll(Runs.Run(s, ReadUps(ops)), s.db, ops);
    CommitAllDraws(s.db, s.db, ops, id);
  }
}

/** Many calls at once. A call validates with separate awaited reads and then commits one
    transaction; between any two of those steps other calls may run. */
module MaterialRuns {
  import opened Wrappers
  import opened Materials

  datatype Request =
    | CreateReq(create: CreateInput)
    | MixReq(mix: MixInput)
    | RecycleReq(recycle: RecycleRequest)
    | ConsumeReq(event: ConsumeEvent)
    | RetireReq(retire: RetireInput)

  /** A call in flight: how many reads it has passed, and the row a consume or retire has read. */
  datatype Call = Call(req: Request, stage: nat, seen: Option<Material>)

  datatype Sys = Sys(db: Db, calls: map<nat, Call>)

  datatype Action =
    | Begin(cid: nat, req: Request)
    | ReadNext(cid: nat)
    | Finish(cid: nat, newId: Id, rowId: Id, at: int, ledgerThrows: bool)
    | OtherTables(recipes: map<Id, Recipe>, loadouts: seq<Loadout>)

  function Pre(req: Request): Option<Reason> {
    match req
    case CreateReq(i) => PreCreate(i)
    case MixReq(i) => PreMix(i)
    case RecycleReq(r) => PreRecycle(r)
    case ConsumeReq(e) => PreConsume(e)
    case RetireReq(i) => PreRetire(i)
  }

  /** The number of awaited reads before the transaction. */
  function Reads(req: Request): nat {
    match req
    case CreateReq(_) => 0
    case MixReq(i) => 1 + |i.draws|
    case RecycleReq(r) => |Tracked(r.inputs)|
    case ConsumeReq(_) => 1
    case RetireReq(_) => 3
  }

  function ReadOne(db: Db, c: Call): Result<Call, Reason>
    requires c.stage < Reads(c.req)
  {
    var next := c.(stage := c.stage + 1);
    match c.req
    case MixReq(i) =>
      var why := if c.stage == 0 then CheckRecipe(db, i)
                 else CheckSource(db.materials, i.actor, i.draws[c.stage - 1].source, i.draws[c.stage - 1].amount);
      if why.Some? then Failure(why.value) else Success(next)
    case RecycleReq(r) =>
      var d := Tracked(r.inputs)[c.stage];
      var why := CheckSource(db.materials, r.owner, d.source, d.amount);
      if why.Some? then Failure(why.value) else Success(next)
    case ConsumeReq(e) =>
      if e.material !in db.materials then Failure(MaterialNotFound)
      else Success(next.(seen := Some(db.materials[e.material])))
    case RetireReq(i) =>
      if c.stage == 0 then
        if i.material !in db.materials then Failure(MaterialNotFound)
        else if !db.materials[i.material].active then Failure(AlreadyRetired)
        else Success(next.(seen := Some(db.materials[i.material])))
      else if c.stage == 1 then
        if (exists l :: l in db.loadouts && l.material == i.material) && !i.ackLoaded then Failure(LoadedNoAck)
          else Success(next)
      else
        if i.dispatchActive then Failure(ActiveDispatch) else Success(next)
  }

  function Transact(db: Db, c: Call, newId: Id, rowId: Id, at: int): Option<Db> {
    match c.req
    case CreateReq(i) => CommitCreate(db, i, newId, at)
    case MixReq(i) => CommitMix(db, i, newId, rowId, at)
    case RecycleReq(r) => CommitRecycle(db, r, newId, rowId, at)
    case ConsumeReq(e) => if c.seen.Some? then Some(CommitConsume(db, e, c.seen.value, at)) else None
    case RetireReq(i) => if c.seen.Some? then Some(CommitRetire(db, i, c.seen.value, at)) else None
  }

  function Next(s: Sys, a: Action): Sys {
    match a
    case Begin(cid, req) =>
      if cid in s.calls || Pre(req).Some? then s else s.(calls := s.calls[cid := Call(req, 0, None)])
    case ReadNext(cid) =>
      if cid !in s.calls || s.calls[cid].stage >= Reads(s.calls[cid].req) then s
      else (match ReadOne(s.db, s.calls[cid])
            case Success(c) => s.(calls := s.calls[cid := c])
            case Failure(_) => s.(calls := s.calls - {cid}))
    case Finish(cid, newId, rowId, at, ledgerThrows) =>
      if cid !in s.calls || s.calls[cid].stage != Reads(s.calls[cid].req) then s
      else
        var committed := Transact(s.db, s.calls[cid], newId, rowId, at);
        Sys(if committed.None? || ledgerThrows then s.db else committed.value, s.calls - {cid})
    case OtherTables(recipes, loadouts) => s.(db := s.db.(recipes := recipes, loadouts := loadouts))
  }

  function Run(s: Sys, actions: seq<Action>): Sys {
    if actions == [] then s else Next(Run(s, actions[..|actions| - 1]), actions[|actions| - 1])
  }

  const EMPTY := Sys(Db(map[], [], [], [], map[], []), map[])

  // ---------------------------------------------------------------- what every reachable state satisfies

  /** Ledger replay: every row is its initial amount less everything the ledger records against it. */
  ghost predicate Conserved(db: Db) {
    forall id :: id in db.materials ==> db.materials[id].remaining == db.materials[id].initial - Recorded(db.ledger, id)
  }

  ghost predicate OwnedBy(ms: map<Id, Material>, owner: Id, draws: seq<Draw>) {
    forall k :: 0 <= k < |draws| ==> draws[k].source in ms && ms[draws[k].source].owner == owner
  }

  /** An event's own promises: it names rows that exist, moves one owner's stock, and kept its mass rule. */
  ghost predicate EventOk(ms: map<Id, Material>, e: Event) {
    && e.id in ms
    && match e
       case Added(id, _, kind, initial) => ms[id].kind == kind && ms[id].initial == initial
       case MixCreated(id, _, actor, total, draws, _) =>
         && ms[id].kind == MixBatch && ms[id].initial == total && ms[id].owner == actor
         && OwnedBy(ms, actor, draws)
         && Abs(SumDraws(draws) - total) <= MASS_TOLERANCE_ML
       case Recycled(id, _, _, inputs, output, anomaly, acked, _) =>
         && ms[id].kind == RecycledSpool && ms[id].initial == output
         && OwnedBy(ms, ms[id].owner, Tracked(inputs))
         && (forall i :: i in inputs ==> i.weight > 0.0)
         && (!acked ==> output <= SumWeights(inputs) * WEIGHT_ANOMALY_THRESHOLD)
       case Consumed(_, _, weight, _, attributedTo, waste, _, _, _) => weight > 0.0 &&
         (waste <==> attributedTo != Print)
       case Retired(_, _, _) => true
  }

  ghost predicate LedgerOk(db: Db) {
    forall k :: 0 <= k < |db.ledger| ==> EventOk(db.materials, db.ledger[k])
  }

  ghost predicate MixRowOf(r: MixRow, e: Event) {
    e.MixCreated? && r.material == e.id && r.total == e.total && r.draws == e.draws
  }

  ghost predicate RecycleRowOf(ms: map<Id, Material>, r: RecycleRow, e: Event) {
    e.Recycled? && r.spool == e.id && r.inputs == e.inputs && r.at == e.at && r.spool in ms &&
      r.owner == ms[r.spool].owner
  }

  /** Each side table holds one row per ledger event of its kind, in ledger order. */
  ghost predicate RowsMatch(ms: map<Id, Material>, ledger: seq<Event>, mixRows: seq<MixRow>,
    recycleRows: seq<RecycleRow>) {
    if ledger == [] then mixRows == [] && recycleRows == []
    else
      var init, e := ledger[..|ledger| - 1], ledger[|ledger| - 1];
      if e.MixCreated? then
        mixRows != [] && MixRowOf(mixRows[|mixRows| - 1], e) &&
          RowsMatch(ms, init, mixRows[..|mixRows| - 1], recycleRows)
      else if e.Recycled? then
        recycleRows != [] && RecycleRowOf(ms, recycleRows[|recycleRows| - 1], e) &&
          RowsMatch(ms, init, mixRows, recycleRows[..|recycleRows| - 1])
      else RowsMatch(ms, init, mixRows, recycleRows)
  }

  /** What a call has already learnt stays true: rows are never removed and never change owner. */
  ghost predicate CallOk(ms: map<Id, Material>, c: Call) {
    && c.stage <= Reads(c.req)
    && Pre(c.req).None?
    && match c.req
       case CreateReq(_) => true
       case MixReq(i) => c.stage > 0 ==> OwnedBy(ms, i.actor, i.draws[..c.stage - 1])
       case RecycleReq(r) => OwnedBy(ms, r.owner, Tracked(r.inputs)[..c.stage])
       case ConsumeReq(e) => c.stage == 1 ==> c.seen.Some? && e.material in ms
       case RetireReq(i) => c.stage > 0 ==> c.seen.Some? && i.material in ms
  }

  ghost predicate Consistent(s: Sys) {
    && TablesOk(s.db)
    && forall cid :: cid in s.calls ==> CallOk(s.db.materials, s.calls[cid])
  }

  // ---------------------------------------------------------------- the proof

  /** Rows may be added and amounts may change, but identity is kept. */
  ghost predicate Keeps(ms: map<Id, Material>, ms': map<Id, Material>) {
    forall id :: id in ms ==>
      id in ms' && ms'[id].owner == ms[id].owner && ms'[id].kind == ms[id].kind && ms'[id].initial == ms[id].initial
  }

  lemma {:induction false} RowsMatchKept(ms: map<Id, Material>, ms': map<Id, Material>, ledger: seq<Event>,
                                         mixRows: seq<MixRow>, recycleRows: seq<RecycleRow>)
    requires Keeps(ms, ms') && RowsMatch(ms, ledger, mixRows, recycleRows)
    ensures RowsMatch(ms', ledger, mixRows, recycleRows)
  {
    if ledger != [] {
      var init, e := ledger[..|ledger| - 1], ledger[|ledger| - 1];
      RowsMatchKept(ms, ms', init,
                    if e.MixCreated? then mixRows[..|mixRows| - 1] else mixRows,
                    if e.Recycled? then recycleRows[..|recycleRows| - 1] else recycleRows);
    }
  }

  /** The ledger records nothing against a row that does not exist. */
  lemma {:induction false} RecordedOutside(db: Db, n: nat, id: Id)
    requires LedgerOk(db) && n <= |db.ledger| && id !in db.materials
    ensures Recorded(db.ledger[..n], id) == 0.0
  {
    if n > 0 {
      assert db.ledger[..n][..n - 1] == db.ledger[..n - 1];
      RecordedOutside(db, n - 1, id);
      assert EventOk(db.materials, db.ledger[n - 1]);
      DrawnByAbsent(EventDraws(db.ledger[n - 1]), id);
    }
  }

  /** One committed transaction: the table loses exactly what the appended event records, and no row is lost. */
  ghost predicate Effect(db: Db, db': Db, e: Event) {
    && Keeps(db.materials, db'.materials)
    && db'.ledger == db.ledger + [e]
    && (forall id :: id in db.materials ==>
         db'.materials[id].remaining == db.materials[id].remaining - DrawnBy(EventDraws(e), id))
    && (forall id :: id in db'.materials && id !in db.materials ==>
      db'.materials[id].remaining == db'.materials[id].initial)
  }

  lemma CommitConserves(db: Db, db': Db, e: Event)
    requires Conserved(db) && LedgerOk(db) && Effect(db, db', e)
    requires forall d :: d in EventDraws(e) ==> d.source in db.materials
    ensures Conserved(db')
  {
    assert db'.ledger[..|db.ledger|] == db.ledger;
    forall id | id in db'.materials
      ensures db'.materials[id].remaining == db'.materials[id].initial - Recorded(db'.ledger, id)
    {
      if id !in db.materials {
        RecordedOutside(db, |db.ledger|, id);
        assert db.ledger[..|db.ledger|] == db.ledger;
        DrawnByAbsent(EventDraws(e), id);
      }
    }
  }

  lemma CommitKeepsLedgerOk(db: Db, db': Db, e: Event)
    requires LedgerOk(db) && Effect(db, db', e) && EventOk(db'.materials, e)
    ensures LedgerOk(db')
  {
    forall k | 0 <= k < |db'.ledger|
      ensures EventOk(db'.materials, db'.ledger[k])
    {
      if k < |db.ledger| {
        assert EventOk(db.materials, db.ledger[k]);
      }
    }
  }

  /** A mix row for a mix event, else none. */
  ghost predicate MixRowsFollow(db: Db, db': Db, e: Event) {
    if !e.MixCreated? then db'.mixRows == db.mixRows
    else exists r :: db'.mixRows == db.mixRows + [r] && MixRowOf(r, e)
  }

  ghost predicate RecycleRowsFollow(db: Db, db': Db, e: Event) {
    if !e.Recycled? then db'.recycleRows == db.recycleRows
    else exists r :: db'.recycleRows == db.recycleRows + [r] && RecycleRowOf(db'.materials, r, e)
  }

  /** The new last rows of the three tables match when the old ones did. */
  lemma CommitKeepsRows(db: Db, db': Db, e: Event)
    requires RowsMatch(db.materials, db.ledger, db.mixRows, db.recycleRows) && Effect(db, db', e)
    requires MixRowsFollow(db, db', e)
    requires RecycleRowsFollow(db, db', e)
    ensures RowsMatch(db'.materials, db'.ledger, db'.mixRows, db'.recycleRows)
  {
    assert db'.ledger[..|db.ledger|] == db.ledger;
    assert e.MixCreated? ==> db'.mixRows[..|db.mixRows|] == db.mixRows;
    assert e.Recycled? ==> db'.recycleRows[..|db.recycleRows|] == db.recycleRows;
    RowsMatchKept(db.materials, db'.materials, db.ledger, db.mixRows, db.recycleRows);
  }

  lemma CallOkKept(ms: map<Id, Material>, ms': map<Id, Material>, c: Call)
    requires Keeps(ms, ms') && CallOk(ms, c)
    ensures CallOk(ms', c)
  {
  }

  ghost predicate TablesOk(db: Db) {
    Conserved(db) && LedgerOk(db) && RowsMatch(db.materials, db.ledger, db.mixRows, db.recycleRows)
  }

  lemma CommitKeeps(db: Db, db': Db, e: Event)
    requires TablesOk(db) && Effect(db, db', e) && EventOk(db'.materials, e)
    requires forall d :: d in EventDraws(e) ==> d.source in db.materials
    requires MixRowsFollow(db, db', e)
    requires RecycleRowsFollow(db, db', e)
    ensures TablesOk(db')
  {
    CommitConserves(db, db', e);
    CommitKeepsLedgerOk(db, db', e);
    CommitKeepsRows(db, db', e);
  }

  lemma CreateKeeps(db: Db, i: CreateInput, newId: Id, at: int)
    requires TablesOk(db) && CommitCreate(db, i, newId, at).Some?
    ensures var db' := CommitCreate(db, i, newId, at).value; TablesOk(db') && Keeps(db.materials, db'.materials)
  {
    var e := Added(newId, at, i.kind, i.initial);
    assert EventDraws(e) == [];
    CommitKeeps(db, CommitCreate(db, i, newId, at).value, e);
  }

  lemma MixEffect(db: Db, i: MixInput, newId: Id, rowId: Id, at: int)
    requires CommitMix(db, i, newId, rowId, at).Some?
    ensures Effect(db, CommitMix(db, i, newId, rowId, at).value, MixEvent(i, newId, at))
  {
  }

  lemma MixKeeps(db: Db, i: MixInput, newId: Id, rowId: Id, at: int)
    requires TablesOk(db) && PreMix(i).None? && OwnedBy(db.materials, i.actor, i.draws)
    requires CommitMix(db, i, newId, rowId, at).Some?
    ensures var db' := CommitMix(db, i, newId, rowId, at).value; TablesOk(db') && Keeps(db.materials, db'.materials)
  {
    var db' := CommitMix(db, i, newId, rowId, at).value;
    MixEffect(db, i, newId, rowId, at);
    assert MixRowOf(MixRow(rowId, i.recipe, newId, i.total, i.draws), MixEvent(i, newId, at));
    CommitKeeps(db, db', MixEvent(i, newId, at));
  }

  lemma RecycleEffect(db: Db, r: RecycleRequest, newId: Id, rowId: Id, at: int)
    requires CommitRecycle(db, r, newId, rowId, at).Some?
    ensures Effect(db, CommitRecycle(db, r, newId, rowId, at).value, RecycleEvent(r, newId, at))
  {
  }

  lemma RecycleKeeps(db: Db, r: RecycleRequest, newId: Id, rowId: Id, at: int)
    requires TablesOk(db) && PreRecycle(r).None? && OwnedBy(db.materials, r.owner, Tracked(r.inputs))
    requires CommitRecycle(db, r, newId, rowId, at).Some?
    ensures var db' := CommitRecycle(db, r, newId, rowId, at).value; TablesOk(db') && Keeps(db.materials, db'.materials)
  {
    var db' := CommitRecycle(db, r, newId, rowId, at).value;
    RecycleEffect(db, r, newId, rowId, at);
    forall i | i in r.inputs ensures i.weight > 0.0 {
      assert InputWellFormed(i);
    }
    assert RecycleRowOf(db'.materials, RecycleRow(rowId, r.owner, r.inputs, newId, at), RecycleEvent(r, newId, at));
    CommitKeeps(db, db', RecycleEvent(r, newId, at));
  }

  lemma ConsumeKeeps(db: Db, e: ConsumeEvent, seen: Material, at: int)
    requires TablesOk(db) && PreConsume(e).None? && e.material in db.materials
    ensures var db' := CommitConsume(db, e, seen, at); TablesOk(db') && Keeps(db.materials, db'.materials)
  {
    CommitKeeps(db, CommitConsume(db, e, seen, at), ConsumptionEvent(e, seen, at));
  }

  lemma RetireKeeps(db: Db, i: RetireInput, seen: Material, at: int)
    requires TablesOk(db) && i.material in db.materials
    ensures var db' := CommitRetire(db, i, seen, at); TablesOk(db') && Keeps(db.materials, db'.materials)
  {
    CommitKeeps(db, CommitRetire(db, i, seen, at), Retired(i.material, at, seen.remaining));
  }

  /** A transaction on consistent tables by a call that has passed all its reads. */
  lemma TransactKeeps(db: Db, c: Call, newId: Id, rowId: Id, at: int)
    requires TablesOk(db) && CallOk(db.materials, c) && c.stage == Reads(c.req)
    requires Transact(db, c, newId, rowId, at).Some?
    ensures var db' := Transact(db, c, newId, rowId, at).value; TablesOk(db') && Keeps(db.materials, db'.materials)
  {
    match c.req {
      case CreateReq(i) => CreateKeeps(db, i, newId, at);
      case MixReq(i) =>
        assert i.draws[..c.stage - 1] == i.draws;
        MixKeeps(db, i, newId, rowId, at);
      case RecycleReq(r) =>
        assert Tracked(r.inputs)[..c.stage] == Tracked(r.inputs);
        RecycleKeeps(db, r, newId, rowId, at);
      case ConsumeReq(e) => ConsumeKeeps(db, e, c.seen.value, at);
      case RetireReq(i) => RetireKeeps(db, i, c.seen.value, at);
    }
  }

  /** A passed read extends what the call knows. */
  lemma ReadKeeps(db: Db, c: Call)
    requires CallOk(db.materials, c) && c.stage < Reads(c.req) && ReadOne(db, c).Success?
    ensures CallOk(db.materials, ReadOne(db, c).value)
  {
    match c.req {
      case MixReq(i) =>
        if c.stage > 0 {
          assert i.draws[..c.stage] == i.draws[..c.stage - 1] + [i.draws[c.stage - 1]];
        }
      case RecycleReq(r) =>
        assert Tracked(r.inputs)[..c.stage + 1] == Tracked(r.inputs)[..c.stage] + [Tracked(r.inputs)[c.stage]];
      case _ =>
    }
  }

  lemma ReadNextKeeps(s: Sys, cid: nat)
    requires Consistent(s)
    ensures Consistent(Next(s, ReadNext(cid))) && Next(s, ReadNext(cid)).db == s.db
  {
    if cid in s.calls && s.calls[cid].stage < Reads(s.calls[cid].req) && ReadOne(s.db, s.calls[cid]).Success? {
      ReadKeeps(s.db, s.calls[cid]);
    }
  }

  lemma FinishKeeps(s: Sys, cid: nat, newId: Id, rowId: Id, at: int, ledgerThrows: bool)
    requires Consistent(s)
    ensures var s' := Next(s, Finish(cid, newId, rowId, at, ledgerThrows));
      Consistent(s') && Keeps(s.db.materials, s'.db.materials)
  {
    var s' := Next(s, Finish(cid, newId, rowId, at, ledgerThrows));
    if s'.db != s.db {
      TransactKeeps(s.db, s.calls[cid], newId, rowId, at);
      forall k | k in s'.calls
        ensures CallOk(s'.db.materials, s'.calls[k])
      {
        CallOkKept(s.db.materials, s'.db.materials, s.calls[k]);
      }
    }
  }

  lemma StepKeeps(s: Sys, a: Action)
    requires Consistent(s)
    ensures Consistent(Next(s, a)) && Keeps(s.db.materials, Next(s, a).db.materials)
  {
    match a {
      case Begin(cid, req) =>
      case OtherTables(recipes, loadouts) =>
      case ReadNext(cid) => ReadNextKeeps(s, cid);
      case Finish(cid, newId, rowId, at, ledgerThrows) => FinishKeeps(s, cid, newId, rowId, at, ledgerThrows);
    }
  }

  /** Every run keeps the tables consistent: any number of calls, any interleaving of their reads
      with other calls' commits, any transaction rolled back, any primary-key collision. */
  lemma {:induction false} RunKeeps(s: Sys, actions: seq<Action>)
    requires Consistent(s)
    ensures Consistent(Run(s, actions)) && Keeps(s.db.materials, Run(s, actions).db.materials)
  {
    if actions != [] {
      RunKeeps(s, actions[..|actions| - 1]);
      StepKeeps(Run(s, actions[..|actions| - 1]), actions[|actions| - 1]);
    }
  }

  /** Ledger replay holds throughout every run. */
  lemma LedgerReplay(s: Sys, actions: seq<Action>)
    requires Consistent(s)
    ensures Conserved(Run(s, actions).db)
  {
    RunKeeps(s, actions);
  }

  /** Runs may start from empty tables. */
  lemma EmptyIsConsistent()
    ensures Consistent(EMPTY)
  {
  }
}

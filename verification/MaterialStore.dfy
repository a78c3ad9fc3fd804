/** The tables as an object that the operations update in place, one uninterrupted call at a time. */
module MaterialStore {
  import opened Wrappers
  import opened Materials
  import Colors

  // ---------------------------------------------------------------- what an uninterrupted call does

  function MixRefusal(db: Db, input: MixInput): Option<Reason> {
    if PreMix(input).Some? then PreMix(input)
    else if CheckRecipe(db, input).Some? then CheckRecipe(db, input)
    else CheckDraws(db.materials, input.actor, input.draws)
  }

  function RecycleRefusal(db: Db, req: RecycleRequest): Option<Reason> {
    if PreRecycle(req).Some? then PreRecycle(req)
    else CheckDraws(db.materials, req.owner, Tracked(req.inputs))
  }

  /** A transaction commits all its writes, or on a conflict or a thrown ledger write none of them. */
  function Settle(db: Db, committed: Option<Db>, ledgerThrows: bool, id: Id): (Result<Id, Reason>, Db) {
    if committed.None? || ledgerThrows then (Failure(PersistFailed), db) else (Success(id), committed.value)
  }

  function MixCall(db: Db, input: MixInput, newId: Id, rowId: Id, at: int,
    ledgerThrows: bool): (Result<Id, Reason>, Db) {
    match MixRefusal(db, input)
    case Some(why) => (Failure(why), db)
    case None => Settle(db, CommitMix(db, input, newId, rowId, at), ledgerThrows, newId)
  }

  function RecycleCall(db: Db, req: RecycleRequest, newId: Id, rowId: Id, at: int,
    ledgerThrows: bool): (Result<Id, Reason>, Db) {
    match RecycleRefusal(db, req)
    case Some(why) => (Failure(why), db)
    case None => Settle(db, CommitRecycle(db, req, newId, rowId, at), ledgerThrows, newId)
  }

  function CreateCall(db: Db, input: CreateInput, newId: Id, at: int, ledgerThrows: bool): (Result<Id, Reason>, Db) {
    match PreCreate(input)
    case Some(why) => (Failure(why), db)
    case None => Settle(db, CommitCreate(db, input, newId, at), ledgerThrows, newId)
  }

  datatype Consumption = Consumption(newRemaining: real, reconciliationNeeded: bool)

  function ConsumeCall(db: Db, e: ConsumeEvent, at: int, ledgerThrows: bool): (Result<Consumption, Reason>, Db) {
    if PreConsume(e).Some? then (Failure(PreConsume(e).value), db)
    else if e.material !in db.materials then (Failure(MaterialNotFound), db)
    else if ledgerThrows then (Failure(PersistFailed), db)
    else
      var left := db.materials[e.material].remaining - e.weight;
      (Success(Consumption(left, left < 0.0)), CommitConsume(db, e, db.materials[e.material], at))
  }

  function RetireCall(db: Db, input: RetireInput, at: int, ledgerThrows: bool): (Result<(), Reason>, Db) {
    if PreRetire(input).Some? then (Failure(PreRetire(input).value), db)
    else if CheckRetire(db, input).Some? then (Failure(CheckRetire(db, input).value), db)
    else if ledgerThrows then (Failure(PersistFailed), db)
    else (Success(()), CommitRetire(db, input, db.materials[input.material], at))
  }

  // ---------------------------------------------------------------- the object

  class Inventory {
    var materials: map<Id, Material>
    var ledger: seq<Event>
    var mixRows: seq<MixRow>
    var recycleRows: seq<RecycleRow>
    var recipes: map<Id, Recipe>
    var loadouts: seq<Loadout>

    constructor ()
      ensures State() == Db(map[], [], [], [], map[], [])
    {
      materials, ledger, mixRows, recycleRows, recipes, loadouts := map[], [], [], [], map[], [];
    }

    function State(): Db
      reads this
    {
      Db(materials, ledger, mixRows, recycleRows, recipes, loadouts)
    }

    method CreateMaterial(input: CreateInput, newId: Id, at: int, ledgerThrows: bool) returns (r: Result<Id, Reason>)
      modifies this
      ensures (r, State()) == CreateCall(old(State()), input, newId, at, ledgerThrows)
    {
      if input.owner == "" {
        return Failure(OwnerRequired);
      }
      if !UnitFits(input.unit, input.kind) {
        return Failure(UnitKindMismatch);
      }
      var colors := Colors.ValidateColors(input.colors, input.pattern);
      if colors.Failure? {
        return Failure(ColorsRejected(colors.error));
      }
      if input.initial <= 0.0 {
        return Failure(InitialAmountInvalid);
      }
      var saved := materials;
      if newId in materials {
        return Failure(PersistFailed);
      }
      materials := materials[newId := Material(input.owner, input.kind, input.initial, input.initial, input.unit, true,
                                               input.brand, colors.value)];
      if ledgerThrows {
        materials := saved;
        return Failure(PersistFailed);
      }
      ledger := ledger + [Added(newId, at, input.kind, input.initial)];
      return Success(newId);
    }

    /** The read-only half of a mix or a recycle: each source in turn, stopping at the first refusal. */
    method CheckSources(owner: Id, draws: seq<Draw>) returns (why: Option<Reason>)
      ensures why == CheckDraws(materials, owner, draws)
      ensures SourcesJudged(materials, owner, draws, why)
    {
      DrawsJudged(materials, owner, draws);
      for i := 0 to |draws|
        invariant CheckDraws(materials, owner, draws[..i]) == None
      {
        var d := draws[i];
        why := CheckSource(materials, owner, d.source, d.amount);
        assert draws[..i + 1][..i] == draws[..i];
        if why.Some? {
          CheckDrawsPrefix(materials, owner, draws, i + 1);
          return;
        }
      }
      assert draws[..|draws|] == draws;
      return None;
    }

    method ApplyMixBatch(input: MixInput, newId: Id, rowId: Id, at: int, ledgerThrows: bool)
      returns (r: Result<Id, Reason>)
      modifies this
      ensures (r, State()) == MixCall(old(State()), input, newId, rowId, at, ledgerThrows)
    {
      var pre := PreMix(input);
      if pre.Some? {
        return Failure(pre.value);
      }
      if input.recipe !in recipes || recipes[input.recipe].owner != input.actor {
        return Failure(RecipeNotFound);
      }
      if |input.draws| != recipes[input.recipe].components {
        return Failure(DrawCountMismatch);
      }
      var refused := CheckSources(recipes[input.recipe].owner, input.draws);
      if refused.Some? {
        return Failure(refused.value);
      }
      var saved := materials;
      DecrementEach(input.draws);
      if newId in materials || exists k :: 0 <= k < |mixRows| && mixRows[k].id == rowId {
        materials := saved;
        return Failure(PersistFailed);
      }
      var savedRows := mixRows;
      materials := materials[newId := MixMaterial(input)];
      mixRows := mixRows + [MixRow(rowId, input.recipe, newId, input.total, input.draws)];
      if ledgerThrows {
        materials, mixRows := saved, savedRows;
        return Failure(PersistFailed);
      }
      ledger := ledger + [MixEvent(input, newId, at)];
      return Success(newId);
    }

    /** The decrements of one transaction: one relative update per draw, in order. An update of a
        missing row touches nothing. */
    method DecrementEach(draws: seq<Draw>)
      modifies this`materials
      ensures materials == AfterDraws(old(materials), draws)
    {
      for i := 0 to |draws|
        invariant materials == AfterDraws(old(materials), draws[..i])
      {
        var d := draws[i];
        AfterDrawsSnoc(old(materials), draws[..i], d);
        assert draws[..i + 1] == draws[..i] + [d];
        if d.source in materials {
          var row := materials[d.source];
          materials := materials[d.source := row.(remaining := row.remaining - d.amount)];
        }
      }
      assert draws[..|draws|] == draws;
    }

    /** The recycle variant of the source checks: untracked scrap is skipped. */
    method CheckInputs(owner: Id, inputs: seq<RecycleInput>) returns (why: Option<Reason>)
      ensures why == CheckDraws(materials, owner, Tracked(inputs))
      ensures SourcesJudged(materials, owner, Tracked(inputs), why)
    {
      DrawsJudged(materials, owner, Tracked(inputs));
      for i := 0 to |inputs|
        invariant CheckDraws(materials, owner, Tracked(inputs[..i])) == None
      {
        var input := inputs[i];
        assert inputs[..i + 1][..i] == inputs[..i];
        if input.source.Some? {
          why := CheckSource(materials, owner, input.source.value, input.weight);
          ghost var checked := Tracked(inputs[..i]);
          assert (checked + [Draw(input.source.value, input.weight, input.provenance)])[..|checked|] == checked;
          if why.Some? {
            TrackedPrefix(inputs, i + 1);
            ghost var k :| 0 <= k <= |Tracked(inputs)| && Tracked(inputs)[..k] == Tracked(inputs[..i + 1]);
            CheckDrawsPrefix(materials, owner, Tracked(inputs), k);
            return;
          }
        }
      }
      assert inputs[..|inputs|] == inputs;
      return None;
    }

    /** The decrements of a recycle: tracked sources only. */
    method DecrementTracked(inputs: seq<RecycleInput>)
      modifies this`materials
      ensures materials == AfterDraws(old(materials), Tracked(inputs))
    {
      for i := 0 to |inputs|
        invariant materials == AfterDraws(old(materials), Tracked(inputs[..i]))
      {
        var input := inputs[i];
        assert inputs[..i + 1][..i] == inputs[..i];
        if input.source.Some? {
          var id := input.source.value;
          AfterDrawsSnoc(old(materials), Tracked(inputs[..i]), Draw(id, input.weight, input.provenance));
          if id in materials {
            materials := materials[id := materials[id].(remaining := materials[id].remaining - input.weight)];
          }
        }
      }
      assert inputs[..|inputs|] == inputs;
    }

    method ApplyRecycleEvent(req: RecycleRequest, newId: Id, rowId: Id, at: int, ledgerThrows: bool)
      returns (r: Result<Id, Reason>)
      modifies this
      ensures (r, State()) == RecycleCall(old(State()), req, newId, rowId, at, ledgerThrows)
    {
      var pre := PreRecycle(req);
      if pre.Some? {
        return Failure(pre.value);
      }
      var refused := CheckInputs(req.owner, req.inputs);
      if refused.Some? {
        return Failure(refused.value);
      }
      var saved := materials;
      DecrementTracked(req.inputs);
      if newId in materials || exists k :: 0 <= k < |recycleRows| && recycleRows[k].id == rowId {
        materials := saved;
        return Failure(PersistFailed);
      }
      var savedRows := recycleRows;
      materials := materials[newId := RecycleMaterial(req)];
      recycleRows := recycleRows + [RecycleRow(rowId, req.owner, req.inputs, newId, at)];
      if ledgerThrows {
        materials, recycleRows := saved, savedRows;
        return Failure(PersistFailed);
      }
      ledger := ledger + [RecycleEvent(req, newId, at)];
      return Success(newId);
    }

    method HandleMaterialConsumed(e: ConsumeEvent, at: int, ledgerThrows: bool) returns (r: Result<Consumption, Reason>)
      modifies this
      ensures (r, State()) == ConsumeCall(old(State()), e, at, ledgerThrows)
    {
      if e.material == "" || e.weight <= 0.0 {
        return Failure(InvalidEvent);
      }
      if e.material !in materials {
        return Failure(MaterialNotFound);
      }
      var current := materials[e.material];
      var newRemaining := current.remaining - e.weight;
      var reconciliationNeeded := newRemaining < 0.0;
      var saved := materials;
      DecrementEach([Draw(e.material, e.weight, e.provenance)]);
      if ledgerThrows {
        materials := saved;
        return Failure(PersistFailed);
      }
      ledger := ledger + [Consumed(e.material, at, e.weight, current.unit, e.attributedTo, e.attributedTo != Print,
                                   e.provenance, newRemaining, reconciliationNeeded)];
      return Success(Consumption(newRemaining, reconciliationNeeded));
    }

    method RetireMaterial(input: RetireInput, at: int, ledgerThrows: bool) returns (r: Result<(), Reason>)
      modifies this
      ensures (r, State()) == RetireCall(old(State()), input, at, ledgerThrows)
    {
      if input.material == "" {
        return Failure(MaterialIdRequired);
      }
      if input.reason == "" {
        return Failure(ReasonRequired);
      }
      if input.material !in materials {
        return Failure(MaterialNotFound);
      }
      var current := materials[input.material];
      if !current.active {
        return Failure(AlreadyRetired);
      }
      if (exists k :: 0 <= k < |loadouts| && loadouts[k].material == input.material) && !input.ackLoaded {
        return Failure(LoadedNoAck);
      }
      if input.dispatchActive {
        return Failure(ActiveDispatch);
      }
      var saved := materials;
      materials := materials[input.material := current.(active := false)];
      if ledgerThrows {
        materials := saved;
        return Failure(PersistFailed);
      }
      ledger := ledger + [Retired(input.material, at, current.remaining)];
      return Success(());
    }
  }

  lemma {:induction false} TrackedPrefix(inputs: seq<RecycleInput>, i: nat)
    requires i <= |inputs|
    ensures exists k :: 0 <= k <= |Tracked(inputs)| && Tracked(inputs)[..k] == Tracked(inputs[..i])
  {
    if i == |inputs| {
      assert inputs[..i] == inputs;
      assert Tracked(inputs)[..|Tracked(inputs)|] == Tracked(inputs);
    } else {
      var init := inputs[..|inputs| - 1];
      assert init[..i] == inputs[..i];
      TrackedPrefix(init, i);
      var k :| 0 <= k <= |Tracked(init)| && Tracked(init)[..k] == Tracked(init[..i]);
      assert Tracked(inputs)[..k] == Tracked(init)[..k];
    }
  }
}

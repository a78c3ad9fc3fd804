/** What each operation on materials accepts, refuses and leaves behind, told from its request and the tables alone. */
module MaterialRules {
  import opened Wrappers
  import opened Materials
  import opened MaterialStore
  import opened ColorRules
  import Colors

  // ---------------------------------------------------------------- colours

  /** All colour fields absent, or colours and pattern present and fitting. */
  predicate OverrideFits(o: ColorOverride) {
    (o.colors.None? && o.pattern.None? && o.name.None?) ||
    (o.colors.Some? && o.pattern.Some? && ColorsFit(o.colors.value, o.pattern.value))
  }

  /** The colours a new batch or spool gets. */
  predicate OverrideGives(o: ColorOverride, colors: seq<string>) {
    if o.colors.None? then colors == [] else Uppercase(colors, o.colors.value)
  }

  lemma OverrideVerdict(o: ColorOverride)
    ensures ResolveOverride(o).Success? <==> OverrideFits(o)
    ensures OverrideFits(o) ==> OverrideGives(o, ResolveOverride(o).value)
  {
    if o.colors.Some? && o.pattern.Some? {
      ColorVerdict(o.colors.value, o.pattern.value);
    }
  }

  // ---------------------------------------------------------------- creating

  function CreateRules(input: CreateInput): seq<(bool, Reason)>
    requires !ColorsFit(input.colors, input.pattern) ==> Colors.CheckColors(input.colors, input.pattern).Failure?
  {
    [ (input.owner == "", OwnerRequired),
      (((input.kind == FilamentSpool || input.kind == RecycledSpool) && input.unit != G) ||
       (input.kind == MixBatch && input.unit != Ml), UnitKindMismatch),
      (!ColorsFit(input.colors, input.pattern),
       if ColorsFit(input.colors, input.pattern) then PersistFailed
       else ColorsRejected(Colors.CheckColors(input.colors, input.pattern).error)),
      (input.initial <= 0.0, InitialAmountInvalid) ]
  }

  /** A material is created under exactly these rules, checked in this order. */
  lemma CreateJudged(input: CreateInput)
    ensures !ColorsFit(input.colors, input.pattern) ==> Colors.CheckColors(input.colors, input.pattern).Failure?
    ensures FirstBroken(PreCreate(input), CreateRules(input))
  {
    ColorVerdict(input.colors, input.pattern);
    var rules := CreateRules(input);
    assert rules[0].0 == (input.owner == "");
    assert rules[1].0 == !UnitFits(input.unit, input.kind);
    assert rules[3].0 == (input.initial <= 0.0);
    assert rules[2].0 == !ColorsFit(input.colors, input.pattern);
  }

  /** A created material is full, active and its owner's; nothing else changes but the ledger's new last event. */
  lemma CreatedRow(db: Db, input: CreateInput, newId: Id, at: int, ledgerThrows: bool)
    ensures var (r, db') := CreateCall(db, input, newId, at, ledgerThrows);
      && (r.Success? <==> PreCreate(input) == None && newId !in db.materials && !ledgerThrows)
      && (r.Success? ==>
           && r.value == newId && db'.materials.Keys == db.materials.Keys + {newId}
           && (forall id :: id in db.materials ==> db'.materials[id] == db.materials[id])
           && var m := db'.materials[newId];
              && m.owner == input.owner && m.kind == input.kind && m.unit == input.unit && m.active
              && m.initial == input.initial && m.remaining == input.initial && m.brand == input.brand
              && Uppercase(m.colors, input.colors)
              && db' == db.(materials := db'.materials,
                            ledger := db.ledger + [Added(newId, at, input.kind, input.initial)]))
      && (r.Failure? ==>
           db' == db && r.error == if PreCreate(input).Some? then PreCreate(input).value else PersistFailed)
  {
  }

  // ---------------------------------------------------------------- mixing

  predicate BadTotal(input: MixInput) {
    SumDraws(input.draws) - input.total > 0.1 || input.total - SumDraws(input.draws) > 0.1
  }

  predicate BadRecipe(db: Db, input: MixInput) {
    input.recipe !in db.recipes || db.recipes[input.recipe].owner != input.actor
  }

  /** The rules a mix is checked against before its sources, up to the colours. */
  function MixRules(input: MixInput): seq<(bool, Reason)> {
    [ (input.total <= 0.0, TotalVolumeInvalid),
      (|input.draws| < 2 || |input.draws| > 10, DrawCountMismatch),
      (exists d :: d in input.draws && (d.source == "" || d.amount <= 0.0), DrawMalformed),
      (BadTotal(input), DrawSumMismatch),
      (input.override.colors.None? != input.override.pattern.None? ||
       (input.override.colors.None? && input.override.name.Some?), ColorFieldsIncomplete) ]
  }

  lemma MixRulesHold(input: MixInput)
    ensures PreMix(input) == None <==>
      (forall i :: 0 <= i < 5 ==> !MixRules(input)[i].0) && OverrideFits(input.override)
    ensures forall i :: 0 <= i < 5 && MixRules(input)[i].0 && (forall j :: 0 <= j < i ==> !MixRules(input)[j].0) ==>
      PreMix(input) == Some(MixRules(input)[i].1)
  {
    OverrideVerdict(input.override);
    var rules := MixRules(input);
    assert rules[2].0 == exists d :: d in input.draws && !DrawWellFormed(d);
    assert rules[3].0 == (Abs(SumDraws(input.draws) - input.total) > 0.1);
    assert rules[0].0 == (input.total <= 0.0) && rules[1].0 == !(2 <= |input.draws| <= 10);
    assert rules[4].0 ==>
      !OverrideFits(input.override) && ResolveOverride(input.override) == Failure(ColorFieldsIncomplete);
  }

  /** Everything an accepted mix satisfies, and nothing more. */
  predicate MixAcceptable(db: Db, input: MixInput) {
    && input.total > 0.0 && 2 <= |input.draws| <= 10
    && (forall d :: d in input.draws ==> d.source != "" && d.amount > 0.0)
    && !BadTotal(input) && OverrideFits(input.override)
    && !BadRecipe(db, input) && db.recipes[input.recipe].components == |input.draws|
    && (forall d :: d in input.draws ==> Available(db.materials, input.actor, d))
  }

  lemma MixAcceptedIff(db: Db, input: MixInput)
    ensures MixRefusal(db, input) == None <==> MixAcceptable(db, input)
  {
    MixRulesHold(input);
    DrawsJudged(db.materials, input.actor, input.draws);
    var rules := MixRules(input);
    assert rules[0].0 == (input.total <= 0.0) && rules[1].0 == !(2 <= |input.draws| <= 10);
    assert rules[2].0 == exists d :: d in input.draws && (d.source == "" || d.amount <= 0.0);
    assert rules[3].0 == BadTotal(input);
    assert OverrideFits(input.override) ==> !rules[4].0;
  }

  /** A mix that passes the checks of its request and its recipe is refused exactly for the first source that is not
      there, not the actor's, retired or short, in this order. */
  lemma MixSourcesJudged(db: Db, input: MixInput)
    requires PreMix(input) == None && CheckRecipe(db, input) == None
    ensures SourcesJudged(db.materials, input.actor, input.draws, MixRefusal(db, input))
  {
    DrawsJudged(db.materials, input.actor, input.draws);
  }

  lemma RecipeJudged(db: Db, input: MixInput)
    requires PreMix(input) == None
    ensures BadRecipe(db, input) ==> MixRefusal(db, input) == Some(RecipeNotFound)
    ensures !BadRecipe(db, input) && db.recipes[input.recipe].components != |input.draws| ==>
      MixRefusal(db, input) == Some(DrawCountMismatch)
  {
  }

  /** The least precise of some provenances. */
  ghost predicate LeastPrecise(p: Provenance, ps: set<Provenance>) {
    if Estimated in ps then p == Estimated else if Entered in ps then p == Entered else p == Measured
  }

  function ProvenancesOf(draws: seq<Draw>): set<Provenance> {
    set d | d in draws :: d.provenance
  }

  lemma MixProvenance(draws: seq<Draw>)
    requires draws != []
    ensures LeastPrecise(Escalate(DrawProvenances(draws)), ProvenancesOf(draws))
  {
    var ps := DrawProvenances(draws);
    forall p ensures p in ps <==> p in ProvenancesOf(draws) {
      if p in ps {
        var i :| 0 <= i < |ps| && ps[i] == p;
        assert draws[i] in draws;
      }
      if p in ProvenancesOf(draws) {
        var d :| d in draws && d.provenance == p;
        var i :| 0 <= i < |draws| && draws[i] == d;
        assert ps[i] == p;
      }
    }
    assert Rank(Estimated) == 2 && Rank(Entered) == 1 && Rank(Measured) == 0;
  }

  /** There is one new row; every other one has lost what was drawn from it and is otherwise the same. */
  ghost predicate RowsLose(ms: map<Id, Material>, ms': map<Id, Material>, draws: seq<Draw>, newId: Id) {
    && newId !in ms && ms'.Keys == ms.Keys + {newId}
    && forall id :: id in ms ==> ms'[id] == ms[id].(remaining := ms[id].remaining - DrawnBy(draws, id))
  }

  lemma DecrementsLose(ms: map<Id, Material>, draws: seq<Draw>, newId: Id, m: Material)
    requires newId !in ms
    ensures RowsLose(ms, AfterDraws(ms, draws)[newId := m], draws, newId)
  {
  }

  /** A stored mix: the batch is full, active, in millilitres and the actor's; every other row has lost what was drawn
      from it and is otherwise the same; one link row and one ledger event tell the same story. */
  ghost predicate MixStored(db: Db, input: MixInput, newId: Id, rowId: Id, at: int, db': Db) {
    && RowsLose(db.materials, db'.materials, input.draws, newId)
    && (var m := db'.materials[newId];
        && m.owner == input.actor && m.kind == MixBatch && m.unit == Ml && m.active && m.brand == None
        && m.initial == input.total && m.remaining == input.total && OverrideGives(input.override, m.colors))
    && db'.mixRows == db.mixRows + [MixRow(rowId, input.recipe, newId, input.total, input.draws)]
    && db'.recycleRows == db.recycleRows && db'.recipes == db.recipes && db'.loadouts == db.loadouts
    && |db'.ledger| == |db.ledger| + 1 && db'.ledger[..|db.ledger|] == db.ledger
    && MixTold(db'.ledger[|db.ledger|], input, newId, at)
  }

  ghost predicate MixTold(e: Event, input: MixInput, newId: Id, at: int) {
    && e.MixCreated? && e.id == newId && e.at == at && e.actor == input.actor && e.total == input.total
    && e.draws == input.draws && LeastPrecise(e.provenance, ProvenancesOf(input.draws))
  }

  lemma MixCommitStores(db: Db, input: MixInput, newId: Id, rowId: Id, at: int)
    requires OverrideFits(input.override) && input.draws != [] && CommitMix(db, input, newId, rowId, at).Some?
    ensures MixStored(db, input, newId, rowId, at, CommitMix(db, input, newId, rowId, at).value)
  {
    OverrideVerdict(input.override);
    var db' := CommitMix(db, input, newId, rowId, at).value;
    assert db'.ledger == db.ledger + [MixEvent(input, newId, at)];
    assert MixTold(MixEvent(input, newId, at), input, newId, at) by {
      MixProvenance(input.draws);
    }
    DecrementsLose(db.materials, input.draws, newId, MixMaterial(input));
  }

  predicate MixIdTaken(db: Db, newId: Id, rowId: Id) {
    newId in db.materials || exists r :: r in db.mixRows && r.id == rowId
  }

  /** A mix succeeds if and only if it is acceptable, its ids are new and the ledger takes its event. Then it is stored,
      and every source was active; else nothing changes. */
  lemma MixOutcome(db: Db, input: MixInput, newId: Id, rowId: Id, at: int, ledgerThrows: bool)
    ensures var (r, db') := MixCall(db, input, newId, rowId, at, ledgerThrows);
      && (r.Success? <==> MixAcceptable(db, input) && !MixIdTaken(db, newId, rowId) && !ledgerThrows)
      && (r.Success? ==> r.value == newId && MixStored(db, input, newId, rowId, at, db'))
      && (r.Success? ==> forall d :: d in input.draws ==> d.source in db.materials && db.materials[d.source].active)
      && (r.Failure? ==> db' == db)
      && (MixAcceptable(db, input) && r.Failure? ==> r.error == PersistFailed)
  {
    MixAcceptedIff(db, input);
    if MixCall(db, input, newId, rowId, at, ledgerThrows).0.Success? {
      MixCommitStores(db, input, newId, rowId, at);
    }
  }

  // ---------------------------------------------------------------- recycling

  predicate Gains(req: RecycleRequest) {
    req.output > SumWeights(req.inputs) * 1.05
  }

  function RecycleRules(req: RecycleRequest): seq<(bool, Reason)> {
    [ (req.owner == "" || req.actor == "", OwnerRequired),
      (req.inputs == [], NoInputs),
      (|req.inputs| > 20, TooManyInputs),
      (exists i :: i in req.inputs && (i.source == Some("") || i.weight <= 0.0), InputMalformed),
      (req.output <= 0.0, OutputWeightInvalid),
      (Gains(req) && !req.ack, OutputAnomalyNoAck),
      (req.override.colors.None? != req.override.pattern.None? ||
       (req.override.colors.None? && req.override.name.Some?), ColorFieldsIncomplete) ]
  }

  lemma {:induction false} WeightsArePositive(inputs: seq<RecycleInput>)
    requires inputs != [] && forall i :: i in inputs ==> i.weight > 0.0
    ensures SumWeights(inputs) > 0.0
  {
    if |inputs| > 1 {
      WeightsArePositive(inputs[..|inputs| - 1]);
    }
  }

  lemma RecycleRulesHold(req: RecycleRequest)
    ensures PreRecycle(req) == None <==>
      (forall i :: 0 <= i < 7 ==> !RecycleRules(req)[i].0) && OverrideFits(req.override)
    ensures forall i :: 0 <= i < 7 && RecycleRules(req)[i].0 && (forall j :: 0 <= j < i ==> !RecycleRules(req)[j].0) ==>
      PreRecycle(req) == Some(RecycleRules(req)[i].1)
  {
    OverrideVerdict(req.override);
    var rules := RecycleRules(req);
    assert rules[3].0 == exists i :: i in req.inputs && !InputWellFormed(i);
    assert rules[0].0 == (req.owner == "" || req.actor == "") && rules[1].0 == (|req.inputs| < 1);
    assert rules[2].0 == (|req.inputs| > 20) && rules[4].0 == (req.output <= 0.0);
    assert rules[5].0 == (Anomalous(req) && !req.ack);
    assert rules[6].0 ==>
      !OverrideFits(req.override) && ResolveOverride(req.override) == Failure(ColorFieldsIncomplete);
    if !rules[1].0 && !rules[3].0 {
      forall i | i in req.inputs ensures i.weight > 0.0 {
        assert InputWellFormed(i);
      }
      WeightsArePositive(req.inputs);
    }
  }

  /** The inputs a recycle takes from the inventory. */
  predicate TrackedAvailable(ms: map<Id, Material>, owner: Id, inputs: seq<RecycleInput>) {
    forall i :: i in inputs && i.source.Some? ==>
      && i.source.value in ms && ms[i.source.value].owner == owner && ms[i.source.value].active
      && ms[i.source.value].remaining >= i.weight
  }

  predicate RecycleAcceptable(db: Db, req: RecycleRequest) {
    && req.owner != "" && req.actor != "" && 1 <= |req.inputs| <= 20
    && (forall i :: i in req.inputs ==> i.source != Some("") && i.weight > 0.0)
    && req.output > 0.0 && (Gains(req) ==> req.ack) && OverrideFits(req.override)
    && TrackedAvailable(db.materials, req.owner, req.inputs)
  }

  /** The tracked draws are the tracked inputs. */
  lemma {:induction false} TrackedIsFilter(inputs: seq<RecycleInput>, d: Draw)
    ensures d in Tracked(inputs) <==> RecycleInput(Some(d.source), d.amount, d.provenance) in inputs
  {
    if inputs != [] {
      var init, last := inputs[..|inputs| - 1], inputs[|inputs| - 1];
      assert inputs == init + [last];
      TrackedIsFilter(init, d);
    }
  }

  lemma TrackedAvailableIff(ms: map<Id, Material>, owner: Id, inputs: seq<RecycleInput>)
    ensures (forall d :: d in Tracked(inputs) ==> Available(ms, owner, d)) <==> TrackedAvailable(ms, owner, inputs)
  {
    if forall d :: d in Tracked(inputs) ==> Available(ms, owner, d) {
      forall i | i in inputs && i.source.Some?
        ensures Available(ms, owner, Draw(i.source.value, i.weight, i.provenance))
      {
        TrackedIsFilter(inputs, Draw(i.source.value, i.weight, i.provenance));
      }
    }
    if TrackedAvailable(ms, owner, inputs) {
      forall d | d in Tracked(inputs) ensures Available(ms, owner, d) {
        TrackedIsFilter(inputs, d);
      }
    }
  }

  lemma RecycleAcceptedIff(db: Db, req: RecycleRequest)
    ensures RecycleRefusal(db, req) == None <==> RecycleAcceptable(db, req)
  {
    RecycleRulesHold(req);
    DrawsJudged(db.materials, req.owner, Tracked(req.inputs));
    TrackedAvailableIff(db.materials, req.owner, req.inputs);
    var rules := RecycleRules(req);
    assert rules[0].0 == (req.owner == "" || req.actor == "") && rules[1].0 == (req.inputs == []);
    assert rules[2].0 == (|req.inputs| > 20) && rules[4].0 == (req.output <= 0.0);
    assert rules[5].0 == (Gains(req) && !req.ack);
    assert rules[3].0 == exists i :: i in req.inputs && (i.source == Some("") || i.weight <= 0.0);
    assert OverrideFits(req.override) ==> !rules[6].0;
  }

  /** A recycle that passes the checks of its request is refused exactly for the first tracked source that is not there,
      not the owner's, retired or short; loose scrap is never checked. */
  lemma RecycleSourcesJudged(db: Db, req: RecycleRequest)
    requires PreRecycle(req) == None
    ensures SourcesJudged(db.materials, req.owner, Tracked(req.inputs), RecycleRefusal(db, req))
    ensures RecycleRefusal(db, req) == None <==> TrackedAvailable(db.materials, req.owner, req.inputs)
  {
    DrawsJudged(db.materials, req.owner, Tracked(req.inputs));
    TrackedAvailableIff(db.materials, req.owner, req.inputs);
  }

  function InputProvenanceSet(inputs: seq<RecycleInput>): set<Provenance> {
    set i | i in inputs :: i.provenance
  }

  /** The least precise input, one notch lower when the weight gained. */
  ghost predicate RecycledPrecision(p: Provenance, req: RecycleRequest) {
    if !Gains(req) then LeastPrecise(p, InputProvenanceSet(req.inputs))
    else p == if InputProvenanceSet(req.inputs) == {Measured} then Entered else Estimated
  }

  lemma RecycleProvenanceIs(req: RecycleRequest)
    requires req.inputs != []
    ensures RecycledPrecision(RecycleProvenance(req), req)
  {
    var ps, all := InputProvenances(req.inputs), InputProvenanceSet(req.inputs);
    forall p ensures p in ps <==> p in all {
      if p in ps {
        var i :| 0 <= i < |ps| && ps[i] == p;
        assert req.inputs[i] in req.inputs;
      }
      if p in all {
        var x :| x in req.inputs && x.provenance == p;
        var i :| 0 <= i < |req.inputs| && req.inputs[i] == x;
        assert ps[i] == p;
      }
    }
    assert Rank(Estimated) == 2 && Rank(Entered) == 1 && Rank(Measured) == 0;
    assert req.inputs[0].provenance in all;
    if Estimated !in all && Entered !in all {
      assert forall p :: p in all <==> p == Measured;
    }
  }

  /** A stored recycle: the spool is full, active, in grams and the owner's; tracked sources have lost their inputs'
      weight and are otherwise the same; one row and one ledger event tell the same story. */
  ghost predicate RecycleStored(db: Db, req: RecycleRequest, newId: Id, rowId: Id, at: int, db': Db) {
    && RowsLose(db.materials, db'.materials, Tracked(req.inputs), newId)
    && (var m := db'.materials[newId];
        && m.owner == req.owner && m.kind == RecycledSpool && m.unit == G && m.active && m.brand == req.brand
        && m.initial == req.output && m.remaining == req.output && OverrideGives(req.override, m.colors))
    && db'.recycleRows == db.recycleRows + [RecycleRow(rowId, req.owner, req.inputs, newId, at)]
    && db'.mixRows == db.mixRows && db'.recipes == db.recipes && db'.loadouts == db.loadouts
    && |db'.ledger| == |db.ledger| + 1 && db'.ledger[..|db.ledger|] == db.ledger
    && RecycleTold(db'.ledger[|db.ledger|], req, newId, at)
  }

  ghost predicate RecycleTold(e: Event, req: RecycleRequest, newId: Id, at: int) {
    && e.Recycled? && e.id == newId && e.at == at && e.actor == req.actor && e.inputs == req.inputs
    && e.output == req.output && e.anomaly == Gains(req) && e.acked == Gains(req)
    && RecycledPrecision(e.provenance, req)
  }

  lemma RecycleCommitStores(db: Db, req: RecycleRequest, newId: Id, rowId: Id, at: int)
    requires OverrideFits(req.override) && req.inputs != [] && (Gains(req) ==> req.ack)
    requires CommitRecycle(db, req, newId, rowId, at).Some?
    ensures RecycleStored(db, req, newId, rowId, at, CommitRecycle(db, req, newId, rowId, at).value)
  {
    OverrideVerdict(req.override);
    var db' := CommitRecycle(db, req, newId, rowId, at).value;
    assert db'.ledger == db.ledger + [RecycleEvent(req, newId, at)];
    assert RecycleTold(RecycleEvent(req, newId, at), req, newId, at) by {
      RecycleProvenanceIs(req);
    }
    DecrementsLose(db.materials, Tracked(req.inputs), newId, RecycleMaterial(req));
  }

  predicate RecycleIdTaken(db: Db, newId: Id, rowId: Id) {
    newId in db.materials || exists r :: r in db.recycleRows && r.id == rowId
  }

  lemma RecycleOutcome(db: Db, req: RecycleRequest, newId: Id, rowId: Id, at: int, ledgerThrows: bool)
    ensures var (r, db') := RecycleCall(db, req, newId, rowId, at, ledgerThrows);
      && (r.Success? <==> RecycleAcceptable(db, req) && !RecycleIdTaken(db, newId, rowId) && !ledgerThrows)
      && (r.Success? ==> r.value == newId && RecycleStored(db, req, newId, rowId, at, db'))
      && (r.Failure? ==> db' == db)
      && (RecycleAcceptable(db, req) && r.Failure? ==> r.error == PersistFailed)
  {
    RecycleAcceptedIff(db, req);
    if RecycleCall(db, req, newId, rowId, at, ledgerThrows).0.Success? {
      RecycleCommitStores(db, req, newId, rowId, at);
    }
  }

  // ---------------------------------------------------------------- consuming

  /** A consumption succeeds for every known material and positive weight, whatever is left of it. The row loses the
      weight and nothing else changes; the event says whether it was waste and whether the row is now below zero. */
  lemma ConsumeOutcome(db: Db, e: ConsumeEvent, at: int, ledgerThrows: bool)
    ensures var (r, db') := ConsumeCall(db, e, at, ledgerThrows);
      && (r.Success? <==> e.material != "" && e.weight > 0.0 && e.material in db.materials && !ledgerThrows)
      && (r.Failure? ==> db' == db)
      && (e.material == "" || e.weight <= 0.0 ==> r == Failure(InvalidEvent))
      && (e.material != "" && e.weight > 0.0 && e.material !in db.materials ==> r == Failure(MaterialNotFound))
      && (r.Success? ==>
           var before := db.materials[e.material];
           var left := before.remaining - e.weight;
           && db'.materials == db.materials[e.material := before.(remaining := left)]
           && r.value.newRemaining == left && (r.value.reconciliationNeeded <==> left < 0.0)
           && db' == db.(materials := db'.materials, ledger := db.ledger + [
                Consumed(e.material, at, e.weight, before.unit, e.attributedTo, !e.attributedTo.Print?, e.provenance,
                         left, left < 0.0)]))
  {
    if ConsumeCall(db, e, at, ledgerThrows).0.Success? {
      var d := Draw(e.material, e.weight, e.provenance);
      assert [] + [d] == [d];
      forall id | id in db.materials
        ensures DrawnBy([d], id) == if id == e.material then e.weight else 0.0
      {
        DrawnBySnoc([], d, id);
      }
      assert ConsumeCall(db, e, at, ledgerThrows).1.materials == AfterDraws(db.materials, [d]);
    }
  }

  // ---------------------------------------------------------------- retiring

  predicate IsLoaded(db: Db, id: Id) {
    exists l :: l in db.loadouts && l.material == id
  }

  function RetireRules(db: Db, input: RetireInput): seq<(bool, Reason)> {
    [ (input.material == "", MaterialIdRequired),
      (input.reason == "", ReasonRequired),
      (input.material !in db.materials, MaterialNotFound),
      (input.material in db.materials && !db.materials[input.material].active, AlreadyRetired),
      (IsLoaded(db, input.material) && !input.ackLoaded, LoadedNoAck),
      (input.dispatchActive, ActiveDispatch) ]
  }

  function RetireRefusal(db: Db, input: RetireInput): Option<Reason> {
    var r := RetireCall(db, input, 0, false).0;
    if r.Failure? then Some(r.error) else None
  }

  /** A material is retired under exactly these rules, checked in this order. */
  lemma RetireJudged(db: Db, input: RetireInput)
    ensures FirstBroken(RetireRefusal(db, input), RetireRules(db, input))
  {
    var rules := RetireRules(db, input);
    assert rules[0].0 == (input.material == "") && rules[1].0 == (input.reason == "");
    assert rules[2].0 == (input.material !in db.materials);
    assert rules[3].0 == (input.material in db.materials && !db.materials[input.material].active);
    assert rules[4].0 == (IsLoaded(db, input.material) && !input.ackLoaded) && rules[5].0 == input.dispatchActive;
  }

  /** A retired row is inactive and keeps everything else, its amount included; no other row changes. */
  lemma RetireOutcome(db: Db, input: RetireInput, at: int, ledgerThrows: bool)
    ensures var (r, db') := RetireCall(db, input, at, ledgerThrows);
      && (r.Success? <==> RetireRefusal(db, input) == None && !ledgerThrows)
      && (r.Failure? ==> db' == db && r.error == if RetireRefusal(db, input).Some? then RetireRefusal(db, input).value
                                              else PersistFailed)
      && (r.Success? ==>
           && input.material in db.materials && db'.materials.Keys == db.materials.Keys
           && !db'.materials[input.material].active
           && db'.materials[input.material].(active := true) == db.materials[input.material]
           && (forall id :: id in db.materials && id != input.material ==> db'.materials[id] == db.materials[id])
           && db' == db.(materials := db'.materials, ledger := db.ledger + [
                Retired(input.material, at, db.materials[input.material].remaining)]))
  {
  }
}

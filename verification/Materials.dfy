/** The materials table, the event ledger, and the five operations on them:
    create, mix, recycle, consume, retire. */
module Materials {
  import opened Wrappers
  import Colors

  type Id = string

  datatype Unit = G | Ml

  datatype Kind = FilamentSpool | ResinBottle | MixBatch | RecycledSpool | OtherKind

  datatype Provenance = Measured | Entered | Estimated

  datatype Attribution = Print | Purge | Priming | FailedPrint | Waste

  datatype Material = Material(
    owner: Id, kind: Kind, initial: real, remaining: real, unit: Unit, active: bool,
    brand: Option<string>, colors: seq<string>)

  datatype Draw = Draw(source: Id, amount: real, provenance: Provenance)

  datatype RecycleInput = RecycleInput(source: Option<Id>, weight: real, provenance: Provenance)

  datatype Event =
    | Added(id: Id, at: int, kind: Kind, initial: real)
    | MixCreated(id: Id, at: int, actor: Id, total: real, draws: seq<Draw>, provenance: Provenance)
    | Recycled(id: Id, at: int, actor: Id, inputs: seq<RecycleInput>, output: real, anomaly: bool, acked: bool,
      provenance: Provenance)
    | Consumed(id: Id, at: int, weight: real, unit: Unit, attributedTo: Attribution, waste: bool,
               provenance: Provenance, newRemaining: real, reconcile: bool)
    | Retired(id: Id, at: int, remainingAtRetirement: real)

  datatype MixRow = MixRow(id: Id, recipe: Id, material: Id, total: real, draws: seq<Draw>)

  datatype RecycleRow = RecycleRow(id: Id, owner: Id, inputs: seq<RecycleInput>, spool: Id, at: int)

  datatype Recipe = Recipe(owner: Id, components: nat)

  datatype Loadout = Loadout(printer: Id, material: Id)

  /** A snapshot of the tables. Only open loadouts are listed. */
  datatype Db = Db(
    materials: map<Id, Material>, ledger: seq<Event>, mixRows: seq<MixRow>, recycleRows: seq<RecycleRow>,
    recipes: map<Id, Recipe>, loadouts: seq<Loadout>)

  datatype Reason =
    | OwnerRequired | UnitKindMismatch | InitialAmountInvalid | ColorsRejected(problem: Colors.Problem)
    | ColorFieldsIncomplete | TotalVolumeInvalid | DrawCountMismatch | DrawMalformed | DrawSumMismatch | RecipeNotFound
    | NoInputs | TooManyInputs | InputMalformed | ZeroInputWeight | OutputWeightInvalid | OutputAnomalyNoAck
    | SourceNotFound | SourceNotOwned | SourceRetired | SourceInsufficient
    | InvalidEvent | MaterialNotFound | MaterialIdRequired | ReasonRequired | AlreadyRetired | LoadedNoAck
    | ActiveDispatch
    | PersistFailed

  datatype ColorOverride = ColorOverride(colors: Option<seq<string>>, pattern: Option<Colors.Pattern>,
    name: Option<string>)

  datatype CreateInput = CreateInput(
    owner: Id, kind: Kind, unit: Unit, initial: real, brand: Option<string>, colors: seq<string>,
      pattern: Colors.Pattern)

  datatype MixInput = MixInput(recipe: Id, actor: Id, total: real, draws: seq<Draw>, override: ColorOverride)

  datatype RecycleRequest = RecycleRequest(
    owner: Id, actor: Id, inputs: seq<RecycleInput>, output: real, ack: bool, brand: Option<string>,
      override: ColorOverride)

  datatype ConsumeEvent = ConsumeEvent(material: Id, weight: real, provenance: Provenance, attributedTo: Attribution)

  datatype RetireInput = RetireInput(material: Id, reason: string, ackLoaded: bool, dispatchActive: bool)

  const MIN_COMPONENTS := 2
  const MAX_COMPONENTS := 10
  const MASS_TOLERANCE_ML := 0.1
  const MIN_INPUTS := 1
  const MAX_INPUTS := 20
  const WEIGHT_ANOMALY_THRESHOLD := 1.05

  // ---------------------------------------------------------------- amounts

  /** Everything a list of draws takes, from any source. */
  function SumDraws(draws: seq<Draw>): real {
    if draws == [] then 0.0 else SumDraws(draws[..|draws| - 1]) + draws[|draws| - 1].amount
  }

  /** What a list of draws takes from one source. */
  function DrawnBy(draws: seq<Draw>, id: Id): real {
    if draws == [] then 0.0
    else
      var d := draws[|draws| - 1];
      DrawnBy(draws[..|draws| - 1], id) + if d.source == id then d.amount else 0.0
  }

  function SumWeights(inputs: seq<RecycleInput>): real {
    if inputs == [] then 0.0 else SumWeights(inputs[..|inputs| - 1]) + inputs[|inputs| - 1].weight
  }

  /** The draws a recycle makes on tracked materials; loose scrap draws on nothing. */
  function Tracked(inputs: seq<RecycleInput>): seq<Draw> {
    if inputs == [] then []
    else
      var init := Tracked(inputs[..|inputs| - 1]);
      var i := inputs[|inputs| - 1];
      if i.source.Some? then init + [Draw(i.source.value, i.weight, i.provenance)] else init
  }

  /** The inventory rows after a list of draws: each row loses what is drawn from it and nothing else changes. */
  function AfterDraws(ms: map<Id, Material>, draws: seq<Draw>): map<Id, Material> {
    map id | id in ms :: ms[id].(remaining := ms[id].remaining - DrawnBy(draws, id))
  }

  /** What one ledger event records against the inventory. */
  function EventDraws(e: Event): seq<Draw> {
    match e
    case MixCreated(_, _, _, _, draws, _) => draws
    case Recycled(_, _, _, inputs, _, _, _, _) => Tracked(inputs)
    case Consumed(id, _, weight, _, _, _, provenance, _, _) => [Draw(id, weight, provenance)]
    case _ => []
  }

  /** What the ledger records against one material. */
  function Recorded(ledger: seq<Event>, id: Id): real {
    if ledger == [] then 0.0
    else Recorded(ledger[..|ledger| - 1], id) + DrawnBy(EventDraws(ledger[|ledger| - 1]), id)
  }

  // ---------------------------------------------------------------- provenance

  function Rank(p: Provenance): nat {
    match p case Measured => 0 case Entered => 1 case Estimated => 2
  }

  /** Weakest-link rule: the batch is exactly as imprecise as its least precise part. */
  function Escalate(ps: seq<Provenance>): (r: Provenance)
    ensures forall p :: p in ps ==> Rank(p) <= Rank(r)
    ensures ps != [] ==> r in ps
  {
    assert ps != [] ==> ps[0] in ps;
    if Estimated in ps then Estimated else if Entered in ps then Entered else Measured
  }

  function DowngradeOneNotch(p: Provenance): (r: Provenance)
    ensures Rank(r) == if Rank(p) < 2 then Rank(p) + 1 else 2
  {
    match p case Measured => Entered case Entered => Estimated case Estimated => Estimated
  }

  function DrawProvenances(draws: seq<Draw>): seq<Provenance> {
    seq(|draws|, i requires 0 <= i < |draws| => draws[i].provenance)
  }

  function InputProvenances(inputs: seq<RecycleInput>): seq<Provenance> {
    seq(|inputs|, i requires 0 <= i < |inputs| => inputs[i].provenance)
  }

  // ---------------------------------------------------------------- validation before any read

  function ResolveOverride(o: ColorOverride): Result<seq<string>, Reason> {
    if o.colors.None? && o.pattern.None? && o.name.None? then Success([])
    else if o.colors.None? || o.pattern.None? then Failure(ColorFieldsIncomplete)
    else match Colors.CheckColors(o.colors.value, o.pattern.value)
      case Failure(p) => Failure(ColorsRejected(p))
      case Success(cs) => Success(cs)
  }

  predicate UnitFits(u: Unit, k: Kind) {
    match k
    case FilamentSpool => u == G
    case ResinBottle => true
    case MixBatch => u == Ml
    case RecycledSpool => u == G
    case OtherKind => true
  }

  function PreCreate(input: CreateInput): Option<Reason> {
    if input.owner == "" then Some(OwnerRequired)
    else if !UnitFits(input.unit, input.kind) then Some(UnitKindMismatch)
    else match Colors.CheckColors(input.colors, input.pattern)
      case Failure(p) => Some(ColorsRejected(p))
      case Success(_) => if input.initial <= 0.0 then Some(InitialAmountInvalid) else None
  }

  predicate DrawWellFormed(d: Draw) {
    d.source != "" && d.amount > 0.0
  }

  function Abs(x: real): real {
    if x < 0.0 then -x else x
  }

  function PreMix(input: MixInput): Option<Reason> {
    if input.total <= 0.0 then Some(TotalVolumeInvalid)
    else if !(MIN_COMPONENTS <= |input.draws| <= MAX_COMPONENTS) then Some(DrawCountMismatch)
    else if exists d :: d in input.draws && !DrawWellFormed(d) then Some(DrawMalformed)
    else if Abs(SumDraws(input.draws) - input.total) > MASS_TOLERANCE_ML then Some(DrawSumMismatch)
    else match ResolveOverride(input.override)
      case Failure(r) => Some(r)
      case Success(_) => None
  }

  predicate InputWellFormed(i: RecycleInput) {
    i.source != Some("") && i.weight > 0.0
  }

  predicate Anomalous(req: RecycleRequest) {
    req.output > SumWeights(req.inputs) * WEIGHT_ANOMALY_THRESHOLD
  }

  function PreRecycle(req: RecycleRequest): Option<Reason> {
    if req.owner == "" || req.actor == "" then Some(OwnerRequired)
    else if |req.inputs| < MIN_INPUTS then Some(NoInputs)
    else if |req.inputs| > MAX_INPUTS then Some(TooManyInputs)
    else if exists i :: i in req.inputs && !InputWellFormed(i) then Some(InputMalformed)
    else if SumWeights(req.inputs) <= 0.0 then Some(ZeroInputWeight)
    else if req.output <= 0.0 then Some(OutputWeightInvalid)
    else if Anomalous(req) && !req.ack then Some(OutputAnomalyNoAck)
    else match ResolveOverride(req.override)
      case Failure(r) => Some(r)
      case Success(_) => None
  }

  function PreConsume(e: ConsumeEvent): Option<Reason> {
    if e.material == "" || e.weight <= 0.0 then Some(InvalidEvent) else None
  }

  function PreRetire(input: RetireInput): Option<Reason> {
    if input.material == "" then Some(MaterialIdRequired)
    else if input.reason == "" then Some(ReasonRequired)
    else None
  }

  // ---------------------------------------------------------------- single reads

  function CheckRecipe(db: Db, input: MixInput): Option<Reason> {
    if input.recipe !in db.recipes || db.recipes[input.recipe].owner != input.actor then Some(RecipeNotFound)
    else if |input.draws| != db.recipes[input.recipe].components then Some(DrawCountMismatch)
    else None
  }

  /** The per-source check shared by mixing and recycling. */
  function CheckSource(ms: map<Id, Material>, owner: Id, source: Id, amount: real): Option<Reason> {
    if source !in ms then Some(SourceNotFound)
    else if ms[source].owner != owner then Some(SourceNotOwned)
    else if !ms[source].active then Some(SourceRetired)
    else if ms[source].remaining < amount then Some(SourceInsufficient)
    else None
  }

  /** The first failing check of a list of draws, all against one snapshot. */
  function CheckDraws(ms: map<Id, Material>, owner: Id, draws: seq<Draw>): Option<Reason> {
    if draws == [] then None
    else
      var init := CheckDraws(ms, owner, draws[..|draws| - 1]);
      if init.Some? then init else CheckSource(ms, owner, draws[|draws| - 1].source, draws[|draws| - 1].amount)
  }

  function CheckRetire(db: Db, input: RetireInput): Option<Reason> {
    if input.material !in db.materials then Some(MaterialNotFound)
    else if !db.materials[input.material].active then Some(AlreadyRetired)
    else if (exists l :: l in db.loadouts && l.material == input.material) && !input.ackLoaded then Some(LoadedNoAck)
    else if input.dispatchActive then Some(ActiveDispatch)
    else None
  }

  // ---------------------------------------------------------------- transactions
  // Each gives the tables after the commit, or None when an insert hits an existing primary key
  // and everything rolls back.

  function CommitCreate(db: Db, input: CreateInput, newId: Id, at: int): Option<Db> {
    if newId in db.materials then None
    else Some(db.(
      materials := db.materials[newId := Material(input.owner, input.kind, input.initial, input.initial, input.unit,
                                                  true, input.brand, Colors.UpperAll(input.colors))],
      ledger := db.ledger + [Added(newId, at, input.kind, input.initial)]))
  }

  function MixMaterial(input: MixInput): Material {
    Material(input.actor, MixBatch, input.total, input.total, Ml, true, None,
             match ResolveOverride(input.override) case Success(cs) => cs case Failure(_) => [])
  }

  function MixEvent(input: MixInput, newId: Id, at: int): Event {
    MixCreated(newId, at, input.actor, input.total, input.draws, Escalate(DrawProvenances(input.draws)))
  }

  function CommitMix(db: Db, input: MixInput, newId: Id, rowId: Id, at: int): Option<Db> {
    if newId in db.materials || (exists r :: r in db.mixRows && r.id == rowId) then None
    else Some(db.(
      materials := AfterDraws(db.materials, input.draws)[newId := MixMaterial(input)],
      mixRows := db.mixRows + [MixRow(rowId, input.recipe, newId, input.total, input.draws)],
      ledger := db.ledger + [MixEvent(input, newId, at)]))
  }

  function RecycleMaterial(req: RecycleRequest): Material {
    Material(req.owner, RecycledSpool, req.output, req.output, G, true, req.brand,
             match ResolveOverride(req.override) case Success(cs) => cs case Failure(_) => [])
  }

  function RecycleProvenance(req: RecycleRequest): Provenance {
    var p := Escalate(InputProvenances(req.inputs));
    if Anomalous(req) then DowngradeOneNotch(p) else p
  }

  function RecycleEvent(req: RecycleRequest, newId: Id, at: int): Event {
    Recycled(newId, at, req.actor, req.inputs, req.output, Anomalous(req), Anomalous(req) && req.ack,
      RecycleProvenance(req))
  }

  function CommitRecycle(db: Db, req: RecycleRequest, newId: Id, rowId: Id, at: int): Option<Db> {
    if newId in db.materials || (exists r :: r in db.recycleRows && r.id == rowId) then None
    else Some(db.(
      materials := AfterDraws(db.materials, Tracked(req.inputs))[newId := RecycleMaterial(req)],
      recycleRows := db.recycleRows + [RecycleRow(rowId, req.owner, req.inputs, newId, at)],
      ledger := db.ledger + [RecycleEvent(req, newId, at)]))
  }

  /** `seen` is the row as read before the transaction opened. */
  function ConsumptionEvent(e: ConsumeEvent, seen: Material, at: int): Event {
    Consumed(e.material, at, e.weight, seen.unit, e.attributedTo, e.attributedTo != Print, e.provenance,
             seen.remaining - e.weight, seen.remaining - e.weight < 0.0)
  }

  function CommitConsume(db: Db, e: ConsumeEvent, seen: Material, at: int): Db {
    db.(
      materials := AfterDraws(db.materials, [Draw(e.material, e.weight, e.provenance)]),
      ledger := db.ledger + [ConsumptionEvent(e, seen, at)])
  }

  function CommitRetire(db: Db, input: RetireInput, seen: Material, at: int): Db {
    db.(
      materials := if input.material in db.materials
                   then db.materials[input.material := db.materials[input.material].(active := false)]
                   else db.materials,
      ledger := db.ledger + [Retired(input.material, at, seen.remaining)])
  }

  // ---------------------------------------------------------------- facts about draws

  lemma {:induction false} DrawnBySnoc(draws: seq<Draw>, d: Draw, id: Id)
    ensures DrawnBy(draws + [d], id) == DrawnBy(draws, id) + if d.source == id then d.amount else 0.0
    ensures SumDraws(draws + [d]) == SumDraws(draws) + d.amount
  {
    assert (draws + [d])[..|draws|] == draws;
  }

  lemma {:induction false} DrawnByAbsent(draws: seq<Draw>, id: Id)
    requires forall d :: d in draws ==> d.source != id
    ensures DrawnBy(draws, id) == 0.0
  {
    if draws != [] {
      DrawnByAbsent(draws[..|draws| - 1], id);
    }
  }

  /** A source named once loses exactly the amount named. */
  lemma {:induction false} DrawnByDistinct(draws: seq<Draw>, k: nat)
    requires k < |draws|
    requires forall i, j :: 0 <= i < j < |draws| ==> draws[i].source != draws[j].source
    ensures DrawnBy(draws, draws[k].source) == draws[k].amount
  {
    var init := draws[..|draws| - 1];
    if k == |draws| - 1 {
      DrawnByAbsent(init, draws[k].source);
    } else {
      DrawnByDistinct(init, k);
    }
  }

  /** A list of draws passes exactly when every single draw does. */
  lemma {:induction false} CheckDrawsAll(ms: map<Id, Material>, owner: Id, draws: seq<Draw>)
    ensures CheckDraws(ms, owner, draws) == None
      <==> forall k :: 0 <= k < |draws| ==> CheckSource(ms, owner, draws[k].source, draws[k].amount) == None
    ensures CheckDraws(ms, owner, draws) == None <==> forall k :: 0 <= k < |draws| ==> Available(ms, owner, draws[k])
  {
    if draws != [] {
      CheckDrawsAll(ms, owner, draws[..|draws| - 1]);
    }
  }

  lemma {:induction false} CheckDrawsPrefix(ms: map<Id, Material>, owner: Id, draws: seq<Draw>, k: nat)
    requires k <= |draws| && CheckDraws(ms, owner, draws[..k]).Some?
    ensures CheckDraws(ms, owner, draws) == CheckDraws(ms, owner, draws[..k])
  {
    if k < |draws| {
      var init := draws[..|draws| - 1];
      assert init[..k] == draws[..k];
      CheckDrawsPrefix(ms, owner, init, k);
    } else {
      assert draws[..k] == draws;
    }
  }

  /** Decrementing one more row extends the effect of a list of draws by one draw. */
  lemma AfterDrawsSnoc(ms: map<Id, Material>, draws: seq<Draw>, d: Draw)
    ensures AfterDraws(ms, draws + [d]) ==
      var mid := AfterDraws(ms, draws);
      if d.source in mid then mid[d.source := mid[d.source].(remaining := mid[d.source].remaining - d.amount)] else mid
  {
    forall id | id in ms
      ensures DrawnBy(draws + [d], id) == DrawnBy(draws, id) + if d.source == id then d.amount else 0.0
    {
      DrawnBySnoc(draws, d, id);
    }
  }

  // ---------------------------------------------------------------- which sources are accepted

  /** A source a draw may be taken from. */
  predicate Available(ms: map<Id, Material>, owner: Id, d: Draw) {
    d.source in ms && ms[d.source].owner == owner && ms[d.source].active && ms[d.source].remaining >= d.amount
  }

  /** What is wrong with the source of a draw, the first thing first. */
  predicate Flaw(ms: map<Id, Material>, owner: Id, d: Draw, why: Reason) {
    match why
    case SourceNotFound => d.source !in ms
    case SourceNotOwned => d.source in ms && ms[d.source].owner != owner
    case SourceRetired => d.source in ms && ms[d.source].owner == owner && !ms[d.source].active
    case SourceInsufficient =>
      d.source in ms && ms[d.source].owner == owner && ms[d.source].active && ms[d.source].remaining < d.amount
    case _ => false
  }

  /** The k-th draw is the first whose source is not available, and this is why. */
  predicate FirstFlaw(ms: map<Id, Material>, owner: Id, draws: seq<Draw>, k: int, why: Reason) {
    0 <= k < |draws| && Flaw(ms, owner, draws[k], why) && forall j :: 0 <= j < k ==> Available(ms, owner, draws[j])
  }

  /** The verdict on a list of sources: accepted if and only if all are available, else refused for the first flaw. */
  ghost predicate SourcesJudged(ms: map<Id, Material>, owner: Id, draws: seq<Draw>, verdict: Option<Reason>) {
    && (verdict == None <==> forall j :: 0 <= j < |draws| ==> Available(ms, owner, draws[j]))
    && (verdict.Some? ==> exists k :: FirstFlaw(ms, owner, draws, k, verdict.value))
  }

  lemma SourceJudged(ms: map<Id, Material>, owner: Id, d: Draw)
    ensures CheckSource(ms, owner, d.source, d.amount) == None <==> Available(ms, owner, d)
    ensures var why := CheckSource(ms, owner, d.source, d.amount); why.Some? ==> Flaw(ms, owner, d, why.value)
    ensures forall why :: Flaw(ms, owner, d, why) ==> !Available(ms, owner, d)
  {
  }

  lemma {:induction false} DrawsJudged(ms: map<Id, Material>, owner: Id, draws: seq<Draw>)
    ensures SourcesJudged(ms, owner, draws, CheckDraws(ms, owner, draws))
  {
    if draws != [] {
      var n := |draws| - 1;
      var init, d := draws[..n], draws[n];
      DrawsJudged(ms, owner, init);
      SourceJudged(ms, owner, d);
      var before, verdict := CheckDraws(ms, owner, init), CheckDraws(ms, owner, draws);
      if before.Some? {
        var k :| FirstFlaw(ms, owner, init, k, before.value);
        SourceJudged(ms, owner, init[k]);
        assert FirstFlaw(ms, owner, draws, k, before.value);
        assert !Available(ms, owner, draws[k]);
      } else {
        assert forall j :: 0 <= j < n ==> draws[j] == init[j];
        if verdict.Some? {
          assert FirstFlaw(ms, owner, draws, n, verdict.value);
        }
      }
    }
  }
}

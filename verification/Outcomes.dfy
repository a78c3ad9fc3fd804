/** The by-outcome report, and the reconciliation of all reports with the inventory. */
module Outcomes {
  import opened Wrappers
  import opened Sums
  import opened Reports
  import M = Materials
  import Runs = MaterialRuns

  // ---------------------------------------------------------------- consumption by outcome

  /** Waste is decided by the payload's subtype, print output by its attribution; anything else has no outcome. */
  function OutcomeKey(f: Fetched): Key {
    if f.payload.waste then Some("waste")
    else if f.payload.attributedTo == Some(M.Print) then Some("print-output")
    else None
  }

  function ClassOf(p: M.Provenance): Class {
    match p case Measured => ClassMeasured case Entered => ClassEntered case Estimated => ClassEstimated
  }

  /** Tracked inputs of one recycle, each under its own provenance and its source's unit. */
  function InputObs(inputs: seq<M.RecycleInput>, ms: map<M.Id, M.Material>): seq<Obs> {
    if inputs == [] then []
    else
      var init := InputObs(inputs[..|inputs| - 1], ms);
      var i := inputs[|inputs| - 1];
      if i.source.None? then init
      else init + [Obs(i.weight, Some(ClassOf(i.provenance)),
        Some(if i.source.value in ms then ms[i.source.value].unit else M.G))]
  }

  function RecycledObs(rows: seq<M.RecycleRow>, ms: map<M.Id, M.Material>, owner: M.Id, since: int,
    until: int): seq<Obs> {
    if rows == [] then []
    else
      var init := RecycledObs(rows[..|rows| - 1], ms, owner, since, until);
      var r := rows[|rows| - 1];
      if r.owner == owner && InWindow(r.at, since, until) then init + InputObs(r.inputs, ms) else init
  }

  // ---------------------------------------------------------------- what the three rows say

  predicate IsPrintOutput(f: Fetched) {
    !f.payload.waste && f.payload.attributedTo == Some(M.Print)
  }

  predicate IsWaste(f: Fetched) {
    f.payload.waste
  }

  /** A tracked input, of any provenance or of one. */
  predicate Picked(i: M.RecycleInput, pick: Option<Class>) {
    i.source.Some? &&
    match pick
    case None => true
    case Some(ClassMeasured) => i.provenance == M.Measured
    case Some(ClassEntered) => i.provenance == M.Entered
    case Some(ClassEstimated) => i.provenance == M.Estimated
    case _ => false
  }

  function InputAmounts(inputs: seq<M.RecycleInput>, pick: Option<Class>): real {
    if inputs == [] then 0.0
    else
      var i := inputs[|inputs| - 1];
      InputAmounts(inputs[..|inputs| - 1], pick) + if Picked(i, pick) then i.weight else 0.0
  }

  predicate IsRecycled(r: M.RecycleRow, owner: M.Id, since: int, until: int) {
    r.owner == owner && since <= r.at && r.at < until
  }

  /** The weight of the tracked inputs of the owner's recycles in the window. */
  function RecycledAmounts(rows: seq<M.RecycleRow>, owner: M.Id, since: int, until: int, pick: Option<Class>): real {
    if rows == [] then 0.0
    else
      var r := rows[|rows| - 1];
      RecycledAmounts(rows[..|rows| - 1], owner, since, until, pick)
      + if IsRecycled(r, owner, since, until) then InputAmounts(r.inputs, pick) else 0.0
  }

  function TrackedCount(inputs: seq<M.RecycleInput>): nat {
    if inputs == [] then 0
    else TrackedCount(inputs[..|inputs| - 1]) + if inputs[|inputs| - 1].source.Some? then 1 else 0
  }

  function RecycledCount(rows: seq<M.RecycleRow>, owner: M.Id, since: int, until: int): nat {
    if rows == [] then 0
    else
      var r := rows[|rows| - 1];
      RecycledCount(rows[..|rows| - 1], owner, since, until)
      + if IsRecycled(r, owner, since, until) then TrackedCount(r.inputs) else 0
  }

  /** A tracked input counts in the unit of its source, in grams if the source is gone. */
  predicate SourceUnit(i: M.RecycleInput, ms: map<M.Id, M.Material>, u: M.Unit) {
    i.source.Some? && if i.source.value in ms then ms[i.source.value].unit == u else u == M.G
  }

  predicate RecycledUses(rows: seq<M.RecycleRow>, ms: map<M.Id, M.Material>, owner: M.Id, since: int, until: int,
    u: M.Unit)
  {
    exists r :: r in rows && IsRecycled(r, owner, since, until) && exists i :: i in r.inputs && SourceUnit(i, ms, u)
  }

  ghost predicate DescribesRecycled(row: Row, rows: seq<M.RecycleRow>, ms: map<M.Id, M.Material>, owner: M.Id,
    since: int, until: int)
  {
    && row.total == RecycledAmounts(rows, owner, since, until, None)
    && row.provenance.Keys ==
       {ClassMeasured, ClassEntered, ClassEstimated, ClassDerived, ClassComputed, ClassSystem}
    && (forall c :: c in row.provenance ==>
         row.provenance[c] == RecycledAmounts(rows, owner, since, until, Some(c)))
    && row.count == RecycledCount(rows, owner, since, until)
    && UnitFollows(row.unit, RecycledUses(rows, ms, owner, since, until, M.G),
                   RecycledUses(rows, ms, owner, since, until, M.Ml))
  }

  /** Three rows in this order: what was printed, what was wasted, and what was recycled. */
  ghost predicate OutcomeReport(rows: seq<Row>, events: seq<Fetched>, recycleRows: seq<M.RecycleRow>,
    ms: map<M.Id, M.Material>, owner: M.Id, since: int, until: int)
  {
    && |rows| == 3
    && rows[0].key == Some("print-output") && Describes(rows[0], events, IsPrintOutput)
    && rows[1].key == Some("waste") && Describes(rows[1], events, IsWaste)
    && rows[2].key == Some("recycled") && DescribesRecycled(rows[2], recycleRows, ms, owner, since, until)
  }

  lemma {:induction false} InputObsSays(inputs: seq<M.RecycleInput>, ms: map<M.Id, M.Material>, pick: Option<Class>)
    ensures Sum(InputObs(inputs, ms), pick) == InputAmounts(inputs, pick)
    ensures |InputObs(inputs, ms)| == TrackedCount(inputs)
  {
    if inputs != [] {
      var init, i := inputs[..|inputs| - 1], inputs[|inputs| - 1];
      InputObsSays(init, ms, pick);
      if i.source.Some? {
        SumSnoc(InputObs(init, ms), InputObs(inputs, ms)[|InputObs(init, ms)|], pick);
      }
    }
  }

  lemma {:induction false} InputObsUnits(inputs: seq<M.RecycleInput>, ms: map<M.Id, M.Material>, u: M.Unit)
    ensures Occurs(InputObs(inputs, ms), u) <==> exists i :: i in inputs && SourceUnit(i, ms, u)
  {
    if inputs != [] {
      var init, i := inputs[..|inputs| - 1], inputs[|inputs| - 1];
      assert inputs == init + [i];
      InputObsUnits(init, ms, u);
      if i.source.Some? {
        var o := InputObs(inputs, ms)[|InputObs(init, ms)|];
        assert InputObs(inputs, ms) == InputObs(init, ms) + [o];
        OccursSnoc(InputObs(init, ms), o, u);
        assert o.unit == Some(u) <==> SourceUnit(i, ms, u);
        assert i in inputs && forall x :: x in inputs <==> x in init || x == i;
      }
    }
  }

  lemma {:induction false} RecycledObsSays(rows: seq<M.RecycleRow>, ms: map<M.Id, M.Material>, owner: M.Id, since: int,
    until: int, pick: Option<Class>)
    ensures Sum(RecycledObs(rows, ms, owner, since, until), pick) == RecycledAmounts(rows, owner, since, until, pick)
    ensures |RecycledObs(rows, ms, owner, since, until)| == RecycledCount(rows, owner, since, until)
  {
    if rows != [] {
      var init, r := rows[..|rows| - 1], rows[|rows| - 1];
      RecycledObsSays(init, ms, owner, since, until, pick);
      InputObsSays(r.inputs, ms, pick);
      SumConcat(RecycledObs(init, ms, owner, since, until), InputObs(r.inputs, ms), pick);
    }
  }

  lemma OccursConcat(a: seq<Obs>, b: seq<Obs>, u: M.Unit)
    ensures Occurs(a + b, u) <==> Occurs(a, u) || Occurs(b, u)
  {
    forall o ensures o in a + b <==> o in a || o in b {
    }
  }

  lemma {:induction false} RecycledObsUnits(rows: seq<M.RecycleRow>, ms: map<M.Id, M.Material>, owner: M.Id, since: int,
    until: int, u: M.Unit)
    ensures Occurs(RecycledObs(rows, ms, owner, since, until), u) <==> RecycledUses(rows, ms, owner, since, until, u)
  {
    if rows != [] {
      var init, r := rows[..|rows| - 1], rows[|rows| - 1];
      assert rows == init + [r];
      RecycledObsUnits(init, ms, owner, since, until, u);
      InputObsUnits(r.inputs, ms, u);
      OccursConcat(RecycledObs(init, ms, owner, since, until), InputObs(r.inputs, ms), u);
    }
  }

  lemma RecycledRow(rows: seq<M.RecycleRow>, ms: map<M.Id, M.Material>, owner: M.Id, since: int, until: int, key: Key)
    ensures DescribesRecycled(RowOf(key, RecycledObs(rows, ms, owner, since, until)), rows, ms, owner, since, until)
  {
    forall pick
      ensures Sum(RecycledObs(rows, ms, owner, since, until), pick) == RecycledAmounts(rows, owner, since, until, pick)
    {
      RecycledObsSays(rows, ms, owner, since, until, pick);
    }
    RecycledObsSays(rows, ms, owner, since, until, None);
    RecycledObsUnits(rows, ms, owner, since, until, M.G);
    RecycledObsUnits(rows, ms, owner, since, until, M.Ml);
  }

  lemma OutcomeRows(events: seq<Fetched>, recycleRows: seq<M.RecycleRow>, ms: map<M.Id, M.Material>, owner: M.Id,
    since: int, until: int)
    ensures OutcomeReport([RowOf(Some("print-output"), KeyObs(events, OutcomeKey, Some("print-output"))),
                           RowOf(Some("waste"), KeyObs(events, OutcomeKey, Some("waste"))),
                           RowOf(Some("recycled"), RecycledObs(recycleRows, ms, owner, since, until))],
                          events, recycleRows, ms, owner, since, until)
  {
    assert "print-output"[0] != "waste"[0];
    KeyRow(Some("print-output"), events, OutcomeKey, Some("print-output"), IsPrintOutput);
    KeyRow(Some("waste"), events, OutcomeKey, Some("waste"), IsWaste);
    RecycledRow(recycleRows, ms, owner, since, until, Some("recycled"));
  }

  method ConsumptionByOutcome(events: seq<Fetched>, recycleRows: seq<M.RecycleRow>, ms: map<M.Id, M.Material>,
                              owner: M.Id, since: int, until: int) returns (rows: seq<Row>)
    ensures rows == [RowOf(Some("print-output"), KeyObs(events, OutcomeKey, Some("print-output"))),
                     RowOf(Some("waste"), KeyObs(events, OutcomeKey, Some("waste"))),
                     RowOf(Some("recycled"), RecycledObs(recycleRows, ms, owner, since, until))]
    ensures OutcomeReport(rows, events, recycleRows, ms, owner, since, until)
  {
    var printOutput := new Accumulator();
    var waste := new Accumulator();
    for i := 0 to |events|
      invariant fresh(printOutput) && fresh(waste) && printOutput != waste
      invariant printOutput.Valid() && printOutput.seen == KeyObs(events[..i], OutcomeKey, Some("print-output"))
      invariant waste.Valid() && waste.seen == KeyObs(events[..i], OutcomeKey, Some("waste"))
    {
      var e := events[i];
      assert events[..i + 1][..i] == events[..i];
      if e.payload.waste {
        waste.Increment(ObsOf(e));
      } else if e.payload.attributedTo == Some(M.Print) {
        printOutput.Increment(ObsOf(e));
      }
    }
    assert events[..|events|] == events;
    var recycled := new Accumulator();
    for i := 0 to |recycleRows|
      invariant fresh(recycled) && recycled.Valid()
      invariant recycled.seen == RecycledObs(recycleRows[..i], ms, owner, since, until)
      invariant printOutput.Valid() && printOutput.seen == KeyObs(events, OutcomeKey, Some("print-output"))
      invariant waste.Valid() && waste.seen == KeyObs(events, OutcomeKey, Some("waste"))
      invariant recycled != printOutput && recycled != waste
    {
      var r := recycleRows[i];
      assert recycleRows[..i + 1][..i] == recycleRows[..i];
      if r.owner == owner && InWindow(r.at, since, until) {
        AddInputs(recycled, r.inputs, ms);
      }
    }
    assert recycleRows[..|recycleRows|] == recycleRows;
    var r0 := printOutput.Finalize(Some("print-output"));
    var r1 := waste.Finalize(Some("waste"));
    var r2 := recycled.Finalize(Some("recycled"));
    rows := [r0, r1, r2];
    OutcomeRows(events, recycleRows, ms, owner, since, until);
  }

  method AddInputs(acc: Accumulator, inputs: seq<M.RecycleInput>, ms: map<M.Id, M.Material>)
    requires acc.Valid()
    modifies acc
    ensures acc.Valid() && acc.seen == old(acc.seen) + InputObs(inputs, ms)
  {
    for j := 0 to |inputs|
      invariant acc.Valid() && acc.seen == old(acc.seen) + InputObs(inputs[..j], ms)
    {
      var i := inputs[j];
      assert inputs[..j + 1][..j] == inputs[..j];
      if i.source.Some? {
        acc.Increment(Obs(i.weight, Some(ClassOf(i.provenance)),
          Some(if i.source.value in ms then ms[i.source.value].unit else M.G)));
      }
    }
    assert inputs[..|inputs|] == inputs;
  }

  /** Print output and waste fall short of the total by exactly the events with neither outcome. */
  lemma OutcomesSplitTotal(events: seq<Fetched>, pick: Option<Class>)
    ensures Sum(KeyObs(events, OutcomeKey, Some("print-output")), pick) +
      Sum(KeyObs(events, OutcomeKey, Some("waste")), pick)
            == Sum(AllObs(events), pick) - Sum(KeyObs(events, OutcomeKey, None), pick)
  {
    var a: Key, b: Key, c: Key := Some("print-output"), Some("waste"), None;
    assert "print-output"[0] != "waste"[0];
    var f := k => Sum(KeyObs(events, OutcomeKey, k), pick);
    var keys := {a, b, c};
    forall i | 0 <= i < |events| ensures OutcomeKey(events[i]) in keys {
    }
    RowsSumToTotal(events, OutcomeKey, keys, pick);
    SumCongruent(keys, f, k => Sum(KeyObs(events, OutcomeKey, k), pick));
    SumRemove(keys, f, a);
    SumRemove(keys - {a}, f, b);
    SumRemove(keys - {a} - {b}, f, c);
    assert keys - {a} - {b} - {c} == {};
  }

  // ---------------------------------------------------------------- the machine's ledger as report input

  /** The consumption rows of a ledger as the report reads them back. */
  function ConsumedRows(ledger: seq<M.Event>): seq<ConsumedRow> {
    if ledger == [] then []
    else
      var init := ConsumedRows(ledger[..|ledger| - 1]);
      match ledger[|ledger| - 1]
      case Consumed(id, at, weight, unit, attributedTo, waste, provenance, _, _) =>
        init + [ConsumedRow(id, at, Some(Payload(Some(weight), Some(KnownUnit(unit)), Some(attributedTo), waste)),
          Some(ClassOf(provenance)))]
      case _ => init
  }

  function FetchOf(db: M.Db, ledger: seq<M.Event>, owner: M.Id, since: int, until: int): seq<Fetched> {
    Fetch(ConsumedRows(ledger), db.materials, db.loadouts, owner, since, until)
  }

  /** Every event the consumption handler writes is print output or waste, so on its ledgers the two make up the
      total. */
  lemma {:induction false} HandlerEventsHaveOutcome(db: M.Db, ledger: seq<M.Event>, owner: M.Id, since: int, until: int)
    requires forall k :: 0 <= k < |ledger| ==> Runs.EventOk(db.materials, ledger[k])
    ensures None !in KeysOf(FetchOf(db, ledger, owner, since, until), OutcomeKey)
  {
    if ledger != [] {
      var init, e := ledger[..|ledger| - 1], ledger[|ledger| - 1];
      HandlerEventsHaveOutcome(db, init, owner, since, until);
      assert Runs.EventOk(db.materials, e);
      if e.Consumed? {
        var rows := ConsumedRows(ledger);
        assert rows[..|ConsumedRows(init)|] == ConsumedRows(init);
        var tail := FetchRow(rows[|rows| - 1], db.materials, db.loadouts, owner, since, until);
        var head := FetchOf(db, init, owner, since, until);
        assert FetchOf(db, ledger, owner, since, until) == head + tail;
        forall i | 0 <= i < |head + tail|
          ensures OutcomeKey((head + tail)[i]) != None
        {
          if i < |head| {
            assert OutcomeKey(head[i]) in KeysOf(head, OutcomeKey);
          } else {
            assert tail[i - |head|].payload == rows[|rows| - 1].payload.value;
          }
        }
      } else {
        assert ConsumedRows(ledger) == ConsumedRows(init);
        assert FetchOf(db, ledger, owner, since, until) == FetchOf(db, init, owner, since, until);
      }
    }
  }

  lemma PrintAndWasteAreTotal(s: Runs.Sys, owner: M.Id, since: int, until: int, pick: Option<Class>)
    requires Runs.Consistent(s)
    ensures var events := FetchOf(s.db, s.db.ledger, owner, since, until);
      Sum(KeyObs(events, OutcomeKey, Some("print-output")), pick) + Sum(KeyObs(events, OutcomeKey, Some("waste")), pick)
      == Sum(AllObs(events), pick)
  {
    var events := FetchOf(s.db, s.db.ledger, owner, since, until);
    HandlerEventsHaveOutcome(s.db, s.db.ledger, owner, since, until);
    KeyObsAbsent(events, OutcomeKey, None);
    OutcomesSplitTotal(events, pick);
  }

  // ---------------------------------------------------------------- reconciliation

  ghost function Owned(ms: map<M.Id, M.Material>, owner: M.Id): set<M.Id> {
    set id | id in ms && ms[id].owner == owner
  }

  predicate AtMostOneLoadout(loadouts: seq<M.Loadout>) {
    forall m :: m in (set l | l in loadouts :: l.material) ==> |OpenPrinters(loadouts, m)| <= 1
  }

  /** What an owner's mixes drew. */
  function MixDraws(ledger: seq<M.Event>, owner: M.Id): real {
    if ledger == [] then 0.0
    else
      var e := ledger[|ledger| - 1];
      MixDraws(ledger[..|ledger| - 1], owner) + if e.MixCreated? && e.actor == owner then M.SumDraws(e.draws) else 0.0
  }

  /** Over a set of materials that contains all of a list's sources the draws sum to all of them. */
  lemma {:induction false} DrawnInside(keys: set<M.Id>, draws: seq<M.Draw>)
    requires forall d :: d in draws ==> d.source in keys
    ensures SumOver(keys, id => M.DrawnBy(draws, id)) == M.SumDraws(draws)
  {
    if draws == [] {
      SumPoint(keys, id => M.DrawnBy(draws, id), "");
    } else {
      var init, d := draws[..|draws| - 1], draws[|draws| - 1];
      assert draws == init + [d] && d in draws;
      DrawnInside(keys, init);
      OneMoreDraw(keys, init, d);
    }
  }

  lemma OneMoreDraw(keys: set<M.Id>, init: seq<M.Draw>, d: M.Draw)
    requires d.source in keys
    ensures SumOver(keys, id => M.DrawnBy(init + [d], id)) == SumOver(keys, id => M.DrawnBy(init, id)) + d.amount
  {
    var h := id => if d.source == id then d.amount else 0.0;
    forall id | id in keys
      ensures M.DrawnBy(init + [d], id) == M.DrawnBy(init, id) + h(id)
    {
      M.DrawnBySnoc(init, d, id);
    }
    SumAdd(keys, id => M.DrawnBy(init, id), h, id => M.DrawnBy(init + [d], id));
    SumPoint(keys, h, d.source);
  }

  /** Over one that contains none of them they sum to nothing. */
  lemma DrawnOutside(keys: set<M.Id>, draws: seq<M.Draw>)
    requires forall d :: d in draws ==> d.source !in keys
    ensures SumOver(keys, id => M.DrawnBy(draws, id)) == 0.0
  {
    var f := id => M.DrawnBy(draws, id);
    forall id | id in keys ensures f(id) == 0.0 {
      M.DrawnByAbsent(draws, id);
    }
    SumPoint(keys, f, "");
  }

  lemma {:induction false} InputObsSum(inputs: seq<M.RecycleInput>, ms: map<M.Id, M.Material>)
    ensures Sum(InputObs(inputs, ms), None) == M.SumDraws(M.Tracked(inputs))
  {
    if inputs != [] {
      var init, i := inputs[..|inputs| - 1], inputs[|inputs| - 1];
      InputObsSum(init, ms);
      if i.source.Some? {
        SumSnoc(InputObs(init, ms), InputObs(inputs, ms)[|InputObs(init, ms)|], None);
        M.DrawnBySnoc(M.Tracked(init), M.Draw(i.source.value, i.weight, i.provenance), "");
      }
    }
  }

  lemma {:induction false} NoPrinters(loadouts: seq<M.Loadout>, m: M.Id)
    requires forall l :: l in loadouts ==> l.material != m
    ensures OpenPrinters(loadouts, m) == []
  {
    if loadouts != [] {
      NoPrinters(loadouts[..|loadouts| - 1], m);
    }
  }

  /** With at most one open loadout per material, a consumption in the window is fetched once for its owner and not at
      all for others. */
  lemma FetchedOnce(db: M.Db, e: M.Event, owner: M.Id, since: int, until: int)
    requires e.Consumed? && e.id in db.materials && InWindow(e.at, since, until) && AtMostOneLoadout(db.loadouts)
    ensures var row := ConsumedRow(e.id, e.at,
      Some(Payload(Some(e.weight), Some(KnownUnit(e.unit)), Some(e.attributedTo), e.waste)),
      Some(ClassOf(e.provenance)));
      Sum(AllObs(FetchRow(row, db.materials, db.loadouts, owner, since, until)), None)
      == if db.materials[e.id].owner == owner then e.weight else 0.0
  {
    var row := ConsumedRow(e.id, e.at,
      Some(Payload(Some(e.weight), Some(KnownUnit(e.unit)), Some(e.attributedTo), e.waste)),
      Some(ClassOf(e.provenance)));
    if db.materials[e.id].owner == owner {
      if e.id !in (set l | l in db.loadouts :: l.material) {
        NoPrinters(db.loadouts, e.id);
      }
      var fs := FetchRow(row, db.materials, db.loadouts, owner, since, until);
      assert |fs| == 1;
      assert AllObs(fs) == [] + [ObsOf(fs[0])];
      SumSnoc([], ObsOf(fs[0]), None);
    }
  }

  lemma {:induction false} EqualObsSum(obs: seq<Obs>, amount: real)
    requires forall o :: o in obs ==> o.amount == amount
    ensures Sum(obs, None) == amount * |obs| as real
  {
    if obs != [] {
      assert obs[|obs| - 1] in obs;
      EqualObsSum(obs[..|obs| - 1], amount);
    }
  }

  /** Without that proviso a consumption is counted once per open loadout of its material: once in all exactly when
      there is at most one. */
  lemma CountedOnceIff(r: ConsumedRow, ms: map<M.Id, M.Material>, loadouts: seq<M.Loadout>, since: int, until: int)
    requires r.subject in ms && InWindow(r.at, since, until) && r.payload.Some? && r.payload.value.weight.Some?
    requires r.payload.value.weight.value > 0.0
    ensures var n := |OpenPrinters(loadouts, r.subject)|;
      var fetched := FetchRow(r, ms, loadouts, ms[r.subject].owner, since, until);
      && Sum(AllObs(fetched), None) == r.payload.value.weight.value * (if n == 0 then 1 else n) as real
      && (Sum(AllObs(fetched), None) == r.payload.value.weight.value <==> n <= 1)
  {
    var n := |OpenPrinters(loadouts, r.subject)|;
    EqualObsSum(AllObs(FetchRow(r, ms, loadouts, ms[r.subject].owner, since, until)), r.payload.value.weight.value);
    if n > 1 {
      MoreIsMore(r.payload.value.weight.value, n);
    }
  }

  /** One material loaded in two printers: a consumption of 5 is reported as 10. */
  lemma TwoLoadoutsCountTwice(r: ConsumedRow, m: M.Material)
    requires r == ConsumedRow("m", 0, Some(Payload(Some(5.0), Some(KnownUnit(M.G)), Some(M.Print), false)),
      Some(ClassMeasured))
    ensures Sum(AllObs(FetchRow(r, map["m" := m], [M.Loadout("p", "m"), M.Loadout("q", "m")], m.owner, 0, 1)),
      None) == 10.0
  {
    var loadouts := [M.Loadout("p", "m"), M.Loadout("q", "m")];
    assert loadouts[..1] == [M.Loadout("p", "m")] && loadouts[..1][..0] == [];
    assert OpenPrinters(loadouts[..1], "m") == ["p"];
    assert OpenPrinters(loadouts, "m") == ["p", "q"];
    CountedOnceIff(r, map["m" := m], loadouts, 0, 1);
  }

  lemma MoreIsMore(w: real, n: nat)
    requires w > 0.0 && n > 1
    ensures w * n as real > w
  {
    assert w * (n as real - 1.0) > 0.0;
  }

  /** What one event takes from one owner's materials. */
  function Take(db: M.Db, e: M.Event, owner: M.Id): real
    requires e.id in db.materials
  {
    match e
    case Consumed(id, _, weight, _, _, _, _, _, _) => if db.materials[id].owner == owner then weight else 0.0
    case MixCreated(_, _, actor, _, draws, _) => if actor == owner then M.SumDraws(draws) else 0.0
    case Recycled(id, _, _, inputs, _, _, _, _) => if db.materials[id].owner == owner then
      M.SumDraws(M.Tracked(inputs)) else 0.0
    case _ => 0.0
  }

  lemma EventReconciles(db: M.Db, e: M.Event, owner: M.Id)
    requires Runs.EventOk(db.materials, e)
    ensures SumOver(Owned(db.materials, owner), id => M.DrawnBy(M.EventDraws(e), id)) == Take(db, e, owner)
  {
    var keys := Owned(db.materials, owner);
    var draws := M.EventDraws(e);
    var mine := if e.MixCreated? then e.actor == owner else db.materials[e.id].owner == owner;
    forall d | d in draws ensures d.source in keys <==> mine {
      var k :| 0 <= k < |draws| && draws[k] == d;
    }
    if mine {
      DrawnInside(keys, draws);
    } else {
      DrawnOutside(keys, draws);
    }
    if e.Consumed? {
      assert draws == [] + [M.Draw(e.id, e.weight, e.provenance)];
      M.DrawnBySnoc([], M.Draw(e.id, e.weight, e.provenance), e.id);
    }
  }

  lemma FetchSnoc(db: M.Db, init: seq<M.Event>, e: M.Event, owner: M.Id, since: int, until: int)
    requires Runs.EventOk(db.materials, e) && InWindow(e.at, since, until) && AtMostOneLoadout(db.loadouts)
    ensures Sum(AllObs(FetchOf(db, init + [e], owner, since, until)), None)
      == Sum(AllObs(FetchOf(db, init, owner, since, until)), None) + if e.Consumed? then Take(db, e, owner) else 0.0
  {
    assert (init + [e])[..|init|] == init;
    if e.Consumed? {
      FetchedOnce(db, e, owner, since, until);
      var rows := ConsumedRows(init + [e]);
      assert rows[..|rows| - 1] == ConsumedRows(init);
      var tail := FetchRow(rows[|rows| - 1], db.materials, db.loadouts, owner, since, until);
      assert AllObs(FetchOf(db, init + [e], owner, since, until)) ==
        AllObs(FetchOf(db, init, owner, since, until)) + AllObs(tail);
      SumConcat(AllObs(FetchOf(db, init, owner, since, until)), AllObs(tail), None);
    }
  }

  lemma RecycledSnoc(ms: map<M.Id, M.Material>, rows: seq<M.RecycleRow>, e: M.Event, owner: M.Id, since: int,
    until: int)
    requires rows != [] && Runs.RecycleRowOf(ms, rows[|rows| - 1], e) && InWindow(e.at, since, until)
    ensures Sum(RecycledObs(rows, ms, owner, since, until), None)
      == Sum(RecycledObs(rows[..|rows| - 1], ms, owner, since, until), None)
         + if ms[e.id].owner == owner then M.SumDraws(M.Tracked(e.inputs)) else 0.0
  {
    InputObsSum(e.inputs, ms);
    SumConcat(RecycledObs(rows[..|rows| - 1], ms, owner, since, until), InputObs(e.inputs, ms), None);
  }

  /** The recorded draws of one owner's materials, event by event, against the three report figures. */
  lemma {:induction false} RecordedReconciles(db: M.Db, ledger: seq<M.Event>, mixRows: seq<M.MixRow>,
    recycleRows: seq<M.RecycleRow>, owner: M.Id, since: int, until: int)
    requires forall k :: 0 <= k < |ledger| ==>
      Runs.EventOk(db.materials, ledger[k]) && InWindow(ledger[k].at, since, until)
    requires Runs.RowsMatch(db.materials, ledger, mixRows, recycleRows)
    requires AtMostOneLoadout(db.loadouts)
    ensures SumOver(Owned(db.materials, owner), id => M.Recorded(ledger, id))
      == Sum(AllObs(FetchOf(db, ledger, owner, since, until)), None)
         + MixDraws(ledger, owner)
         + Sum(RecycledObs(recycleRows, db.materials, owner, since, until), None)
  {
    var keys := Owned(db.materials, owner);
    var f := id => M.Recorded(ledger, id);
    if ledger == [] {
      SumPoint(keys, f, "");
    } else {
      var init, e := ledger[..|ledger| - 1], ledger[|ledger| - 1];
      assert ledger == init + [e];
      assert Runs.EventOk(db.materials, e) && InWindow(e.at, since, until);
      var mixInit := if e.MixCreated? then mixRows[..|mixRows| - 1] else mixRows;
      var recycleInit := if e.Recycled? then recycleRows[..|recycleRows| - 1] else recycleRows;
      RecordedReconciles(db, init, mixInit, recycleInit, owner, since, until);
      SumAdd(keys, id => M.Recorded(init, id), id => M.DrawnBy(M.EventDraws(e), id), f);
      EventReconciles(db, e, owner);
      FetchSnoc(db, init, e, owner, since, until);
      if e.Recycled? {
        RecycledSnoc(db.materials, recycleRows, e, owner, since, until);
      }
    }
  }

  /** Reports reconcile with inventory: in every consistent state, over a window that covers the ledger,
      an owner's materials have lost exactly total consumption plus mix draws plus the recycled bucket. */
  lemma ReportsReconcile(s: Runs.Sys, owner: M.Id, since: int, until: int)
    requires Runs.Consistent(s) && AtMostOneLoadout(s.db.loadouts)
    requires forall k :: 0 <= k < |s.db.ledger| ==> InWindow(s.db.ledger[k].at, since, until)
    ensures SumOver(Owned(s.db.materials, owner),
                    id => if id in s.db.materials then s.db.materials[id].initial - s.db.materials[id].remaining
                      else 0.0)
      == Sum(AllObs(FetchOf(s.db, s.db.ledger, owner, since, until)), None)
         + MixDraws(s.db.ledger, owner)
         + Sum(RecycledObs(s.db.recycleRows, s.db.materials, owner, since, until), None)
  {
    RecordedReconciles(s.db, s.db.ledger, s.db.mixRows, s.db.recycleRows, owner, since, until);
    SumCongruent(Owned(s.db.materials, owner), id => M.Recorded(s.db.ledger, id),
                 id => if id in s.db.materials then s.db.materials[id].initial - s.db.materials[id].remaining else 0.0);
  }
}

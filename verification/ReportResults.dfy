/** Laws between the rows that the reports return. */
module ReportResults {
  import opened Wrappers
  import opened Sums
  import opened Reports
  import opened Outcomes
  import M = Materials
  import Runs = MaterialRuns

  lemma AllSums(events: seq<Fetched>, pick: Option<Class>)
    ensures Sum(AllObs(events), pick) == Amounts(events, Any, pick)
  {
    AllUnderOneKey(events);
    KeySums(events, f => None, None, Any, pick);
  }

  /** What a row says in all or of one class; every class is listed, so nothing is looked up in vain. */
  function Figure(r: Row, pick: Option<Class>): real {
    match pick
    case None => r.total
    case Some(c) => if c in r.provenance then r.provenance[c] else 0.0
  }

  /** The sum of the rows' figures. */
  function SumOfRows(rows: seq<Row>, pick: Option<Class>): real {
    if rows == [] then 0.0 else SumOfRows(rows[..|rows| - 1], pick) + Figure(rows[|rows| - 1], pick)
  }

  lemma EveryClassHere(pick: Option<Class>)
    ensures pick.Some? ==>
      pick.value in {ClassMeasured, ClassEntered, ClassEstimated, ClassDerived, ClassComputed, ClassSystem}
  {
    if pick.Some? {
      EveryClassListed(pick.value);
    }
  }

  function KeysIn(rows: seq<Row>): set<Key> {
    set i | 0 <= i < |rows| :: rows[i].key
  }

  lemma KeysInSnoc(init: seq<Row>, r: Row)
    ensures KeysIn(init + [r]) == KeysIn(init) + {r.key}
  {
    var rows := init + [r];
    assert rows[|init|] == r;
    forall i | 0 <= i < |init| ensures init[i].key in KeysIn(rows) {
      assert rows[i] == init[i];
    }
  }

  /** Where the rows have different keys, adding along the rows is adding over the keys. */
  lemma {:induction false} SumOfRowsIsOverKeys(rows: seq<Row>, pick: Option<Class>, f: Key -> real)
    requires forall i, j :: 0 <= i < j < |rows| ==> rows[i].key != rows[j].key
    requires forall i :: 0 <= i < |rows| ==> f(rows[i].key) == Figure(rows[i], pick)
    ensures SumOfRows(rows, pick) == SumOver(KeysIn(rows), f)
  {
    if rows == [] {
      assert KeysIn(rows) == {};
    } else {
      var init, r := rows[..|rows| - 1], rows[|rows| - 1];
      SumOfRowsIsOverKeys(init, pick, f);
      assert rows == init + [r];
      KeysInSnoc(init, r);
      SumInsert(KeysIn(init), f, r.key);
    }
  }

  /** The rows of a report add up to the row of the total: in all, and under each class. */
  lemma RowsAddUp(events: seq<Fetched>, keyOf: Fetched -> Key, rows: seq<Row>, total: Row, pick: Option<Class>)
    requires ReportFor(rows, events, keyOf) && Describes(total, events, Any)
    ensures SumOfRows(rows, pick) == Figure(total, pick)
  {
    EveryClassHere(pick);
    var f := k => Sum(KeyObs(events, keyOf, k), pick);
    forall i | 0 <= i < |rows|
      ensures f(rows[i].key) == Figure(rows[i], pick)
    {
      KeySums(events, keyOf, rows[i].key, e => keyOf(e) == rows[i].key, pick);
    }
    SumOfRowsIsOverKeys(rows, pick, f);
    forall k ensures k in KeysIn(rows) <==> k in KeysOf(events, keyOf) {
      assert k in KeysIn(rows) <==> HasRow(rows, k);
      assert k in KeysOf(events, keyOf) <==> HasEvent(events, keyOf, k);
    }
    RowsSumToTotal(events, keyOf, KeysIn(rows), pick);
    SumCongruent(KeysIn(rows), f, k => Sum(KeyObs(events, keyOf, k), pick));
    AllSums(events, pick);
  }

  // ---------------------------------------------------------------- by outcome

  predicate HasNoOutcome(f: Fetched) {
    !f.payload.waste && f.payload.attributedTo != Some(M.Print)
  }

  lemma {:induction false} ThreeWays(events: seq<Fetched>, pick: Option<Class>)
    ensures Amounts(events, IsPrintOutput, pick) + Amounts(events, IsWaste, pick)
      + Amounts(events, HasNoOutcome, pick) == Amounts(events, Any, pick)
    ensures Count(events, IsPrintOutput) + Count(events, IsWaste) + Count(events, HasNoOutcome) == Count(events, Any)
  {
    if events != [] {
      ThreeWays(events[..|events| - 1], pick);
    }
  }

  /** The first two rows fall short of the total by exactly the events without an outcome. */
  lemma OutcomeRowsFallShort(events: seq<Fetched>, recycleRows: seq<M.RecycleRow>, ms: map<M.Id, M.Material>,
    owner: M.Id, since: int, until: int, rows: seq<Row>, total: Row, pick: Option<Class>)
    requires OutcomeReport(rows, events, recycleRows, ms, owner, since, until) && Describes(total, events, Any)
    ensures Figure(rows[0], pick) + Figure(rows[1], pick) == Figure(total, pick) - Amounts(events, HasNoOutcome, pick)
    ensures rows[0].count + rows[1].count == total.count - Count(events, HasNoOutcome)
  {
    EveryClassHere(pick);
    ThreeWays(events, pick);
  }

  lemma {:induction false} NoneOfThem(events: seq<Fetched>, p: Fetched -> bool, pick: Option<Class>)
    requires forall f :: f in events ==> !p(f)
    ensures Amounts(events, p, pick) == 0.0 && Count(events, p) == 0
  {
    if events != [] {
      assert events[|events| - 1] in events;
      NoneOfThem(events[..|events| - 1], p, pick);
    }
  }

  /** On every ledger that the operations write, what was printed and what was wasted make up the total: in all, under
      each class, and in number. */
  lemma PrintAndWasteAddUp(s: Runs.Sys, owner: M.Id, since: int, until: int, rows: seq<Row>, total: Row,
    pick: Option<Class>)
    requires Runs.Consistent(s)
    requires var events := FetchOf(s.db, s.db.ledger, owner, since, until);
      && OutcomeReport(rows, events, s.db.recycleRows, s.db.materials, owner, since, until)
      && Describes(total, events, Any)
    ensures Figure(rows[0], pick) + Figure(rows[1], pick) == Figure(total, pick)
    ensures rows[0].count + rows[1].count == total.count
  {
    var events := FetchOf(s.db, s.db.ledger, owner, since, until);
    OutcomeRowsFallShort(events, s.db.recycleRows, s.db.materials, owner, since, until, rows, total, pick);
    HandlerEventsHaveOutcome(s.db, s.db.ledger, owner, since, until);
    forall f | f in events ensures !HasNoOutcome(f) {
      assert OutcomeKey(f) in KeysOf(events, OutcomeKey);
    }
    NoneOfThem(events, HasNoOutcome, pick);
  }

  /** What the inventory lost is what the reports say: the total, the owner's mix draws, and the recycled row. */
  lemma InventoryLossIsReported(s: Runs.Sys, owner: M.Id, since: int, until: int, rows: seq<Row>, total: Row)
    requires Runs.Consistent(s) && AtMostOneLoadout(s.db.loadouts)
    requires forall k :: 0 <= k < |s.db.ledger| ==> InWindow(s.db.ledger[k].at, since, until)
    requires var events := FetchOf(s.db, s.db.ledger, owner, since, until);
      && OutcomeReport(rows, events, s.db.recycleRows, s.db.materials, owner, since, until)
      && Describes(total, events, Any)
    ensures SumOver(Owned(s.db.materials, owner),
                    id => if id in s.db.materials then s.db.materials[id].initial - s.db.materials[id].remaining
                      else 0.0)
      == total.total + MixDraws(s.db.ledger, owner) + rows[2].total
  {
    ReportsReconcile(s, owner, since, until);
    AllSums(FetchOf(s.db, s.db.ledger, owner, since, until), None);
    RecycledObsSays(s.db.recycleRows, s.db.materials, owner, since, until, None);
  }

  /** The totals of two adjacent windows add up to the total of both. */
  lemma WindowRowsAdd(rows: seq<ConsumedRow>, ms: map<M.Id, M.Material>, loadouts: seq<M.Loadout>, owner: M.Id,
    a: int, b: int, c: int, first: Row, second: Row, both: Row, pick: Option<Class>)
    requires a <= b <= c
    requires Describes(first, Fetch(rows, ms, loadouts, owner, a, b), Any)
    requires Describes(second, Fetch(rows, ms, loadouts, owner, b, c), Any)
    requires Describes(both, Fetch(rows, ms, loadouts, owner, a, c), Any)
    ensures Figure(first, pick) + Figure(second, pick) == Figure(both, pick)
  {
    EveryClassHere(pick);
    WindowTotalsAdd(rows, ms, loadouts, owner, a, b, c, pick);
    AllSums(Fetch(rows, ms, loadouts, owner, a, b), pick);
    AllSums(Fetch(rows, ms, loadouts, owner, b, c), pick);
    AllSums(Fetch(rows, ms, loadouts, owner, a, c), pick);
  }

  // ---------------------------------------------------------------- the ledger behind the reports

  /** The row a report reads back for a consumption: what the handler wrote. */
  predicate ReadBack(e: M.Event, r: ConsumedRow) {
    && e.Consumed? && r.subject == e.id && r.at == e.at && r.payload.Some?
    && r.payload.value.weight == Some(e.weight) && r.payload.value.unit == Some(KnownUnit(e.unit))
    && r.payload.value.attributedTo == Some(e.attributedTo) && r.payload.value.waste == e.waste
    && match e.provenance
       case Measured => r.provClass == Some(ClassMeasured)
       case Entered => r.provClass == Some(ClassEntered)
       case Estimated => r.provClass == Some(ClassEstimated)
  }

  lemma {:induction false} ConsumedRowsMembers(ledger: seq<M.Event>, r: ConsumedRow)
    ensures r in ConsumedRows(ledger) <==> exists e :: e in ledger && ReadBack(e, r)
  {
    if ledger != [] {
      var init, e := ledger[..|ledger| - 1], ledger[|ledger| - 1];
      assert ledger == init + [e];
      ConsumedRowsMembers(init, r);
      if e.Consumed? {
        var rows := ConsumedRows(ledger);
        assert rows == ConsumedRows(init) + [rows[|rows| - 1]];
        assert r == rows[|rows| - 1] <==> ReadBack(e, r);
      }
    }
  }
}

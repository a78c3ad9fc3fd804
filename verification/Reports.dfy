/** Consumption reports: folding ledger rows into accumulators, and what the folds amount to. */
module Reports {
  import opened Wrappers
  import opened Sums
  import Texts
  import M = Materials

  type Key = Option<string>

  datatype Class = ClassMeasured | ClassEntered | ClassEstimated | ClassDerived | ClassComputed | ClassSystem

  datatype AggregateUnit = One(unit: M.Unit) | Mixed

  /** A stored consumption payload; each field may be absent, and the unit may be unrecognised. */
  datatype RawUnit = KnownUnit(unit: M.Unit) | StrangeUnit

  datatype Payload = Payload(weight: Option<real>, unit: Option<RawUnit>, attributedTo: Option<M.Attribution>,
    waste: bool)

  /** A ledger row of kind material.consumed; the payload is None when it does not parse. */
  datatype ConsumedRow = ConsumedRow(subject: M.Id, at: int, payload: Option<Payload>, provClass: Option<Class>)

  /** One joined row: the event, its material, and the printer of an open loadout if there is one. */
  datatype Fetched = Fetched(payload: Payload, provClass: Option<Class>, material: M.Material, printer: Option<M.Id>)

  /** What an accumulator sees of one row. */
  datatype Obs = Obs(amount: real, provClass: Option<Class>, unit: Option<M.Unit>)

  datatype Row = Row(key: Key, total: real, unit: AggregateUnit, provenance: map<Class, real>, count: nat)

  const ALL_CLASSES: set<Class> :=
    {ClassMeasured, ClassEntered, ClassEstimated, ClassDerived, ClassComputed, ClassSystem}

  // ---------------------------------------------------------------- the simple specification

  /** The amount of an observation, or only if it has the picked class. */
  function Weight(o: Obs, pick: Option<Class>): real {
    if pick == None || o.provClass == pick then o.amount else 0.0
  }

  function Sum(obs: seq<Obs>, pick: Option<Class>): real {
    if obs == [] then 0.0 else Sum(obs[..|obs| - 1], pick) + Weight(obs[|obs| - 1], pick)
  }

  predicate Occurs(obs: seq<Obs>, u: M.Unit) {
    exists o :: o in obs && o.unit == Some(u)
  }

  function UnitOf(obs: seq<Obs>): Option<AggregateUnit> {
    if Occurs(obs, M.G) && Occurs(obs, M.Ml) then Some(Mixed)
    else if Occurs(obs, M.G) then Some(One(M.G))
    else if Occurs(obs, M.Ml) then Some(One(M.Ml))
    else None
  }

  /** The report row of a list of observations: sums over the list and over each class, and the common unit. */
  function RowOf(key: Key, obs: seq<Obs>): Row {
    Row(key, Sum(obs, None), if UnitOf(obs).Some? then UnitOf(obs).value else One(M.G),
        Parts(obs), |obs|)
  }

  /** The amount under each of the six provenance classes. */
  function Parts(obs: seq<Obs>): map<Class, real> {
    map c | c in ALL_CLASSES :: Sum(obs, Some(c))
  }

  // ---------------------------------------------------------------- the accumulator

  function BumpUnit(current: Option<AggregateUnit>, next: Option<M.Unit>): Option<AggregateUnit> {
    if next.None? then current
    else if current.None? then Some(One(next.value))
    else if current == Some(One(next.value)) then current
    else Some(Mixed)
  }

  class Accumulator {
    var total: real
    var unit: Option<AggregateUnit>
    var provenance: map<Class, real>
    var count: nat
    ghost var seen: seq<Obs>

    ghost predicate Valid()
      reads this
    {
      && total == Sum(seen, None) && unit == UnitOf(seen) && count == |seen|
      && provenance == Parts(seen)
    }

    constructor ()
      ensures Valid() && seen == []
    {
      total, unit, count, seen := 0.0, None, 0, [];
      provenance := map c | c in ALL_CLASSES :: 0.0;
    }

    method Increment(o: Obs)
      requires Valid()
      modifies this
      ensures Valid() && seen == old(seen) + [o]
    {
      total := total + o.amount;
      count := count + 1;
      unit := BumpUnit(unit, o.unit);
      if o.provClass.Some? {
        EveryClassListed(o.provClass.value);
        provenance := provenance[o.provClass.value := provenance[o.provClass.value] + o.amount];
      }
      BumpUnitIsUnitOf(seen, o);
      PartsSnoc(seen, o);
      seen := seen + [o];
    }

    method Finalize(key: Key) returns (r: Row)
      requires Valid()
      ensures r == RowOf(key, seen)
      ensures r.key == key && r.total == Sum(seen, None) && r.count == |seen|
      ensures r.provenance.Keys == ALL_CLASSES && forall c :: c in ALL_CLASSES ==> r.provenance[c] == Sum(seen, Some(c))
      ensures UnitFollows(r.unit, Occurs(seen, M.G), Occurs(seen, M.Ml))
    {
      r := Row(key, total, if unit.Some? then unit.value else One(M.G), provenance, count);
    }
  }

  lemma EveryClassListed(c: Class)
    ensures c in ALL_CLASSES
  {
    match c case _ =>
  }

  lemma SumSnoc(obs: seq<Obs>, o: Obs, pick: Option<Class>)
    ensures Sum(obs + [o], pick) == Sum(obs, pick) + Weight(o, pick)
  {
    assert (obs + [o])[..|obs|] == obs;
  }

  /** One more observation adds to its own class and to no other. */
  lemma PartsSnoc(obs: seq<Obs>, o: Obs)
    ensures Sum(obs + [o], None) == Sum(obs, None) + o.amount
    ensures o.provClass.None? ==> Parts(obs + [o]) == Parts(obs)
    ensures o.provClass.Some? ==>
      (o.provClass.value in ALL_CLASSES
       && Parts(obs + [o]) == Parts(obs)[o.provClass.value := Parts(obs)[o.provClass.value] + o.amount])
  {
    SumSnoc(obs, o, None);
    var before, after := Parts(obs), Parts(obs + [o]);
    forall c | c in ALL_CLASSES
      ensures after[c] == before[c] + Weight(o, Some(c))
    {
      SumSnoc(obs, o, Some(c));
    }
    if o.provClass.Some? {
      EveryClassListed(o.provClass.value);
    }
  }

  lemma OccursSnoc(obs: seq<Obs>, o: Obs, u: M.Unit)
    ensures Occurs(obs + [o], u) <==> Occurs(obs, u) || o.unit == Some(u)
  {
    assert o in obs + [o];
    forall p | p in obs ensures p in obs + [o] {
    }
  }

  /** The incremental unit rule computes the specified unit: mixed exactly when both units have occurred. */
  lemma BumpUnitIsUnitOf(obs: seq<Obs>, o: Obs)
    ensures UnitOf(obs + [o]) == BumpUnit(UnitOf(obs), o.unit)
    ensures UnitOf(obs) == Some(Mixed) <==> Occurs(obs, M.G) && Occurs(obs, M.Ml)
  {
    OccursSnoc(obs, o, M.G);
    OccursSnoc(obs, o, M.Ml);
    match o.unit
    case None =>
    case Some(G) =>
    case Some(Ml) =>
  }

  // ---------------------------------------------------------------- fetching

  /** The open loadouts of one material, as printers. */
  function OpenPrinters(loadouts: seq<M.Loadout>, material: M.Id): seq<M.Id> {
    if loadouts == [] then []
    else
      var init := OpenPrinters(loadouts[..|loadouts| - 1], material);
      var l := loadouts[|loadouts| - 1];
      if l.material == material then init + [l.printer] else init
  }

  /** The left join of one event row with the open loadouts. */
  function Join(p: Payload, provClass: Option<Class>, material: M.Material, printers: seq<M.Id>): seq<Fetched> {
    if printers == [] then [Fetched(p, provClass, material, None)]
    else seq(|printers|, i requires 0 <= i < |printers| => Fetched(p, provClass, material, Some(printers[i])))
  }

  predicate InWindow(at: int, since: int, until: int) {
    since <= at < until
  }

  function FetchRow(r: ConsumedRow, ms: map<M.Id, M.Material>, loadouts: seq<M.Loadout>, owner: M.Id, since: int,
    until: int): seq<Fetched> {
    if r.subject in ms && ms[r.subject].owner == owner && InWindow(r.at, since, until) && r.payload.Some?
    then Join(r.payload.value, r.provClass, ms[r.subject], OpenPrinters(loadouts, r.subject))
    else []
  }

  function Fetch(rows: seq<ConsumedRow>, ms: map<M.Id, M.Material>, loadouts: seq<M.Loadout>,
                 owner: M.Id, since: int, until: int): seq<Fetched> {
    if rows == [] then []
    else Fetch(rows[..|rows| - 1], ms, loadouts, owner, since, until)
         + FetchRow(rows[|rows| - 1], ms, loadouts, owner, since, until)
  }

  lemma {:induction false} PrintersMembers(loadouts: seq<M.Loadout>, material: M.Id, p: M.Id)
    ensures p in OpenPrinters(loadouts, material) <==> M.Loadout(p, material) in loadouts
  {
    if loadouts != [] {
      var n := |loadouts| - 1;
      PrintersMembers(loadouts[..n], material, p);
      assert loadouts == loadouts[..n] + [loadouts[n]];
    }
  }

  /** What one event row contributes: with each printer its material is loaded in, or alone if it is loaded in none. */
  ghost predicate Contributes(r: ConsumedRow, f: Fetched, ms: map<M.Id, M.Material>, loadouts: seq<M.Loadout>,
    owner: M.Id, since: int, until: int)
  {
    && r.subject in ms && ms[r.subject].owner == owner && since <= r.at && r.at < until
    && r.payload == Some(f.payload) && f.provClass == r.provClass && f.material == ms[r.subject]
    && match f.printer
       case None => forall l :: l in loadouts ==> l.material != r.subject
       case Some(p) => M.Loadout(p, r.subject) in loadouts
  }

  lemma {:induction false} FetchRowMembers(r: ConsumedRow, f: Fetched, ms: map<M.Id, M.Material>,
    loadouts: seq<M.Loadout>, owner: M.Id, since: int, until: int)
    ensures f in FetchRow(r, ms, loadouts, owner, since, until) <==>
      Contributes(r, f, ms, loadouts, owner, since, until)
  {
    var ps := OpenPrinters(loadouts, r.subject);
    forall p ensures p in ps <==> M.Loadout(p, r.subject) in loadouts {
      PrintersMembers(loadouts, r.subject, p);
    }
    assert ps == [] <==> forall l :: l in loadouts ==> l.material != r.subject by {
      if ps == [] {
        forall l | l in loadouts ensures l.material != r.subject {
          assert l.material == r.subject ==> l == M.Loadout(l.printer, r.subject);
        }
      } else {
        assert ps[0] in ps;
      }
    }
    if Contributes(r, f, ms, loadouts, owner, since, until) && f.printer.Some? {
      var i :| 0 <= i < |ps| && ps[i] == f.printer.value;
      assert FetchRow(r, ms, loadouts, owner, since, until)[i] == f;
    }
  }

  /** The reports are about exactly the owner's events in the half-open window whose payload is readable. */
  lemma {:induction false} FetchMembers(rows: seq<ConsumedRow>, f: Fetched, ms: map<M.Id, M.Material>,
    loadouts: seq<M.Loadout>, owner: M.Id, since: int, until: int)
    ensures f in Fetch(rows, ms, loadouts, owner, since, until)
      <==> exists r :: r in rows && Contributes(r, f, ms, loadouts, owner, since, until)
  {
    if rows != [] {
      var init, r := rows[..|rows| - 1], rows[|rows| - 1];
      FetchMembers(init, f, ms, loadouts, owner, since, until);
      FetchRowMembers(r, f, ms, loadouts, owner, since, until);
      assert rows == init + [r];
    }
  }

  function ObsOf(f: Fetched): Obs {
    Obs(if f.payload.weight.Some? then f.payload.weight.value else 0.0,
        f.provClass,
        match f.payload.unit
        case None => Some(f.material.unit)
        case Some(KnownUnit(u)) => Some(u)
        case Some(StrangeUnit) => None)
  }

  function AllObs(events: seq<Fetched>): seq<Obs> {
    seq(|events|, i requires 0 <= i < |events| => ObsOf(events[i]))
  }

  // ---------------------------------------------------------------- report keys

  function BrandKey(f: Fetched): Key {
    f.material.brand
  }

  function ColorKey(f: Fetched): Key {
    if f.material.colors == [] then None else Some(Texts.Upper(f.material.colors[0]))
  }

  function PrinterKey(f: Fetched): Key {
    f.printer
  }

  /** The observations that fall under one key, in order. */
  function KeyObs(events: seq<Fetched>, keyOf: Fetched -> Key, k: Key): seq<Obs> {
    if events == [] then []
    else
      var init := KeyObs(events[..|events| - 1], keyOf, k);
      var e := events[|events| - 1];
      if keyOf(e) == k then init + [ObsOf(e)] else init
  }

  function KeysOf(events: seq<Fetched>, keyOf: Fetched -> Key): set<Key> {
    set i | 0 <= i < |events| :: keyOf(events[i])
  }

  // ---------------------------------------------------------------- what a row says

  /** The amount of one event; a payload without a weight counts as nothing. */
  function AmountOf(f: Fetched): real {
    if f.payload.weight == None then 0.0 else f.payload.weight.value
  }

  /** The unit the payload names, or the material's where it names none. */
  predicate InUnit(f: Fetched, u: M.Unit) {
    f.payload.unit == Some(KnownUnit(u)) || (f.payload.unit == None && f.material.unit == u)
  }

  /** The amounts of the events that satisfy a predicate, of all classes or of one. */
  function Amounts(events: seq<Fetched>, p: Fetched -> bool, pick: Option<Class>): real {
    if events == [] then 0.0
    else
      var f := events[|events| - 1];
      Amounts(events[..|events| - 1], p, pick)
      + if p(f) && (pick == None || f.provClass == pick) then AmountOf(f) else 0.0
  }

  function Count(events: seq<Fetched>, p: Fetched -> bool): nat {
    if events == [] then 0
    else Count(events[..|events| - 1], p) + if p(events[|events| - 1]) then 1 else 0
  }

  predicate Uses(events: seq<Fetched>, p: Fetched -> bool, u: M.Unit) {
    exists i :: 0 <= i < |events| && p(events[i]) && InUnit(events[i], u)
  }

  /** Grams where nothing has a unit. */
  predicate UnitFollows(unit: AggregateUnit, grams: bool, millilitres: bool) {
    unit == if grams && millilitres then Mixed else if millilitres then One(M.Ml) else One(M.G)
  }

  /** The row is about the events that satisfy the predicate: their total amount, the amount under each of the six
      classes, their number and their unit. */
  ghost predicate Describes(row: Row, events: seq<Fetched>, p: Fetched -> bool) {
    && row.total == Amounts(events, p, None)
    && row.provenance.Keys ==
       {ClassMeasured, ClassEntered, ClassEstimated, ClassDerived, ClassComputed, ClassSystem}
    && (forall c :: c in row.provenance ==> row.provenance[c] == Amounts(events, p, Some(c)))
    && row.count == Count(events, p)
    && UnitFollows(row.unit, Uses(events, p, M.G), Uses(events, p, M.Ml))
  }

  predicate HasRow(rows: seq<Row>, k: Key) {
    exists i :: 0 <= i < |rows| && rows[i].key == k
  }

  predicate HasEvent(events: seq<Fetched>, keyOf: Fetched -> Key, k: Key) {
    exists i :: 0 <= i < |events| && keyOf(events[i]) == k
  }

  /** One row for each key that occurs and no other, about the events that have the key. */
  ghost predicate ReportFor(rows: seq<Row>, events: seq<Fetched>, keyOf: Fetched -> Key) {
    && (forall k :: HasRow(rows, k) <==> HasEvent(events, keyOf, k))
    && (forall i, j :: 0 <= i < j < |rows| ==> rows[i].key != rows[j].key)
    && (forall i :: 0 <= i < |rows| ==> Describes(rows[i], events, f => keyOf(f) == rows[i].key))
  }

  lemma {:induction false} KeySums(events: seq<Fetched>, keyOf: Fetched -> Key, k: Key, p: Fetched -> bool,
    pick: Option<Class>)
    requires forall f :: f in events ==> (p(f) <==> keyOf(f) == k)
    ensures Sum(KeyObs(events, keyOf, k), pick) == Amounts(events, p, pick)
    ensures |KeyObs(events, keyOf, k)| == Count(events, p)
  {
    if events != [] {
      var init, e := events[..|events| - 1], events[|events| - 1];
      assert e in events;
      KeySums(init, keyOf, k, p, pick);
      SumSnoc(KeyObs(init, keyOf, k), ObsOf(e), pick);
    }
  }

  lemma {:induction false} KeyUnits(events: seq<Fetched>, keyOf: Fetched -> Key, k: Key, p: Fetched -> bool, u: M.Unit)
    requires forall f :: f in events ==> (p(f) <==> keyOf(f) == k)
    ensures Occurs(KeyObs(events, keyOf, k), u) <==> Uses(events, p, u)
  {
    if events != [] {
      var n := |events| - 1;
      var init, e := events[..n], events[n];
      assert e in events;
      KeyUnits(init, keyOf, k, p, u);
      OccursSnoc(KeyObs(init, keyOf, k), ObsOf(e), u);
      assert forall i :: 0 <= i < n ==> init[i] == events[i];
      assert InUnit(e, u) <==> ObsOf(e).unit == Some(u);
    }
  }

  /** The fold of the observations under a key is about the events under that key. */
  lemma KeyRow(key: Key, events: seq<Fetched>, keyOf: Fetched -> Key, k: Key, p: Fetched -> bool)
    requires forall f :: f in events ==> (p(f) <==> keyOf(f) == k)
    ensures Describes(RowOf(key, KeyObs(events, keyOf, k)), events, p)
  {
    forall pick ensures Sum(KeyObs(events, keyOf, k), pick) == Amounts(events, p, pick) {
      KeySums(events, keyOf, k, p, pick);
    }
    KeySums(events, keyOf, k, p, None);
    KeyUnits(events, keyOf, k, p, M.G);
    KeyUnits(events, keyOf, k, p, M.Ml);
  }

  lemma {:induction false} AllUnderOneKey(events: seq<Fetched>)
    ensures AllObs(events) == KeyObs(events, f => None, None)
  {
    if events != [] {
      AllUnderOneKey(events[..|events| - 1]);
    }
  }

  predicate Any(f: Fetched) {
    true
  }

  lemma AllRow(key: Key, events: seq<Fetched>)
    ensures Describes(RowOf(key, AllObs(events)), events, Any)
  {
    AllUnderOneKey(events);
    KeyRow(key, events, f => None, None, Any);
  }

  /** A report on some keys is one on any keys that say the same of every event. */
  lemma ReportIs(rows: seq<Row>, events: seq<Fetched>, keyOf: Fetched -> Key, same: Fetched -> Key)
    requires Reported(rows, KeysOf(events, keyOf), events, keyOf)
    requires forall f :: f in events ==> keyOf(f) == same(f)
    ensures ReportFor(rows, events, same)
  {
    forall k ensures HasRow(rows, k) <==> HasEvent(events, same, k) {
      assert k in KeysOf(events, keyOf) <==> HasEvent(events, same, k);
    }
    forall i | 0 <= i < |rows| ensures Describes(rows[i], events, f => same(f) == rows[i].key) {
      KeyRow(rows[i].key, events, keyOf, rows[i].key, f => same(f) == rows[i].key);
    }
  }

  // ---------------------------------------------------------------- the reports

  method TotalConsumption(events: seq<Fetched>) returns (r: Row)
    ensures r == RowOf(None, AllObs(events))
    ensures r.key == None && Describes(r, events, Any)
  {
    var acc := new Accumulator();
    for i := 0 to |events|
      invariant acc.Valid() && fresh(acc)
      invariant acc.seen == AllObs(events[..i])
    {
      acc.Increment(ObsOf(events[i]));
    }
    assert events[..|events|] == events;
    r := acc.Finalize(None);
    AllRow(None, events);
  }

  ghost predicate TotalOrder(le: (string, string) -> bool) {
    && (forall a, b :: le(a, b) || le(b, a))
    && (forall a, b, c :: le(a, b) && le(b, c) ==> le(a, c))
  }

  /** The comparison of the sort. */
  predicate Before(le: (string, string) -> bool, a: Key, b: Key) {
    b == None || (a.Some? && le(a.value, b.value))
  }

  /** By key, rows without a key last. */
  ghost predicate Sorted(le: (string, string) -> bool, rows: seq<Row>) {
    forall i, j :: 0 <= i < j < |rows| && rows[j].key.Some? ==>
      rows[i].key.Some? && le(rows[i].key.value, rows[j].key.value)
  }

  method InsertRow(le: (string, string) -> bool, rows: seq<Row>, r: Row) returns (out: seq<Row>)
    requires TotalOrder(le) && Sorted(le, rows)
    ensures Sorted(le, out)
    ensures exists i :: Inserted(rows, r, i, out)
  {
    var i := 0;
    while i < |rows| && Before(le, rows[i].key, r.key)
      invariant 0 <= i <= |rows|
      invariant forall k :: 0 <= k < i ==> Before(le, rows[k].key, r.key)
    {
      i := i + 1;
    }
    out := rows[..i] + [r] + rows[i..];
    assert Inserted(rows, r, i, out);
  }

  /** One accumulator per key, no two keys sharing one, each having seen exactly its key's events. */
  ghost predicate Filled(buckets: map<Key, Accumulator>, events: seq<Fetched>, keyOf: Fetched -> Key)
    reads buckets.Values
  {
    buckets.Keys == KeysOf(events, keyOf) && FilledWith(buckets, events, keyOf)
  }

  /** Like Filled, except that some buckets may still be empty. */
  ghost predicate FilledWith(buckets: map<Key, Accumulator>, events: seq<Fetched>, keyOf: Fetched -> Key)
    reads buckets.Values
  {
    && (forall k :: k in buckets ==> buckets[k].Valid() && buckets[k].seen == KeyObs(events, keyOf, k))
    && (forall k, l :: k in buckets && l in buckets && k != l ==> buckets[k] != buckets[l])
  }

  method AddToBucket(buckets: map<Key, Accumulator>, ghost events: seq<Fetched>, keyOf: Fetched -> Key, e: Fetched)
    requires FilledWith(buckets, events, keyOf) && keyOf(e) in buckets
    modifies buckets[keyOf(e)]
    ensures FilledWith(buckets, events + [e], keyOf)
  {
    var k := keyOf(e);
    assert (events + [e])[..|events|] == events;
    buckets[k].Increment(ObsOf(e));
    forall l | l in buckets
      ensures buckets[l].Valid() && buckets[l].seen == KeyObs(events + [e], keyOf, l)
    {
      if l != k {
        assert buckets[l] != buckets[k];
      }
    }
  }

  method FillBuckets(events: seq<Fetched>, keyOf: Fetched -> Key) returns (buckets: map<Key, Accumulator>)
    ensures Filled(buckets, events, keyOf) && forall k :: k in buckets ==> fresh(buckets[k])
  {
    buckets := map[];
    for i := 0 to |events|
      invariant forall k :: k in buckets ==> fresh(buckets[k])
      invariant Filled(buckets, events[..i], keyOf)
    {
      assert events[..i + 1] == events[..i] + [events[i]];
      buckets := Bucket(buckets, events[..i], keyOf, events[i]);
    }
    assert events[..|events|] == events;
  }

  /** The body of the bucketing loop: the event goes to its key's accumulator, a new one if the key is new. */
  method Bucket(buckets: map<Key, Accumulator>, ghost events: seq<Fetched>, keyOf: Fetched -> Key, e: Fetched)
    returns (out: map<Key, Accumulator>)
    requires Filled(buckets, events, keyOf)
    modifies if keyOf(e) in buckets then {buckets[keyOf(e)]} else {}
    ensures Filled(out, events + [e], keyOf)
    ensures forall k :: k in out ==> (k in buckets && out[k] == buckets[k]) || fresh(out[k])
  {
    var k := keyOf(e);
    out := buckets;
    if k !in buckets {
      out := OpenBucket(buckets, events, keyOf, k);
    }
    AddToBucket(out, events, keyOf, e);
    KeysOfSnoc(events, e, keyOf);
  }

  /** A new key gets a new accumulator, which has rightly seen nothing yet. */
  method OpenBucket(buckets: map<Key, Accumulator>, ghost events: seq<Fetched>, ghost keyOf: Fetched -> Key, k: Key)
    returns (out: map<Key, Accumulator>)
    requires k !in buckets && Filled(buckets, events, keyOf)
    ensures out.Keys == buckets.Keys + {k} && fresh(out[k])
    ensures forall l :: l in buckets ==> out[l] == buckets[l]
    ensures FilledWith(out, events, keyOf)
  {
    var acc := new Accumulator();
    KeyObsAbsent(events, keyOf, k);
    out := buckets[k := acc];
  }

  /** One row per key that occurs, each the fold of exactly its own events, in key order.
      Brand, colour and printer reports are instances. */
  method ConsumptionBy(events: seq<Fetched>, keyOf: Fetched -> Key, le: (string, string) -> bool)
    returns (rows: seq<Row>)
    requires TotalOrder(le)
    ensures Sorted(le, rows) && Reported(rows, KeysOf(events, keyOf), events, keyOf)
    ensures ReportFor(rows, events, keyOf)
  {
    var buckets := FillBuckets(events, keyOf);
    rows := [];
    var rest := buckets.Keys;
    ghost var done: set<Key> := {};
    while rest != {}
      invariant rest !! done && rest + done == buckets.Keys
      invariant Sorted(le, rows) && Filled(buckets, events, keyOf) && Reported(rows, done, events, keyOf)
      decreases rest
    {
      var k :| k in rest;
      rows := EmitRow(le, buckets, rows, k, done, events, keyOf);
      rest, done := rest - {k}, done + {k};
    }
    ReportIs(rows, events, keyOf, keyOf);
  }

  /** The row of one more key. */
  method EmitRow(le: (string, string) -> bool, buckets: map<Key, Accumulator>, rows: seq<Row>, k: Key,
    ghost done: set<Key>, ghost events: seq<Fetched>, ghost keyOf: Fetched -> Key) returns (more: seq<Row>)
    requires TotalOrder(le) && Sorted(le, rows) && Filled(buckets, events, keyOf)
    requires Reported(rows, done, events, keyOf) && k in buckets && k !in done
    ensures Sorted(le, more) && Reported(more, done + {k}, events, keyOf)
  {
    var r := buckets[k].Finalize(k);
    more := InsertRow(le, rows, r);
    ReportedGrows(rows, r, more, done, events, keyOf);
  }

  method ConsumptionByBrand(events: seq<Fetched>, le: (string, string) -> bool) returns (rows: seq<Row>)
    requires TotalOrder(le)
    ensures Sorted(le, rows) && Reported(rows, KeysOf(events, BrandKey), events, BrandKey)
    ensures ReportFor(rows, events, (f: Fetched) => f.material.brand)
  {
    rows := ConsumptionBy(events, BrandKey, le);
    ReportIs(rows, events, BrandKey, (f: Fetched) => f.material.brand);
  }

  /** The key is the first colour with its letters in upper case, none where there are no colours. */
  predicate IsFirstColor(k: Key, colors: seq<string>) {
    if colors == [] then k == None
    else
      k.Some? && |k.value| == |colors[0]| && forall i :: 0 <= i < |colors[0]| ==>
        var c := colors[0][i];
        k.value[i] == if 'a' <= c <= 'z' then (c as int - 'a' as int + 'A' as int) as char else c
  }

  /** By first colour, in upper case. */
  method ConsumptionByColor(events: seq<Fetched>, le: (string, string) -> bool) returns (rows: seq<Row>)
    requires TotalOrder(le)
    ensures Sorted(le, rows) && Reported(rows, KeysOf(events, ColorKey), events, ColorKey)
    ensures ReportFor(rows, events, ColorKey)
    ensures forall f :: f in events ==> IsFirstColor(ColorKey(f), f.material.colors)
  {
    rows := ConsumptionBy(events, ColorKey, le);
  }

  /** By the printer the material is loaded in now. */
  method ConsumptionByPrinter(events: seq<Fetched>, le: (string, string) -> bool) returns (rows: seq<Row>)
    requires TotalOrder(le)
    ensures Sorted(le, rows) && Reported(rows, KeysOf(events, PrinterKey), events, PrinterKey)
    ensures ReportFor(rows, events, (f: Fetched) => f.printer)
  {
    rows := ConsumptionBy(events, PrinterKey, le);
    ReportIs(rows, events, PrinterKey, (f: Fetched) => f.printer);
  }

  /** One row for each of some keys, each the fold of exactly its own events. */
  ghost predicate Reported(rows: seq<Row>, keys: set<Key>, events: seq<Fetched>, keyOf: Fetched -> Key) {
    && (forall k :: k in keys <==> HasRow(rows, k))
    && (forall i, j :: 0 <= i < j < |rows| ==> rows[i].key != rows[j].key)
    && (forall i :: 0 <= i < |rows| ==> rows[i] == RowOf(rows[i].key, KeyObs(events, keyOf, rows[i].key)))
  }

  lemma ReportedGrows(rows: seq<Row>, r: Row, more: seq<Row>, keys: set<Key>, events: seq<Fetched>,
    keyOf: Fetched -> Key)
    requires Reported(rows, keys, events, keyOf) && r.key !in keys
    requires r == RowOf(r.key, KeyObs(events, keyOf, r.key))
    requires exists i :: Inserted(rows, r, i, more)
    ensures Reported(more, keys + {r.key}, events, keyOf)
  {
    InsertedRows(rows, r, more);
  }

  predicate Inserted(rows: seq<Row>, r: Row, i: nat, more: seq<Row>) {
    i <= |rows| && more == rows[..i] + [r] + rows[i..]
  }

  /** Which row is where after an insertion. */
  lemma InsertedAt(rows: seq<Row>, r: Row, i: nat, more: seq<Row>)
    requires Inserted(rows, r, i, more)
    ensures |more| == |rows| + 1 && more[i] == r
    ensures forall j :: 0 <= j < i ==> more[j] == rows[j]
    ensures forall j :: i < j < |more| ==> more[j] == rows[j - 1]
  {
  }

  lemma InsertedHas(rows: seq<Row>, r: Row, i: nat, more: seq<Row>, k: Key)
    requires Inserted(rows, r, i, more)
    ensures HasRow(more, k) <==> k == r.key || HasRow(rows, k)
  {
    InsertedAt(rows, r, i, more);
    if HasRow(rows, k) {
      var j :| 0 <= j < |rows| && rows[j].key == k;
      assert more[if j < i then j else j + 1] == rows[j];
    }
    if HasRow(more, k) && k != r.key {
      var j :| 0 <= j < |more| && more[j].key == k;
      assert rows[if j < i then j else j - 1] == more[j];
    }
  }

  lemma InsertedApart(rows: seq<Row>, r: Row, i: nat, more: seq<Row>, j: nat, k: nat)
    requires Inserted(rows, r, i, more) && !HasRow(rows, r.key) && j < k < |more|
    requires forall x, y :: 0 <= x < y < |rows| ==> rows[x].key != rows[y].key
    ensures more[j].key != more[k].key
  {
    InsertedAt(rows, r, i, more);
  }

  lemma InsertedIsKnown(rows: seq<Row>, r: Row, i: nat, more: seq<Row>, j: nat)
    requires Inserted(rows, r, i, more) && j < |more|
    ensures more[j] == r || more[j] in rows
  {
    InsertedAt(rows, r, i, more);
  }

  lemma InsertedRows(rows: seq<Row>, r: Row, more: seq<Row>)
    requires !HasRow(rows, r.key) && forall i, j :: 0 <= i < j < |rows| ==> rows[i].key != rows[j].key
    requires exists i :: Inserted(rows, r, i, more)
    ensures forall k :: HasRow(more, k) <==> k == r.key || HasRow(rows, k)
    ensures forall i, j :: 0 <= i < j < |more| ==> more[i].key != more[j].key
    ensures forall j :: 0 <= j < |more| ==> more[j] == r || more[j] in rows
  {
    var i: nat :| Inserted(rows, r, i, more);
    forall k ensures HasRow(more, k) <==> k == r.key || HasRow(rows, k) {
      InsertedHas(rows, r, i, more, k);
    }
    forall j, k | 0 <= j < k < |more| ensures more[j].key != more[k].key {
      InsertedApart(rows, r, i, more, j, k);
    }
    forall j | 0 <= j < |more| ensures more[j] == r || more[j] in rows {
      InsertedIsKnown(rows, r, i, more, j);
    }
  }

  lemma KeysOfSnoc(events: seq<Fetched>, e: Fetched, keyOf: Fetched -> Key)
    ensures KeysOf(events + [e], keyOf) == KeysOf(events, keyOf) + {keyOf(e)}
  {
    var all := events + [e];
    assert all[|events|] == e;
    forall i | 0 <= i < |events| ensures keyOf(events[i]) in KeysOf(all, keyOf) {
      assert all[i] == events[i];
    }
  }

  lemma {:induction false} KeyObsAbsent(events: seq<Fetched>, keyOf: Fetched -> Key, k: Key)
    requires k !in KeysOf(events, keyOf)
    ensures KeyObs(events, keyOf, k) == []
  {
    if events != [] {
      var init := events[..|events| - 1];
      assert events == init + [events[|events| - 1]];
      KeysOfSnoc(init, events[|events| - 1], keyOf);
      KeyObsAbsent(init, keyOf, k);
    }
  }

  // ---------------------------------------------------------------- laws of the reports

  /** Bucketing loses nothing: over all keys the row totals (and each provenance part) add up to the whole. */
  lemma {:induction false} RowsSumToTotal(events: seq<Fetched>, keyOf: Fetched -> Key, keys: set<Key>,
    pick: Option<Class>)
    requires KeysOf(events, keyOf) <= keys
    ensures SumOver(keys, k => Sum(KeyObs(events, keyOf, k), pick)) == Sum(AllObs(events), pick)
  {
    var f := k => Sum(KeyObs(events, keyOf, k), pick);
    if events == [] {
      SumPoint(keys, f, None);
    } else {
      var init, e := events[..|events| - 1], events[|events| - 1];
      assert events == init + [e];
      KeysOfSnoc(init, e, keyOf);
      RowsSumToTotal(init, keyOf, keys, pick);
      RowsGrowBy(init, e, keyOf, keys, pick);
      assert AllObs(events) == AllObs(init) + [ObsOf(e)];
      SumSnoc(AllObs(init), ObsOf(e), pick);
    }
  }

  /** One more event adds its amount to the sum over the keys. */
  lemma RowsGrowBy(init: seq<Fetched>, e: Fetched, keyOf: Fetched -> Key, keys: set<Key>, pick: Option<Class>)
    requires keyOf(e) in keys
    ensures SumOver(keys, k => Sum(KeyObs(init + [e], keyOf, k), pick)) ==
      SumOver(keys, k => Sum(KeyObs(init, keyOf, k), pick)) + Weight(ObsOf(e), pick)
  {
    var f := k => Sum(KeyObs(init + [e], keyOf, k), pick);
    var g := k => Sum(KeyObs(init, keyOf, k), pick);
    var h := k => if k == keyOf(e) then Weight(ObsOf(e), pick) else 0.0;
    assert (init + [e])[..|init|] == init;
    forall k | k in keys ensures f(k) == g(k) + h(k) {
      SumSnoc(KeyObs(init, keyOf, k), ObsOf(e), pick);
    }
    SumAdd(keys, g, h, f);
    SumPoint(keys, h, keyOf(e));
  }

  function Unclassed(obs: seq<Obs>): real {
    if obs == [] then 0.0
    else Unclassed(obs[..|obs| - 1]) + if obs[|obs| - 1].provClass.None? then obs[|obs| - 1].amount else 0.0
  }

  /** The sum over all six classes. */
  function SumOfParts(obs: seq<Obs>): real {
    Sum(obs, Some(ClassMeasured)) + Sum(obs, Some(ClassEntered)) + Sum(obs, Some(ClassEstimated))
    + Sum(obs, Some(ClassDerived)) + Sum(obs, Some(ClassComputed)) + Sum(obs, Some(ClassSystem))
  }

  lemma SumOfPartsGrows(init: seq<Obs>, o: Obs)
    ensures SumOfParts(init + [o]) == SumOfParts(init) + if o.provClass.None? then 0.0 else o.amount
  {
    SumSnoc(init, o, Some(ClassMeasured));
    SumSnoc(init, o, Some(ClassEntered));
    SumSnoc(init, o, Some(ClassEstimated));
    SumSnoc(init, o, Some(ClassDerived));
    SumSnoc(init, o, Some(ClassComputed));
    SumSnoc(init, o, Some(ClassSystem));
    if o.provClass.Some? {
      match o.provClass.value case ClassMeasured => case ClassEntered => case ClassEstimated =>
      case ClassDerived => case ClassComputed => case ClassSystem =>
    }
  }

  /** The six provenance parts fall short of the total by exactly the amounts of unknown class. */
  lemma {:induction false} ProvenancePartsSum(obs: seq<Obs>)
    ensures SumOfParts(obs) == Sum(obs, None) - Unclassed(obs)
    ensures (forall o :: o in obs ==> o.provClass.Some?) ==> Unclassed(obs) == 0.0
  {
    if obs != [] {
      var init, o := obs[..|obs| - 1], obs[|obs| - 1];
      ProvenancePartsSum(init);
      assert obs == init + [o];
      SumOfPartsGrows(init, o);
      SumSnoc(init, o, None);
    }
  }

  lemma {:induction false} SumRemoveAt(obs: seq<Obs>, i: nat, pick: Option<Class>)
    requires i < |obs|
    ensures Sum(obs, pick) == Sum(obs[..i] + obs[i + 1..], pick) + Weight(obs[i], pick)
  {
    var n := |obs| - 1;
    if i == n {
      assert obs[..i] + obs[i + 1..] == obs[..n];
    } else {
      SumRemoveAt(obs[..n], i, pick);
      assert obs[..n][..i] == obs[..i];
      assert obs[..i] + obs[i + 1..] == (obs[..n][..i] + obs[..n][i + 1..]) + [obs[n]];
      SumSnoc(obs[..n][..i] + obs[..n][i + 1..], obs[n], pick);
    }
  }

  /** A permutation contains the last element, and dropping it leaves a permutation of the rest. */
  lemma MatchLast<T>(xs: seq<T>, ys: seq<T>) returns (i: nat)
    requires multiset(xs) == multiset(ys) && xs != []
    ensures i < |ys| && ys[i] == xs[|xs| - 1]
    ensures multiset(xs[..|xs| - 1]) == multiset(ys[..i] + ys[i + 1..])
  {
    var n := |xs| - 1;
    assert xs == xs[..n] + [xs[n]];
    assert xs[n] in multiset(xs);
    assert xs[n] in ys;
    i :| 0 <= i < |ys| && ys[i] == xs[n];
    assert ys == ys[..i] + [ys[i]] + ys[i + 1..];
    var a, b, one := multiset(xs[..n]), multiset(ys[..i] + ys[i + 1..]), multiset{xs[n]};
    assert multiset(xs) == a + one && multiset(ys) == b + one;
    CancelOne(a, b, one);
  }

  lemma CancelOne<T>(a: multiset<T>, b: multiset<T>, one: multiset<T>)
    requires a + one == b + one
    ensures a == b
  {
    forall e ensures a[e] == b[e] {
      assert (a + one)[e] == (b + one)[e];
    }
  }

  /** Report sums do not depend on the order of the events. */
  lemma {:induction false} SumOrderIndependent(xs: seq<Obs>, ys: seq<Obs>, pick: Option<Class>)
    requires multiset(xs) == multiset(ys)
    ensures Sum(xs, pick) == Sum(ys, pick)
    decreases |xs|
  {
    if xs == [] {
      assert |multiset(ys)| == |ys|;
    } else {
      var n := |xs| - 1;
      var i := MatchLast(xs, ys);
      var ys' := ys[..i] + ys[i + 1..];
      SumOrderIndependent(xs[..n], ys', pick);
      SumRemoveAt(ys, i, pick);
    }
  }

  /** Whole rows do not depend on the order of the events either. */
  lemma RowOrderIndependent(key: Key, xs: seq<Obs>, ys: seq<Obs>)
    requires multiset(xs) == multiset(ys)
    ensures RowOf(key, xs) == RowOf(key, ys)
  {
    forall pick ensures Sum(xs, pick) == Sum(ys, pick) {
      SumOrderIndependent(xs, ys, pick);
    }
    forall o ensures o in xs <==> o in ys {
      assert o in xs <==> o in multiset(xs);
      assert o in ys <==> o in multiset(ys);
    }
    assert |xs| == |multiset(xs)| == |multiset(ys)| == |ys|;
  }

  /** Two adjacent half-open windows fetch, together, exactly what the joined window fetches. */
  lemma {:induction false} AdjacentWindows(rows: seq<ConsumedRow>, ms: map<M.Id, M.Material>, loadouts: seq<M.Loadout>,
                                           owner: M.Id, a: int, b: int, c: int)
    requires a <= b <= c
    ensures multiset(Fetch(rows, ms, loadouts, owner, a, b)) + multiset(Fetch(rows, ms, loadouts, owner, b, c))
            == multiset(Fetch(rows, ms, loadouts, owner, a, c))
  {
    if rows != [] {
      var init, r := rows[..|rows| - 1], rows[|rows| - 1];
      AdjacentWindows(init, ms, loadouts, owner, a, b, c);
      assert multiset(FetchRow(r, ms, loadouts, owner, a, b)) + multiset(FetchRow(r, ms, loadouts, owner, b, c))
          == multiset(FetchRow(r, ms, loadouts, owner, a, c));
    }
  }

  lemma {:induction false} SumConcat(xs: seq<Obs>, ys: seq<Obs>, pick: Option<Class>)
    ensures Sum(xs + ys, pick) == Sum(xs, pick) + Sum(ys, pick)
  {
    if ys == [] {
      assert xs + ys == xs;
    } else {
      var n := |ys| - 1;
      SumConcat(xs, ys[..n], pick);
      assert (xs + ys)[..|xs| + n] == xs + ys[..n];
    }
  }

  lemma {:induction false} AllObsMultiset(xs: seq<Fetched>, ys: seq<Fetched>)
    requires multiset(xs) == multiset(ys)
    ensures multiset(AllObs(xs)) == multiset(AllObs(ys))
    decreases |xs|
  {
    if xs == [] {
      assert |multiset(ys)| == |ys|;
    } else {
      var n := |xs| - 1;
      var i := MatchLast(xs, ys);
      var ys' := ys[..i] + ys[i + 1..];
      AllObsMultiset(xs[..n], ys');
      assert AllObs(xs) == AllObs(xs[..n]) + [ObsOf(xs[n])];
      assert AllObs(ys) == AllObs(ys[..i]) + [ObsOf(ys[i])] + AllObs(ys[i + 1..]);
      assert AllObs(ys') == AllObs(ys[..i]) + AllObs(ys[i + 1..]);
    }
  }

  /** Hence totals, and each provenance part, of adjacent windows add up. */
  lemma WindowTotalsAdd(rows: seq<ConsumedRow>, ms: map<M.Id, M.Material>, loadouts: seq<M.Loadout>,
                        owner: M.Id, a: int, b: int, c: int, pick: Option<Class>)
    requires a <= b <= c
    ensures Sum(AllObs(Fetch(rows, ms, loadouts, owner, a, b)), pick) +
      Sum(AllObs(Fetch(rows, ms, loadouts, owner, b, c)), pick)
            == Sum(AllObs(Fetch(rows, ms, loadouts, owner, a, c)), pick)
  {
    var xs, ys, zs := Fetch(rows, ms, loadouts, owner, a, b), Fetch(rows, ms, loadouts, owner, b, c),
      Fetch(rows, ms, loadouts, owner, a, c);
    AdjacentWindows(rows, ms, loadouts, owner, a, b, c);
    AllObsMultiset(xs + ys, zs);
    assert AllObs(xs + ys) == AllObs(xs) + AllObs(ys);
    SumOrderIndependent(AllObs(xs + ys), AllObs(zs), pick);
    SumConcat(AllObs(xs), AllObs(ys), pick);
  }
}

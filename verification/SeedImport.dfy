/** The resin catalog: creating and updating products, and the seed importer that drives both. */
module SeedImport {
  import opened Wrappers
  import Texts
  import Colors
  import ColorTransform

  type Id = string

  /** A subtype as it reaches the catalog: a name, or what an inherited key of the alias table yields. */
  datatype SubtypeName = Named(name: string) | Inherited

  /** The columns a patch may change. `details` stands for those that are stored and compared but never validated. */
  datatype Body = Body(brand: string, subtype: SubtypeName, colors: Option<seq<string>>,
    materialClass: Option<string>, details: string)

  /** A catalog row, timestamps aside. */
  datatype Product = Product(body: Body, owner: Option<string>, source: string)

  datatype Actor = Actor(user: string, admin: bool)

  datatype Input = Input(id: Id, body: Body, owner: Option<string>, source: string, actor: Actor)

  type Table = map<Id, Product>

  datatype Refusal =
    | BrandRequired | InvalidSource | InvalidSubtype | InvalidMaterialClass | SourceOwnerMismatch
    | CannotImpersonateOwner | AdminRequired | ColorsTooMany | ColorFormat | IdConflict | IdRequired
    | NotFound | PersistFailed

  const SUBTYPES :=
    {"standard", "tough", "flexible", "water-washable", "dental-Class-I", "dental-Class-II", "high-temp", "ceramic",
     "engineering", "translucent", "casting", "medical", "model", "abs-like", "plant-based", "other"}

  const MATERIAL_CLASSES := {"consumer", "industrial", "medical-Class-I", "medical-Class-IIa"}

  const PRODUCT_SOURCES := {"system:spoolmandb", "system:open-filament-db", "system:polymaker-preset",
    "community-pr", "user"}

  // ---------------------------------------------------------------- validation

  function ValidateSourceOwnership(source: string, owner: Option<string>, actor: Actor): Option<Refusal> {
    if source == "user" then
      if owner == None || owner == Some("") then Some(SourceOwnerMismatch)
      else if owner != Some(actor.user) then Some(CannotImpersonateOwner)
      else None
    else if owner != None then Some(SourceOwnerMismatch)
    else if !actor.admin then Some(AdminRequired)
    else None
  }

  /** Only its owner may change a user's row, only an admin a system row. */
  function ValidateMutateExisting(owner: Option<string>, actor: Actor): Option<Refusal> {
    if owner == None then (if actor.admin then None else Some(AdminRequired))
    else if owner != Some(actor.user) then Some(NotFound)
    else None
  }

  function ValidateColors(colors: Option<seq<string>>): Result<Option<seq<string>>, Refusal> {
    if colors.None? || colors.value == [] then Success(None)
    else if |colors.value| > 4 then Failure(ColorsTooMany)
    else if exists c :: c in colors.value && !Colors.IsHexColor(c) then Failure(ColorFormat)
    else Success(Some(Colors.UpperAll(colors.value)))
  }

  /** What is stored for a body whose colours are valid. */
  function Stored(b: Body): Body {
    b.(colors := if b.colors.None? || b.colors.value == [] then None else Some(Colors.UpperAll(b.colors.value)))
  }

  /** The checks of a patch, in their order: the brand comes last. */
  function ValidatePatch(b: Body): Option<Refusal> {
    if b.subtype.Inherited? || b.subtype.name !in SUBTYPES then Some(InvalidSubtype)
    else if b.materialClass.Some? && b.materialClass.value !in MATERIAL_CLASSES then Some(InvalidMaterialClass)
    else match ValidateColors(b.colors)
      case Failure(problem) => Some(problem)
      case Success(_) => if b.brand == "" then Some(BrandRequired) else None
  }

  /** The checks of product creation, before the table is looked at. */
  function ValidateInput(x: Input): Option<Refusal> {
    if x.body.brand == "" then Some(BrandRequired)
    else if x.source !in PRODUCT_SOURCES then Some(InvalidSource)
    else if x.body.subtype.Inherited? || x.body.subtype.name !in SUBTYPES then Some(InvalidSubtype)
    else if x.body.materialClass.Some? && x.body.materialClass.value !in MATERIAL_CLASSES then
      Some(InvalidMaterialClass)
    else if ValidateSourceOwnership(x.source, x.owner, x.actor).Some? then
      ValidateSourceOwnership(x.source, x.owner, x.actor)
    else match ValidateColors(x.body.colors)
      case Failure(problem) => Some(problem)
      case Success(_) => None
  }

  function NewRow(x: Input): Product {
    Product(Stored(x.body), x.owner, x.source)
  }

  /** What the replay test compares: everything but the timestamps, colours in upper case. */
  function CompareKey(p: Product): Product {
    p.(body := p.body.(colors := if p.body.colors.Some? then Some(Colors.UpperAll(p.body.colors.value)) else None))
  }

  datatype Created = Fresh | Replayed

  function Create(t: Table, x: Input): (Table, Result<Created, Refusal>) {
    if ValidateInput(x).Some? then (t, Failure(ValidateInput(x).value))
    else if x.id in t then
      if x.id == "" then (t, Failure(PersistFailed))
      else if CompareKey(t[x.id]) == CompareKey(NewRow(x)) then (t, Success(Replayed))
      else (t, Failure(IdConflict))
    else (t[x.id := NewRow(x)], Success(Fresh))
  }

  function Update(t: Table, id: Id, patch: Body, actor: Actor): (Table, Result<(), Refusal>) {
    if id == "" then (t, Failure(IdRequired))
    else if id !in t then (t, Failure(NotFound))
    else if ValidateMutateExisting(t[id].owner, actor).Some? then
      (t, Failure(ValidateMutateExisting(t[id].owner, actor).value))
    else if ValidatePatch(patch).Some? then (t, Failure(ValidatePatch(patch).value))
    else (t[id := t[id].(body := Stored(patch))], Success(()))
  }

  // ---------------------------------------------------------------- one product

  datatype Mode = DryRun | Skip | Overwrite

  datatype Counter = CInserted | CUpdated | CReplayed | CSkipped | CInvalidSubtype | CErrors

  function Apply(t: Table, x: Input, mode: Mode): (Table, Counter) {
    if mode.DryRun? then (t, CInserted)
    else
      var created := Create(t, x);
      if created.1 == Success(Fresh) then (created.0, CInserted)
      else if created.1 == Success(Replayed) then (t, CReplayed)
      else if created.1 != Failure(IdConflict) then (t, CErrors)
      else if mode.Skip? then (t, CSkipped)
      else
        var updated := Update(t, x.id, x.body, x.actor);
        (updated.0, if updated.1.Success? then CUpdated else CErrors)
  }

  // ---------------------------------------------------------------- the transform

  datatype RawProduct = RawProduct(isObject: bool, id: string, productLine: string, subtype: string,
    colors: seq<string>, colorName: string, materialClass: Option<string>, details: string)

  /** A seed file; a brand that is not a string and products that are not an array are absent. */
  datatype SeedFile = SeedFile(stem: string, brand: Option<string>, products: Option<seq<RawProduct>>)

  datatype Refused = RefusedSubtype | RefusedShape | RefusedBrand

  /** Text functions with tables of their own. */
  datatype Text = Text(slug: string -> string, canonicalBrand: string -> string)

  function SubtypeAlias(key: string): Option<string> {
    match key
    case "standard" => Some(key) case "tough" => Some(key) case "flexible" => Some(key) case "ceramic" => Some(key)
    case "engineering" => Some(key) case "translucent" => Some(key) case "casting" => Some(key)
    case "medical" => Some(key) case "model" => Some(key)
    case "water washable" => Some("water-washable") case "water-washable" => Some(key)
    case "high temp" => Some("high-temp") case "high-temp" => Some(key)
    case "plant based" => Some("plant-based") case "plant-based" => Some(key)
    case "abs like" => Some("abs-like") case "abs-like" => Some(key)
    case "dental class i" => Some("dental-Class-I") case "dental-class-i" => Some("dental-Class-I")
    case "dental class ii" => Some("dental-Class-II") case "dental-class-ii" => Some("dental-Class-II")
    case _ => None
  }

  function NormalizeSubtype(raw: string): Option<SubtypeName> {
    var key := Texts.Lower(ColorTransform.Trim(raw));
    if raw == "" then None
    else if raw in SUBTYPES then Some(Named(raw))
    else if SubtypeAlias(key).Some? then Some(Named(SubtypeAlias(key).value))
    else if key in ColorTransform.INHERITED_KEYS then Some(Inherited)
    else None
  }

  /** The id of a product without one of its own: the same names give the same id. */
  function BuildId(text: Text, brand: string, productLine: string, seed: string): (id: Id)
    ensures id != ""
  {
    "system:community-pr:" + text.slug(brand) + ":" + text.slug(productLine) + ":" + text.slug(seed)
  }

  function SeedName(raw: RawProduct, subtype: SubtypeName): string {
    if raw.colorName != "" then raw.colorName else if subtype.Named? then subtype.name else ""
  }

  function TransformOne(text: Text, brand: string, raw: RawProduct, user: string): Result<Input, Refused> {
    if !raw.isObject then Failure(RefusedShape)
    else
      var subtype := NormalizeSubtype(raw.subtype);
      if subtype.None? then Failure(RefusedSubtype)
      else
        var colors := ColorTransform.NormalizeAll(raw.colors);
        var class_ := if raw.materialClass.Some? && raw.materialClass.value in MATERIAL_CLASSES then
          raw.materialClass else None;
        var id := if raw.id != "" then raw.id else BuildId(text, brand, raw.productLine, SeedName(raw, subtype.value));
        Success(Input(id, Body(brand, subtype.value, if colors == [] then None else Some(colors), class_, raw.details),
                      None, "community-pr", Actor(user, true)))
  }

  function TransformAll(text: Text, brand: string, products: seq<RawProduct>,
    user: string): (r: seq<Result<Input, Refused>>)
    ensures |r| == |products|
  {
    if products == [] then []
    else
      var init := products[..|products| - 1];
      TransformAll(text, brand, init, user) + [TransformOne(text, brand, products[|products| - 1], user)]
  }

  function AllRefused(n: nat): (r: seq<Result<Input, Refused>>)
    ensures |r| == n && forall k :: 0 <= k < n ==> r[k] == Failure(RefusedBrand)
  {
    if n == 0 then [] else AllRefused(n - 1) + [Failure(RefusedBrand)]
  }

  function Transform(text: Text, file: SeedFile, user: string): seq<Result<Input, Refused>> {
    var products := if file.products.None? then [] else file.products.value;
    var brand := if file.brand.None? then "" else text.canonicalBrand(file.brand.value);
    if brand == "" then AllRefused(|products|) else TransformAll(text, brand, products, user)
  }

  // ---------------------------------------------------------------- a whole import

  /** What becomes of one considered product: its payload, or the reason there is none. */
  function Outcome(t: Table, r: Result<Input, Refused>, mode: Mode): (Table, Counter) {
    match r
    case Failure(RefusedSubtype) => (t, CInvalidSubtype)
    case Failure(_) => (t, CErrors)
    case Success(x) => Apply(t, x, mode)
  }

  function Fold(t: Table, items: seq<Result<Input, Refused>>, mode: Mode): Table {
    if items == [] then t
    else Outcome(Fold(t, items[..|items| - 1], mode), items[|items| - 1], mode).0
  }

  /** Every product the files offer, in order. */
  function Considered(text: Text, files: seq<SeedFile>, user: string): seq<Result<Input, Refused>> {
    if files == [] then []
    else Considered(text, files[..|files| - 1], user) + Transform(text, files[|files| - 1], user)
  }

  function Matching(files: seq<SeedFile>, stem: Option<string>): seq<SeedFile> {
    if files == [] || stem.None? || stem.value == "" then files
    else
      var init := Matching(files[..|files| - 1], stem);
      if Texts.Lower(files[|files| - 1].stem) == Texts.Lower(stem.value) then init + [files[|files| - 1]] else init
  }

  datatype Stats = Stats(filesProcessed: nat, productsConsidered: nat, inserted: nat, updated: nat, replayed: nat,
                         skipped: nat, invalidSubtype: nat, errors: nat)

  const EMPTY_STATS := Stats(0, 0, 0, 0, 0, 0, 0, 0)

  function Bump(s: Stats, c: Counter): Stats {
    match c
    case CInserted => s.(inserted := s.inserted + 1)
    case CUpdated => s.(updated := s.updated + 1)
    case CReplayed => s.(replayed := s.replayed + 1)
    case CSkipped => s.(skipped := s.skipped + 1)
    case CInvalidSubtype => s.(invalidSubtype := s.invalidSubtype + 1)
    case CErrors => s.(errors := s.errors + 1)
  }

  function Counted(s: Stats): nat {
    s.inserted + s.updated + s.replayed + s.skipped + s.invalidSubtype + s.errors
  }

  /** How many considered products a run counts in one counter. */
  function HowMany(t: Table, items: seq<Result<Input, Refused>>, mode: Mode, c: Counter): nat {
    if items == [] then 0
    else
      var init := items[..|items| - 1];
      HowMany(t, init, mode, c) + if Outcome(Fold(t, init, mode), items[|items| - 1], mode).1 == c then 1 else 0
  }

  predicate StatsOf(s: Stats, t: Table, items: seq<Result<Input, Refused>>, mode: Mode) {
    && s.productsConsidered == |items|
    && s.inserted == HowMany(t, items, mode, CInserted) && s.updated == HowMany(t, items, mode, CUpdated)
    && s.replayed == HowMany(t, items, mode, CReplayed) && s.skipped == HowMany(t, items, mode, CSkipped)
    && s.invalidSubtype == HowMany(t, items, mode, CInvalidSubtype) && s.errors == HowMany(t, items, mode, CErrors)
  }

  class Importer {
    const text: Text
    const user: string
    const mode: Mode
    var table: Table
    var stats: Stats

    constructor (text: Text, user: string, mode: Mode, table: Table)
      ensures this.text == text && this.user == user && this.mode == mode && this.table == table && stats == EMPTY_STATS
    {
      this.text, this.user, this.mode, this.table, stats := text, user, mode, table, EMPTY_STATS;
    }

    method CreateProduct(x: Input) returns (r: Result<Created, Refusal>)
      modifies this`table
      ensures (table, r) == Create(old(table), x)
    {
      if ValidateInput(x).Some? {
        return Failure(ValidateInput(x).value);
      }
      if x.id != "" && x.id in table {
        if CompareKey(table[x.id]) == CompareKey(NewRow(x)) {
          return Success(Replayed);
        }
        return Failure(IdConflict);
      }
      if x.id in table {
        return Failure(PersistFailed);
      }
      table := table[x.id := NewRow(x)];
      return Success(Fresh);
    }

    method UpdateProduct(id: Id, patch: Body, actor: Actor) returns (r: Result<(), Refusal>)
      modifies this`table
      ensures (table, r) == Update(old(table), id, patch, actor)
    {
      if id == "" {
        return Failure(IdRequired);
      }
      if id !in table {
        return Failure(NotFound);
      }
      var guard := ValidateMutateExisting(table[id].owner, actor);
      if guard.Some? {
        return Failure(guard.value);
      }
      if ValidatePatch(patch).Some? {
        return Failure(ValidatePatch(patch).value);
      }
      table := table[id := table[id].(body := Stored(patch))];
      return Success(());
    }

    method ApplyOne(x: Input)
      modifies this
      ensures table == Apply(old(table), x, mode).0
      ensures stats == Bump(old(stats), Apply(old(table), x, mode).1)
    {
      if mode.DryRun? {
        stats := stats.(inserted := stats.inserted + 1);
        return;
      }
      var result := CreateProduct(x);
      if result.Success? {
        if result.value.Replayed? {
          stats := stats.(replayed := stats.replayed + 1);
        } else {
          stats := stats.(inserted := stats.inserted + 1);
        }
        return;
      }
      if result.error.IdConflict? {
        if mode.Overwrite? && x.id != "" {
          var updated := UpdateProduct(x.id, x.body, x.actor);
          if updated.Success? {
            stats := stats.(updated := stats.updated + 1);
          } else {
            stats := stats.(errors := stats.errors + 1);
          }
          return;
        }
        stats := stats.(skipped := stats.skipped + 1);
        return;
      }
      stats := stats.(errors := stats.errors + 1);
    }

    /** These products have been imported into this table. */
    ghost predicate Imported(before: Table, done: seq<Result<Input, Refused>>) reads this {
      table == Fold(before, done, mode) && StatsOf(stats, before, done, mode)
    }

    /** The body of the inner loop. */
    method ImportProduct(r: Result<Input, Refused>, ghost before: Table, ghost done: seq<Result<Input, Refused>>)
      requires Imported(before, done)
      modifies this
      ensures Imported(before, done + [r])
      ensures stats.filesProcessed == old(stats).filesProcessed
    {
      FoldOne(before, done, r, mode);
      stats := stats.(productsConsidered := stats.productsConsidered + 1);
      match r {
        case Failure(RefusedSubtype) =>
          stats := stats.(invalidSubtype := stats.invalidSubtype + 1);
        case Failure(_) =>
          stats := stats.(errors := stats.errors + 1);
        case Success(x) =>
          ApplyOne(x);
      }
    }

    method ImportFile(file: SeedFile, ghost before: Table, ghost items: seq<Result<Input, Refused>>)
      requires Imported(before, items)
      modifies this
      ensures Imported(before, items + Transform(text, file, user))
      ensures stats.filesProcessed == old(stats).filesProcessed + 1
    {
      stats := stats.(filesProcessed := stats.filesProcessed + 1);
      var transformed := Transform(text, file, user);
      assert items + transformed[..0] == items;
      for i := 0 to |transformed|
        invariant Imported(before, items + transformed[..i])
        invariant stats.filesProcessed == old(stats).filesProcessed + 1
      {
        ImportProduct(transformed[i], before, items + transformed[..i]);
        assert items + transformed[..i + 1] == items + transformed[..i] + [transformed[i]];
      }
      assert transformed[..|transformed|] == transformed;
    }

    /** Imports what could be loaded, or reports that nothing could. */
    method RunImport(loaded: Option<seq<SeedFile>>, brand: Option<string>)
      modifies this
      ensures loaded.None? ==> table == old(table) && stats == EMPTY_STATS.(errors := 1)
      ensures loaded.Some? ==>
        var files := Matching(loaded.value, brand);
        var items := Considered(text, files, user);
        && table == Fold(old(table), items, mode) && StatsOf(stats, old(table), items, mode)
        && stats.filesProcessed == |files| && Counted(stats) == stats.productsConsidered
    {
      stats := EMPTY_STATS;
      if loaded.None? {
        stats := stats.(errors := 1);
        return;
      }
      var files := Matching(loaded.value, brand);
      ImportFiles(files);
      CountersSum(old(table), Considered(text, files, user), mode);
    }

    /** The outer loop. */
    method ImportFiles(files: seq<SeedFile>)
      requires stats == EMPTY_STATS
      modifies this
      ensures Imported(old(table), Considered(text, files, user)) && stats.filesProcessed == |files|
    {
      ghost var before := table;
      for i := 0 to |files|
        invariant Imported(before, Considered(text, files[..i], user))
        invariant stats.filesProcessed == i
      {
        ConsideredSnoc(text, files, i, user);
        ImportFile(files[i], before, Considered(text, files[..i], user));
      }
      assert files[..|files|] == files;
    }
  }

  lemma ConsideredSnoc(text: Text, files: seq<SeedFile>, i: nat, user: string)
    requires i < |files|
    ensures Considered(text, files[..i + 1], user) ==
      Considered(text, files[..i], user) + Transform(text, files[i], user)
  {
    assert files[..i + 1][..i] == files[..i];
  }

  lemma FoldOne(t: Table, items: seq<Result<Input, Refused>>, r: Result<Input, Refused>, mode: Mode)
    ensures Fold(t, items + [r], mode) == Outcome(Fold(t, items, mode), r, mode).0
    ensures forall c ::
      HowMany(t, items + [r], mode, c) ==
        HowMany(t, items, mode, c) + (if Outcome(Fold(t, items, mode), r, mode).1 == c then 1 else 0)
  {
    assert (items + [r])[..|items|] == items;
  }

  /** Each considered product is counted in exactly one outcome counter. */
  lemma {:induction false} CountersSum(t: Table, items: seq<Result<Input, Refused>>, mode: Mode)
    ensures HowMany(t, items, mode, CInserted) + HowMany(t, items, mode, CUpdated) +
      HowMany(t, items, mode, CReplayed) +
      HowMany(t, items, mode, CSkipped) + HowMany(t, items, mode, CInvalidSubtype) +
        HowMany(t, items, mode, CErrors) == |items|
  {
    if items != [] {
      CountersSum(t, items[..|items| - 1], mode);
    }
  }

  // ---------------------------------------------------------------- what an import leaves behind

  /** Rows as every writer stores them: colours in upper case, none rather than an empty list. */
  predicate Normal(p: Product) {
    p.body == Stored(p.body)
  }

  ghost predicate NormalTable(t: Table) {
    forall id :: id in t ==> Normal(t[id])
  }

  lemma StoredIsNormal(b: Body)
    ensures Stored(Stored(b)) == Stored(b)
  {
    if b.colors.Some? {
      assert Colors.UpperAll(Colors.UpperAll(b.colors.value)) == Colors.UpperAll(b.colors.value) by {
        forall i | 0 <= i < |b.colors.value|
          ensures Texts.Upper(Texts.Upper(b.colors.value[i])) == Texts.Upper(b.colors.value[i])
        {
        }
      }
    }
  }

  /** The payloads of this importer: community products with an id, on behalf of one admin. */
  predicate Seeded(r: Result<Input, Refused>, user: string) {
    r.Success? ==>
      r.value.id != "" && r.value.owner == None && r.value.source == "community-pr" &&
        r.value.actor == Actor(user, true)
  }

  predicate Valid(r: Result<Input, Refused>) {
    r.Success? && ValidateInput(r.value).None?
  }

  predicate Names(r: Result<Input, Refused>, id: Id) {
    Valid(r) && r.value.id == id
  }

  /** An overwriting step in one line: insert, or replace the body of a row the importer may change. */
  lemma OverwriteStep(t: Table, r: Result<Input, Refused>, user: string)
    requires NormalTable(t) && Seeded(r, user)
    ensures Outcome(t, r, Overwrite).0 ==
      if !Valid(r) then t
      else if r.value.id !in t then t[r.value.id := NewRow(r.value)]
      else if ValidateMutateExisting(t[r.value.id].owner, Actor(user, true)).Some? then t
      else t[r.value.id := t[r.value.id].(body := Stored(r.value.body))]
    ensures NormalTable(Outcome(t, r, Overwrite).0)
  {
    if Valid(r) {
      var x := r.value;
      StoredIsNormal(x.body);
      assert ValidatePatch(x.body).None?;
      if x.id in t && CompareKey(t[x.id]) == CompareKey(NewRow(x)) {
        CompareKeyOfNormal(t[x.id]);
        CompareKeyOfNormal(NewRow(x));
        assert t[x.id] == NewRow(x);
      }
    }
  }

  lemma CompareKeyOfNormal(p: Product)
    requires Normal(p)
    ensures CompareKey(p) == p
  {
  }

  /** A skipping step: insert or nothing. */
  lemma SkipStep(t: Table, r: Result<Input, Refused>)
    requires r.Success? ==> r.value.id != ""
    ensures Outcome(t, r, Skip).0 == if Valid(r) && r.value.id !in t then t[r.value.id := NewRow(r.value)] else t
  {
  }

  /** The last valid payload for an id. */
  function LastFor(items: seq<Result<Input, Refused>>, id: Id): Option<Input> {
    if items == [] then None
    else if Names(items[|items| - 1], id) then Some(items[|items| - 1].value)
    else LastFor(items[..|items| - 1], id)
  }

  /** The first valid payload for an id. */
  function FirstFor(items: seq<Result<Input, Refused>>, id: Id): Option<Input> {
    if items == [] then None
    else
      var earlier := FirstFor(items[..|items| - 1], id);
      if earlier.Some? then earlier
      else if Names(items[|items| - 1], id) then Some(items[|items| - 1].value) else None
  }

  ghost predicate AllSeeded(items: seq<Result<Input, Refused>>, user: string) {
    forall k :: 0 <= k < |items| ==> Seeded(items[k], user)
  }

  /** The row of an id after a skipping import: the old one, or the first valid body. */
  function SkipRow(t: Table, items: seq<Result<Input, Refused>>, id: Id): Option<Product> {
    if id in t then Some(t[id])
    else if FirstFor(items, id).Some? then Some(NewRow(FirstFor(items, id).value))
    else None
  }

  /** The row of an id after an overwriting import: the last valid body, in the old row if there is one; the rows of
      other users stay as they are. */
  function OverwriteRow(t: Table, items: seq<Result<Input, Refused>>, user: string, id: Id): Option<Product> {
    var last := LastFor(items, id);
    if id in t then
      if last.None? || ValidateMutateExisting(t[id].owner, Actor(user, true)).Some? then Some(t[id])
      else Some(t[id].(body := Stored(last.value.body)))
    else if last.Some? then Some(NewRow(last.value))
    else None
  }

  function RowOf(t: Table, id: Id): Option<Product> {
    if id in t then Some(t[id]) else None
  }

  /** Default mode: existing rows stay and the first valid body per new id wins. */
  lemma {:induction false} FirstBodyWins(t: Table, items: seq<Result<Input, Refused>>, user: string, id: Id)
    requires AllSeeded(items, user)
    ensures RowOf(Fold(t, items, Skip), id) == SkipRow(t, items, id)
  {
    if items != [] {
      var init, r := items[..|items| - 1], items[|items| - 1];
      FirstBodyWins(t, init, user, id);
      SkipStep(Fold(t, init, Skip), r);
    }
  }

  lemma {:induction false} OverwriteKeepsNormal(t: Table, items: seq<Result<Input, Refused>>, user: string)
    requires NormalTable(t) && AllSeeded(items, user)
    ensures NormalTable(Fold(t, items, Overwrite))
  {
    if items != [] {
      OverwriteKeepsNormal(t, items[..|items| - 1], user);
      OverwriteStep(Fold(t, items[..|items| - 1], Overwrite), items[|items| - 1], user);
    }
  }

  /** Update mode: the last valid body per id wins. */
  lemma {:induction false} LastBodyWins(t: Table, items: seq<Result<Input, Refused>>, user: string, id: Id)
    requires NormalTable(t) && AllSeeded(items, user)
    ensures RowOf(Fold(t, items, Overwrite), id) == OverwriteRow(t, items, user, id)
  {
    if items != [] {
      var init, r := items[..|items| - 1], items[|items| - 1];
      LastBodyWins(t, init, user, id);
      OverwriteKeepsNormal(t, init, user);
      OverwriteStep(Fold(t, init, Overwrite), r, user);
      LastIsSeeded(init, user, id);
    }
  }

  lemma {:induction false} LastIsSeeded(items: seq<Result<Input, Refused>>, user: string, id: Id)
    requires AllSeeded(items, user)
    ensures LastFor(items, id).Some? ==>
      LastFor(items, id).value.owner == None && LastFor(items, id).value.source == "community-pr"
  {
    if items != [] && !Names(items[|items| - 1], id) {
      LastIsSeeded(items[..|items| - 1], user, id);
    }
  }

  lemma SameRowsSameTable(a: Table, b: Table)
    requires forall id :: RowOf(a, id) == RowOf(b, id)
    ensures a == b
  {
    forall id
      ensures id in a <==> id in b
      ensures id in a ==> a[id] == b[id]
    {
      assert RowOf(a, id) == RowOf(b, id);
    }
  }

  /** Importing the same products again changes nothing, whatever ids collide among them or with rows already there. */
  lemma ImportIdempotent(t: Table, items: seq<Result<Input, Refused>>, user: string, mode: Mode)
    requires NormalTable(t) && AllSeeded(items, user)
    ensures Fold(Fold(t, items, mode), items, mode) == Fold(t, items, mode)
  {
    var once := Fold(t, items, mode);
    if mode.DryRun? {
      DryRunWritesNothing(t, items);
      DryRunWritesNothing(once, items);
    } else {
      forall id
        ensures RowOf(Fold(once, items, mode), id) == RowOf(once, id)
      {
        if mode.Skip? {
          FirstBodyWins(t, items, user, id);
          FirstBodyWins(once, items, user, id);
        } else {
          OverwriteKeepsNormal(t, items, user);
          LastBodyWins(t, items, user, id);
          LastBodyWins(once, items, user, id);
          LastIsSeeded(items, user, id);
        }
      }
      SameRowsSameTable(Fold(once, items, mode), once);
    }
  }

  lemma {:induction false} DryRunWritesNothing(t: Table, items: seq<Result<Input, Refused>>)
    ensures Fold(t, items, DryRun) == t
  {
    if items != [] {
      DryRunWritesNothing(t, items[..|items| - 1]);
    }
  }

  /** The rows of other users are never touched, in any mode. */
  lemma OthersKeepTheirRows(t: Table, items: seq<Result<Input, Refused>>, user: string, mode: Mode, id: Id)
    requires NormalTable(t) && AllSeeded(items, user) && id in t && t[id].owner.Some? && t[id].owner != Some(user)
    ensures id in Fold(t, items, mode) && Fold(t, items, mode)[id] == t[id]
  {
    match mode
    case DryRun => DryRunWritesNothing(t, items);
    case Skip => FirstBodyWins(t, items, user, id);
    case Overwrite => LastBodyWins(t, items, user, id);
  }

  // ---------------------------------------------------------------- the transform meets the catalog

  lemma {:induction false} ConsideredAreSeeded(text: Text, files: seq<SeedFile>, user: string)
    ensures AllSeeded(Considered(text, files, user), user)
  {
    if files != [] {
      ConsideredAreSeeded(text, files[..|files| - 1], user);
      TransformedAreSeeded(text, files[|files| - 1], user);
    }
  }

  lemma TransformedAreSeeded(text: Text, file: SeedFile, user: string)
    ensures AllSeeded(Transform(text, file, user), user)
  {
    if file.products.Some? && file.brand.Some? {
      TransformAllAreSeeded(text, text.canonicalBrand(file.brand.value), file.products.value, user);
    }
  }

  lemma {:induction false} TransformAllAreSeeded(text: Text, brand: string, products: seq<RawProduct>, user: string)
    ensures AllSeeded(TransformAll(text, brand, products, user), user)
  {
    if products != [] {
      TransformAllAreSeeded(text, brand, products[..|products| - 1], user);
    }
  }

  /** Running the import twice over the same files is running it once. */
  lemma RunTwiceIsRunOnce(text: Text, files: seq<SeedFile>, user: string, t: Table, mode: Mode)
    requires NormalTable(t)
    ensures var items := Considered(text, files, user);
      Fold(Fold(t, items, mode), items, mode) == Fold(t, items, mode)
  {
    ConsideredAreSeeded(text, files, user);
    ImportIdempotent(t, Considered(text, files, user), user, mode);
  }

  /** A transformed product passes the catalog's validation exactly when it has at most four usable colours and its
      subtype is not the name of an inherited key. */
  lemma TransformedIsValidIff(text: Text, brand: string, raw: RawProduct, user: string)
    requires brand != "" && TransformOne(text, brand, raw, user).Success?
    ensures ValidateInput(TransformOne(text, brand, raw, user).value).None? <==>
      |ColorTransform.NormalizeAll(raw.colors)| <= 4 &&
        (raw.subtype in SUBTYPES || Texts.Lower(ColorTransform.Trim(raw.subtype)) !in ColorTransform.INHERITED_KEYS)
  {
    AliasIsSubtype(Texts.Lower(ColorTransform.Trim(raw.subtype)));
  }

  lemma AliasIsSubtype(key: string)
    ensures SubtypeAlias(key).Some? ==> SubtypeAlias(key).value in SUBTYPES && key !in ColorTransform.INHERITED_KEYS
  {
  }
}

/** What the importer accepts, which ids it makes up, and what it does with one product, as plain rules. */
module SeedRules {
  import opened Wrappers
  import opened SeedImport
  import Texts
  import Colors
  import opened ColorRules
  import ColorTransform

  // ---------------------------------------------------------------- ids

  /** Texts without a colon, joined by one, are told apart. */
  lemma {:induction false} JoinedEqualIff(a: string, b: string, x: string, y: string)
    requires ':' !in a && ':' !in b
    ensures a + ":" + x == b + ":" + y <==> a == b && x == y
  {
    var p, q := a + ":" + x, b + ":" + y;
    assert if a == "" then p[0] == ':' && p[1..] == x else p[0] == a[0] && a[0] in a && p[1..] == a[1..] + ":" + x;
    assert if b == "" then q[0] == ':' && q[1..] == y else q[0] == b[0] && b[0] in b && q[1..] == b[1..] + ":" + y;
    if p == q && a != "" && b != "" {
      JoinedEqualIff(a[1..], b[1..], x, y);
      assert a == [a[0]] + a[1..] && b == [b[0]] + b[1..];
    }
  }

  lemma PrefixedEqualIff(p: string, x: string, y: string)
    ensures p + x == p + y <==> x == y
  {
    assert (p + x)[|p|..] == x && (p + y)[|p|..] == y;
  }

  /** Slugs have no colon. */
  ghost predicate CleanSlugs(text: Text) {
    forall s :: ':' !in text.slug(s)
  }

  /** Made-up ids are equal if and only if all three slugs are. */
  lemma BuildIdEqualIff(text: Text, brand: string, line: string, seed: string, brand': string, line': string,
    seed': string)
    requires CleanSlugs(text)
    ensures BuildId(text, brand, line, seed) == BuildId(text, brand', line', seed') <==>
      && text.slug(brand) == text.slug(brand') && text.slug(line) == text.slug(line')
      && text.slug(seed) == text.slug(seed')
  {
    var a, b, c, a', b', c' := text.slug(brand), text.slug(line), text.slug(seed), text.slug(brand'), text.slug(line'),
      text.slug(seed');
    JoinedEqualIff(a, a', b + ":" + c, b' + ":" + c');
    JoinedEqualIff(b, b', c, c');
    BuildIdIsJoined(text, brand, line, seed);
    BuildIdIsJoined(text, brand', line', seed');
    PrefixedEqualIff("system:community-pr:", a + ":" + (b + ":" + c), a' + ":" + (b' + ":" + c'));
  }

  lemma BuildIdIsJoined(text: Text, brand: string, line: string, seed: string)
    ensures BuildId(text, brand, line, seed) == "system:community-pr:" +
      (text.slug(brand) + ":" + (text.slug(line) + ":" + text.slug(seed)))
  {
    var a, b, c := text.slug(brand), text.slug(line), text.slug(seed);
    assert "system:community-pr:" + a + ":" + b + ":" + c == "system:community-pr:" + (a + ":" + (b + ":" + c));
  }

  // ---------------------------------------------------------------- the transform

  /** The subtype a product names: itself if the catalog knows it. */
  lemma KnownSubtypeIsKept(raw: string)
    ensures raw in SUBTYPES ==> NormalizeSubtype(raw) == Some(Named(raw))
    ensures NormalizeSubtype(raw).Some? && NormalizeSubtype(raw).value.Named? ==>
      NormalizeSubtype(raw).value.name in SUBTYPES
    ensures raw == "" ==> NormalizeSubtype(raw) == None
  {
    AliasIsSubtype(Texts.Lower(ColorTransform.Trim(raw)));
  }

  /** A product becomes a community entry without owner, made by an admin, under its own id if it has one; only usable
      colours and known material classes get through. */
  lemma TransformOneIs(text: Text, brand: string, raw: RawProduct, user: string)
    ensures var r, subtype := TransformOne(text, brand, raw, user), NormalizeSubtype(raw.subtype);
      && (r == Failure(RefusedShape) <==> !raw.isObject)
      && (r == Failure(RefusedSubtype) <==> raw.isObject && subtype == None)
      && (r.Success? <==> raw.isObject && subtype.Some?)
      && (r.Success? ==>
           var x := r.value;
           && x.owner == None && x.source == "community-pr" && x.actor.user == user && x.actor.admin
           && x.body.brand == brand && x.body.subtype == subtype.value && x.body.details == raw.details
           && (raw.id != "" ==> x.id == raw.id)
           && (raw.id == "" && raw.colorName != "" ==> x.id == BuildId(text, brand, raw.productLine, raw.colorName))
           && (raw.id == "" && raw.colorName == "" && subtype.value.Named? ==>
                x.id == BuildId(text, brand, raw.productLine, subtype.value.name))
           && (raw.materialClass.Some? && raw.materialClass.value in
                 {"consumer", "industrial", "medical-Class-I", "medical-Class-IIa"} ==>
                x.body.materialClass == raw.materialClass)
           && (x.body.materialClass.Some? ==>
                x.body.materialClass == raw.materialClass && raw.materialClass.value in
                  {"consumer", "industrial", "medical-Class-I", "medical-Class-IIa"})
           && (x.body.colors == None <==> ColorTransform.NormalizeAll(raw.colors) == [])
           && (x.body.colors.Some? ==> x.body.colors.value == ColorTransform.NormalizeAll(raw.colors)))
  {
  }

  /** A file without a usable brand has every product refused; else the products are taken one by one. */
  lemma TransformIs(text: Text, file: SeedFile, user: string, i: nat)
    requires file.products.Some? && i < |file.products.value|
    ensures var rs := Transform(text, file, user);
      && |rs| == |file.products.value|
      && rs[i] == if file.brand == None || text.canonicalBrand(file.brand.value) == "" then Failure(RefusedBrand)
                  else TransformOne(text, text.canonicalBrand(file.brand.value), file.products.value[i], user)
  {
    if file.brand.Some? && text.canonicalBrand(file.brand.value) != "" {
      TransformAllAt(text, text.canonicalBrand(file.brand.value), file.products.value, user, i);
    }
  }

  lemma {:induction false} TransformAllAt(text: Text, brand: string, products: seq<RawProduct>, user: string, i: nat)
    requires i < |products|
    ensures TransformAll(text, brand, products, user)[i] == TransformOne(text, brand, products[i], user)
  {
    var init, last := products[..|products| - 1], products[|products| - 1];
    assert TransformAll(text, brand, products, user) ==
      TransformAll(text, brand, init, user) + [TransformOne(text, brand, last, user)];
    if i < |init| {
      TransformAllAt(text, brand, init, user, i);
    }
  }

  lemma {:induction false} MatchingAre(files: seq<SeedFile>, stem: Option<string>, f: SeedFile)
    ensures f in Matching(files, stem) <==>
      f in files && (stem == None || stem == Some("") || Texts.Lower(f.stem) == Texts.Lower(stem.value))
  {
    if files != [] && stem.Some? && stem.value != "" {
      var n := |files| - 1;
      assert files == files[..n] + [files[n]];
      MatchingAre(files[..n], stem, f);
    }
  }

  // ---------------------------------------------------------------- validation

  /** A user's entry is its owner's own doing, every other entry has no owner and is an admin's. */
  predicate OwnershipFits(source: string, owner: Option<string>, actor: Actor) {
    if source == "user" then owner == Some(actor.user) && actor.user != "" else owner == None && actor.admin
  }

  /** Everything creation asks of a product. */
  predicate InputFits(x: Input) {
    && x.body.brand != "" && BodyFits(x.body)
    && x.source in {"system:spoolmandb", "system:open-filament-db", "system:polymaker-preset", "community-pr", "user"}
    && OwnershipFits(x.source, x.owner, x.actor)
  }

  predicate BodyFits(b: Body) {
    && b.subtype.Named?
    && b.subtype.name in
       {"standard", "tough", "flexible", "water-washable", "dental-Class-I", "dental-Class-II", "high-temp", "ceramic",
        "engineering", "translucent", "casting", "medical", "model", "abs-like", "plant-based", "other"}
    && (b.materialClass.Some? ==>
         b.materialClass.value in {"consumer", "industrial", "medical-Class-I", "medical-Class-IIa"})
    && (b.colors.Some? ==> |b.colors.value| <= 4 && forall c :: c in b.colors.value ==> HexColor(c))
  }

  lemma InputFitsIff(x: Input)
    ensures ValidateInput(x) == None <==> InputFits(x)
  {
    ColorsFitIff(x.body.colors);
  }

  lemma PatchFitsIff(b: Body)
    ensures ValidatePatch(b) == None <==> BodyFits(b) && b.brand != ""
  {
    ColorsFitIff(b.colors);
  }

  lemma ColorsFitIff(colors: Option<seq<string>>)
    ensures ValidateColors(colors).Success? <==>
      (colors.Some? ==> |colors.value| <= 4 && forall c :: c in colors.value ==> HexColor(c))
  {
    forall c ensures Colors.IsHexColor(c) <==> HexColor(c) {
      HexColorIsStrict(c);
    }
  }

  predicate KnownSubtype(b: Body) {
    b.subtype.Named? && b.subtype.name in SUBTYPES
  }

  predicate KnownClass(b: Body) {
    b.materialClass.Some? ==> b.materialClass.value in MATERIAL_CLASSES
  }

  predicate BadColor(colors: Option<seq<string>>) {
    colors.Some? && exists c :: c in colors.value && !HexColor(c)
  }

  predicate TooManyColors(colors: Option<seq<string>>) {
    colors.Some? && |colors.value| > 4
  }

  /** What creation asks, in this order. */
  function InputRules(x: Input): seq<(bool, Refusal)> {
    [ (x.body.brand == "", BrandRequired),
      (x.source !in PRODUCT_SOURCES, InvalidSource),
      (!KnownSubtype(x.body), InvalidSubtype),
      (!KnownClass(x.body), InvalidMaterialClass),
      (x.source == "user" && (x.owner == None || x.owner == Some("")), SourceOwnerMismatch),
      (x.source == "user" && x.owner != Some(x.actor.user), CannotImpersonateOwner),
      (x.source != "user" && x.owner.Some?, SourceOwnerMismatch),
      (x.source != "user" && !x.actor.admin, AdminRequired),
      (TooManyColors(x.body.colors), Refusal.ColorsTooMany),
      (BadColor(x.body.colors), Refusal.ColorFormat) ]
  }

  /** What a patch asks, in this order. */
  function PatchRules(b: Body): seq<(bool, Refusal)> {
    [ (!KnownSubtype(b), InvalidSubtype), (!KnownClass(b), InvalidMaterialClass),
      (TooManyColors(b.colors), Refusal.ColorsTooMany), (BadColor(b.colors), Refusal.ColorFormat),
      (b.brand == "", BrandRequired) ]
  }

  lemma ColorsJudged(colors: Option<seq<string>>)
    ensures TooManyColors(colors) ==> ValidateColors(colors) == Failure(Refusal.ColorsTooMany)
    ensures !TooManyColors(colors) && BadColor(colors) ==> ValidateColors(colors) == Failure(Refusal.ColorFormat)
    ensures !TooManyColors(colors) && !BadColor(colors) ==> ValidateColors(colors).Success?
  {
    forall c ensures Colors.IsHexColor(c) <==> HexColor(c) {
      HexColorIsStrict(c);
    }
  }

  lemma InputJudged(x: Input)
    ensures FirstBroken(ValidateInput(x), InputRules(x))
  {
    ColorsJudged(x.body.colors);
    var rules := InputRules(x);
    assert rules[0].0 == (x.body.brand == "") && rules[1].0 == (x.source !in PRODUCT_SOURCES);
    assert rules[2].0 == !KnownSubtype(x.body) && rules[3].0 == !KnownClass(x.body);
    assert rules[4].0 == (x.source == "user" && (x.owner == None || x.owner == Some("")));
    assert rules[5].0 == (x.source == "user" && x.owner != Some(x.actor.user));
    assert rules[6].0 == (x.source != "user" && x.owner.Some?) && rules[7].0 == (x.source != "user" && !x.actor.admin);
    assert rules[8].0 == TooManyColors(x.body.colors) && rules[9].0 == BadColor(x.body.colors);
  }

  lemma PatchJudged(b: Body)
    ensures FirstBroken(ValidatePatch(b), PatchRules(b))
  {
    ColorsJudged(b.colors);
    var rules := PatchRules(b);
    assert rules[0].0 == !KnownSubtype(b) && rules[1].0 == !KnownClass(b) && rules[2].0 == TooManyColors(b.colors);
    assert rules[3].0 == BadColor(b.colors) && rules[4].0 == (b.brand == "");
  }

  /** Only its owner changes a user's row; an admin, and only an admin, changes a system row. */
  predicate MayChange(owner: Option<string>, actor: Actor) {
    if owner == None then actor.admin else owner == Some(actor.user)
  }

  // ---------------------------------------------------------------- one product

  /** The row of a product: its colours in upper case, no list rather than an empty one, and the rest as it is. */
  predicate IsRowOf(p: Product, b: Body) {
    && p.body.brand == b.brand && p.body.subtype == b.subtype && p.body.materialClass == b.materialClass
    && p.body.details == b.details
    && (p.body.colors == None <==> b.colors == None || b.colors == Some([]))
    && (p.body.colors.Some? ==> Uppercase(p.body.colors.value, b.colors.value))
  }

  /** The row says the same as the product, letter case of colours aside. */
  predicate SaysTheSame(p: Product, x: Input) {
    && p.owner == x.owner && p.source == x.source && p.body.brand == x.body.brand && p.body.subtype == x.body.subtype
    && p.body.materialClass == x.body.materialClass && p.body.details == x.body.details
    && SameColors(p.body.colors, x.body.colors)
  }

  /** The same colours up to case; a stored empty list is not the same as none. */
  predicate SameColors(stored: Option<seq<string>>, asked: Option<seq<string>>) {
    if asked == None || asked == Some([]) then stored == None
    else
      && stored.Some? && |stored.value| == |asked.value|
      && forall i :: 0 <= i < |asked.value| ==> Texts.Upper(stored.value[i]) == Texts.Upper(asked.value[i])
  }

  lemma UpperTwice(s: string)
    ensures Texts.Upper(Texts.Upper(s)) == Texts.Upper(s)
  {
  }

  lemma SameKeyIff(p: Product, x: Input)
    ensures CompareKey(p) == CompareKey(NewRow(x)) <==> SaysTheSame(p, x)
  {
    forall s ensures Texts.Upper(Texts.Upper(s)) == Texts.Upper(s) {
      UpperTwice(s);
    }
    var stored, asked := p.body.colors, x.body.colors;
    if stored.Some? && asked.Some? && asked.value != [] {
      var us, vs := Colors.UpperAll(stored.value), Colors.UpperAll(Colors.UpperAll(asked.value));
      assert forall i :: 0 <= i < |us| ==> us[i] == Texts.Upper(stored.value[i]);
      assert forall i :: 0 <= i < |vs| ==> vs[i] == Texts.Upper(asked.value[i]);
      assert us == vs <==> SameColors(stored, asked);
    }
  }

  /** What becomes of one product, whatever the table. */
  lemma ApplyIs(t: Table, x: Input, mode: Mode)
    ensures var (t', c) := Apply(t, x, mode);
      && (mode == DryRun ==> t' == t && c == CInserted)
      && (mode != DryRun && !InputFits(x) ==> t' == t && c == CErrors)
      && (mode != DryRun && InputFits(x) && x.id !in t ==>
           && c == CInserted && t'.Keys == t.Keys + {x.id} && (forall id :: id in t ==> t'[id] == t[id])
           && IsRowOf(t'[x.id], x.body) && t'[x.id].owner == x.owner && t'[x.id].source == x.source)
      && (mode != DryRun && InputFits(x) && x.id in t && x.id == "" ==> t' == t && c == CErrors)
      && (mode != DryRun && InputFits(x) && x.id in t && x.id != "" ==> Meets(t, x, mode, t', c))
  {
    InputFitsIff(x);
    if mode != DryRun && InputFits(x) && x.id in t && x.id != "" {
      SameKeyIff(t[x.id], x);
      PatchFitsIff(x.body);
    }
  }

  /** A product meets a row under its id: the same content is a replay; else the row stays, unless the mode is to
      overwrite and the actor may change it: then it gets the new content and keeps owner and source. */
  ghost predicate Meets(t: Table, x: Input, mode: Mode, t': Table, c: Counter)
    requires x.id in t
  {
    if SaysTheSame(t[x.id], x) then t' == t && c == CReplayed
    else if mode == Skip then t' == t && c == CSkipped
    else if !MayChange(t[x.id].owner, x.actor) then t' == t && c == CErrors
    else
      && c == CUpdated && t'.Keys == t.Keys && (forall id :: id in t && id != x.id ==> t'[id] == t[id])
      && IsRowOf(t'[x.id], x.body) && t'[x.id].owner == t[x.id].owner && t'[x.id].source == t[x.id].source
  }

  /** A whole update: the id, the row, the right to change it, and then the patch. */
  lemma UpdateIs(t: Table, id: Id, patch: Body, actor: Actor)
    ensures var (t', r) := Update(t, id, patch, actor);
      && (r.Success? <==>
           id != "" && id in t && MayChange(t[id].owner, actor) && BodyFits(patch) && patch.brand != "")
      && (r.Failure? ==> t' == t)
      && (id == "" ==> r == Failure(IdRequired))
      && (id != "" && id !in t ==> r == Failure(NotFound))
      && (id != "" && id in t && !MayChange(t[id].owner, actor) ==>
           r == Failure(if t[id].owner == None then AdminRequired else NotFound))
      && (id != "" && id in t && MayChange(t[id].owner, actor) && ValidatePatch(patch).Some? ==>
           r == Failure(ValidatePatch(patch).value))
      && (r.Success? ==>
           && t'.Keys == t.Keys && (forall other :: other in t && other != id ==> t'[other] == t[other])
           && IsRowOf(t'[id], patch) && t'[id].owner == t[id].owner && t'[id].source == t[id].source)
  {
    PatchFitsIff(patch);
  }

  /** A product that was refused is counted and writes nothing. */
  lemma OutcomeOfRefused(t: Table, why: Refused, mode: Mode)
    ensures Outcome(t, Failure(why), mode) == (t, if why == RefusedSubtype then CInvalidSubtype else CErrors)
  {
  }
}

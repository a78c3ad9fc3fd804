/** Colour lists and patterns: the rules of the material validator. */
module Colors {
  import opened Wrappers
  import opened Texts

  datatype Pattern = Solid | DualTone | Gradient | MultiSection

  datatype Problem = ColorsEmpty | ColorsTooMany | ColorFormat | PatternMismatch

  predicate IsHexColor(s: string) {
    |s| == 7 && s[0] == '#' && forall i :: 1 <= i < 7 ==> IsHexDigit(s[i])
  }

  function UpperAll(ss: seq<string>): (us: seq<string>)
    ensures |us| == |ss| && forall i :: 0 <= i < |ss| ==> us[i] == Upper(ss[i])
  {
    seq(|ss|, i requires 0 <= i < |ss| => Upper(ss[i]))
  }

  predicate PatternFits(p: Pattern, n: nat) {
    match p
    case Solid => n == 1
    case DualTone => n == 2
    case Gradient => 2 <= n <= 3
    case MultiSection => 2 <= n <= 4
  }

  /** The documented rule: one to four strict hex colours, as many as the pattern allows. */
  predicate Acceptable(colors: seq<string>, p: Pattern) {
    1 <= |colors| <= 4 && (forall c :: c in colors ==> IsHexColor(c)) && PatternFits(p, |colors|)
  }

  /** The verdict on a colour list, problems reported in the validator's order. */
  function CheckColors(colors: seq<string>, p: Pattern): (r: Result<seq<string>, Problem>)
    ensures r.Success? <==> Acceptable(colors, p)
    ensures r.Success? ==> r.value == UpperAll(colors)
  {
    if colors == [] then Failure(ColorsEmpty)
    else if |colors| > 4 then Failure(ColorsTooMany)
    else if exists c :: c in colors && !IsHexColor(c) then Failure(ColorFormat)
    else if !PatternFits(p, |colors|) then Failure(PatternMismatch)
    else Success(UpperAll(colors))
  }

  method ValidateColors(colors: seq<string>, p: Pattern) returns (r: Result<seq<string>, Problem>)
    ensures r == CheckColors(colors, p)
  {
    if |colors| == 0 {
      return Failure(ColorsEmpty);
    }
    if |colors| > 4 {
      return Failure(ColorsTooMany);
    }
    var normalized: seq<string> := [];
    for i := 0 to |colors|
      invariant normalized == UpperAll(colors[..i])
      invariant forall k :: 0 <= k < i ==> IsHexColor(colors[k])
    {
      if !IsHexColor(colors[i]) {
        assert colors[i] in colors;
        return Failure(ColorFormat);
      }
      normalized := normalized + [Upper(colors[i])];
    }
    assert colors[..|colors|] == colors;
    if !PatternFits(p, |normalized|) {
      return Failure(PatternMismatch);
    }
    return Success(normalized);
  }
}

/** Turning one SpoolmanDB filament into catalog payloads, and the catalog's verdict on them. */
module ColorTransform {
  import opened Wrappers
  import opened Texts
  import opened Colors

  datatype Direction = Coaxial | Longitudinal | OtherDirection

  datatype RawColor = RawColor(name: string, hex: Option<string>, hexes: Option<seq<string>>,
    direction: Option<Direction>)

  datatype Variant = Variant(name: string, pattern: Pattern, colors: seq<string>)

  /** The members of the filament subtype enumeration. */
  datatype Subtype =
    | PLA | PLAPlus | PLACF | PLASilk | PLAMatte | PLAMarble | PLAWood
    | PETG | PETGCF | PETGrCF | ABS | ABSCF | ABSGF | ASA | ASACF
    | TPU95A | TPU90A | TPU85A | PC | PCFR | Nylon | PACF | PAGF | PAHTCF
    | PA6CF | PA6GF | PA12 | PA12CF | PETCF | PP | PPSCF | PPACF | PPAGF | HIPS | PVA | OtherSubtype

  /** What the material lookup yields: an enumeration member, or a value that
      JavaScript finds on the prototype of the alias table. */
  datatype SubtypeValue = Member(subtype: Subtype) | InheritedObject

  datatype ProductSource = SystemSpoolmanDb | SystemOpenFilamentDb | SystemPolymakerPreset | CommunityPr | UserSource

  datatype Role = UserRole | AdminRole

  datatype Payload = Payload(
    brand: string, productLine: string, subtype: SubtypeValue, colors: seq<string>, pattern: Pattern,
    colorName: Option<string>, source: ProductSource, owner: Option<string>, actor: string, role: Role)

  datatype Reason =
    | BrandRequired | InvalidSubtype | SourceOwnerMismatch | CannotImpersonateOwner | AdminRequired
    | BadColors(problem: Problem)

  // ---------------------------------------------------------------- text helpers

  predicate IsSpace(c: char) {
    c in {' ', '\t', '\n', '\r', '\U{000B}', '\U{000C}', '\U{00A0}', '\U{1680}', '\U{2028}', '\U{2029}',
          '\U{202F}', '\U{205F}', '\U{3000}', '\U{FEFF}'} || '\U{2000}' <= c <= '\U{200A}'
  }

  function TrimLeft(s: string): string {
    if s != [] && IsSpace(s[0]) then TrimLeft(s[1..]) else s
  }

  function TrimRight(s: string): string {
    if s != [] && IsSpace(s[|s| - 1]) then TrimRight(s[..|s| - 1]) else s
  }

  function Trim(s: string): string {
    TrimRight(TrimLeft(s))
  }

  // ---------------------------------------------------------------- material names

  /** Case-sensitive enumeration names. */
  function MemberNamed(name: string): Option<Subtype> {
    match name
    case "PLA" => Some(PLA) case "PLA+" => Some(PLAPlus) case "PLA-CF" => Some(PLACF)
    case "PLA-Silk" => Some(PLASilk) case "PLA-Matte" => Some(PLAMatte) case "PLA-Marble" => Some(PLAMarble)
    case "PLA-Wood" => Some(PLAWood) case "PETG" => Some(PETG) case "PETG-CF" => Some(PETGCF)
    case "PETG-rCF" => Some(PETGrCF) case "ABS" => Some(ABS) case "ABS-CF" => Some(ABSCF)
    case "ABS-GF" => Some(ABSGF) case "ASA" => Some(ASA) case "ASA-CF" => Some(ASACF)
    case "TPU-95A" => Some(TPU95A) case "TPU-90A" => Some(TPU90A) case "TPU-85A" => Some(TPU85A)
    case "PC" => Some(PC) case "PC-FR" => Some(PCFR) case "Nylon" => Some(Nylon)
    case "PA-CF" => Some(PACF) case "PA-GF" => Some(PAGF) case "PAHT-CF" => Some(PAHTCF)
    case "PA6-CF" => Some(PA6CF) case "PA6-GF" => Some(PA6GF) case "PA12" => Some(PA12)
    case "PA12-CF" => Some(PA12CF) case "PET-CF" => Some(PETCF) case "PP" => Some(PP)
    case "PPS-CF" => Some(PPSCF) case "PPA-CF" => Some(PPACF) case "PPA-GF" => Some(PPAGF)
    case "HIPS" => Some(HIPS) case "PVA" => Some(PVA) case "other" => Some(OtherSubtype)
    case _ => None
  }

  /** The lower-case alias table. */
  function Alias(key: string): Option<Subtype> {
    match key
    case "pla plus" => Some(PLAPlus) case "pla+" => Some(PLAPlus) case "pla pro" => Some(PLAPlus)
    case "pla cf" => Some(PLACF) case "pla-cf" => Some(PLACF)
    case "pla silk" => Some(PLASilk) case "pla-silk" => Some(PLASilk) case "silk" => Some(PLASilk)
    case "silk pla" => Some(PLASilk)
    case "pla matte" => Some(PLAMatte) case "pla-matte" => Some(PLAMatte) case "matte" => Some(PLAMatte)
    case "matte pla" => Some(PLAMatte)
    case "pla marble" => Some(PLAMarble) case "pla-marble" => Some(PLAMarble)
    case "pla wood" => Some(PLAWood) case "pla-wood" => Some(PLAWood) case "wood" => Some(PLAWood)
    case "petg cf" => Some(PETGCF) case "petg-cf" => Some(PETGCF)
    case "petg rcf" => Some(PETGrCF) case "petg-rcf" => Some(PETGrCF)
    case "abs cf" => Some(ABSCF) case "abs-cf" => Some(ABSCF) case "abs gf" => Some(ABSGF) case "abs-gf" => Some(ABSGF)
    case "asa cf" => Some(ASACF) case "asa-cf" => Some(ASACF)
    case "tpu 95a" => Some(TPU95A) case "tpu-95a" => Some(TPU95A) case "tpu 90a" => Some(TPU90A)
    case "tpu-90a" => Some(TPU90A) case "tpu 85a" => Some(TPU85A) case "tpu-85a" => Some(TPU85A)
    case "pc fr" => Some(PCFR) case "pc-fr" => Some(PCFR)
    case "pa cf" => Some(PACF) case "pa-cf" => Some(PACF) case "pa gf" => Some(PAGF) case "pa-gf" => Some(PAGF)
    case "paht cf" => Some(PAHTCF) case "paht-cf" => Some(PAHTCF)
    case "pa6 cf" => Some(PA6CF) case "pa6-cf" => Some(PA6CF) case "pa6 gf" => Some(PA6GF) case "pa6-gf" => Some(PA6GF)
    case "pa12 cf" => Some(PA12CF) case "pa12-cf" => Some(PA12CF)
    case "pet cf" => Some(PETCF) case "pet-cf" => Some(PETCF)
    case "pps cf" => Some(PPSCF) case "pps-cf" => Some(PPSCF)
    case "ppa cf" => Some(PPACF) case "ppa-cf" => Some(PPACF) case "ppa gf" => Some(PPAGF) case "ppa-gf" => Some(PPAGF)
    case _ => None
  }

  /** The all-lower-case names every JavaScript object inherits; the `in` test on the
      alias table sees them too. */
  const INHERITED_KEYS: set<string> := {"constructor", "__proto__"}

  function MapMaterialToSubtype(material: string): SubtypeValue {
    if material == "" then Member(OtherSubtype)
    else if MemberNamed(material).Some? then Member(MemberNamed(material).value)
    else
      var key := Lower(Trim(material));
      if Alias(key).Some? then Member(Alias(key).value)
      else if key in INHERITED_KEYS then InheritedObject
      else if MemberNamed(Upper(Trim(material))).Some? then Member(MemberNamed(Upper(Trim(material))).value)
      else Member(OtherSubtype)
  }

  // ---------------------------------------------------------------- hex values and variants

  function WithoutMark(t: string): string {
    if t != "" && t[0] == '#' then t[1..] else t
  }

  /** Optional '#', six hex digits, surrounding white space ignored; the result is '#RRGGBB' in upper case. */
  function NormalizeHex(hex: string): (r: Option<string>)
    ensures r.Some? ==> IsHexColor(r.value) && Upper(r.value) == r.value
  {
    var digits := WithoutMark(Trim(hex));
    if |digits| == 6 && forall i :: 0 <= i < 6 ==> IsHexDigit(digits[i]) then
      Some("#" + Upper(digits))
    else
      None
  }

  /** The usable entries of a hex list, in order. */
  function NormalizeAll(hexes: seq<string>): (r: seq<string>)
    ensures |r| <= |hexes|
    ensures forall c :: c in r ==> IsHexColor(c) && Upper(c) == c
  {
    if hexes == [] then []
    else
      var init := NormalizeAll(hexes[..|hexes| - 1]);
      match NormalizeHex(hexes[|hexes| - 1])
      case Some(n) => init + [n]
      case None => init
  }

  method NormalizeHexList(hexes: seq<string>) returns (out: seq<string>)
    ensures out == NormalizeAll(hexes)
  {
    out := [];
    for i := 0 to |hexes|
      invariant out == NormalizeAll(hexes[..i])
    {
      var n := NormalizeHex(hexes[i]);
      assert hexes[..i + 1][..i] == hexes[..i];
      if n.Some? {
        out := out + [n.value];
      }
    }
    assert hexes[..|hexes|] == hexes;
  }

  /** A colour the catalog could use: a valid single hex, or no single hex and some valid entry in the list. */
  predicate Usable(raw: RawColor) {
    if raw.hex.Some? && raw.hex.value != "" then NormalizeHex(raw.hex.value).Some?
    else raw.hexes.Some? && NormalizeAll(raw.hexes.value) != []
  }

  function PatternFor(n: nat, d: Option<Direction>): Pattern
    requires n >= 1
  {
    if n == 1 then Solid
    else if n == 2 && d == Some(Coaxial) then DualTone
    else if d == Some(Longitudinal) && 2 <= n <= 3 then Gradient
    else if d == Some(Longitudinal) && n == 4 then MultiSection
    else if n == 2 then DualTone
    else if 3 <= n <= 4 then (if n == 4 then MultiSection else Gradient)
    else MultiSection
  }

  method DeriveColorVariant(raw: RawColor, brandDirection: Option<Direction>) returns (r: Option<Variant>)
    ensures r.Some? <==> Usable(raw)
    ensures r.Some? ==> Acceptable(r.value.colors, r.value.pattern) && UpperAll(r.value.colors) == r.value.colors
    ensures r == VariantOf(raw, brandDirection)
  {
    var direction := if raw.direction.Some? then raw.direction else brandDirection;
    if raw.hex.Some? && |raw.hex.value| > 0 {
      var norm := NormalizeHex(raw.hex.value);
      if norm.None? {
        return None;
      }
      return Some(Variant(raw.name, Solid, [norm.value]));
    }
    if raw.hexes.Some? && |raw.hexes.value| > 0 {
      r := MultiVariant(raw.name, raw.hexes.value, direction);
      return;
    }
    return None;
  }

  /** The branch for a list of hexes. */
  method MultiVariant(name: string, hexes: seq<string>, direction: Option<Direction>) returns (r: Option<Variant>)
    ensures r == VariantOfList(name, NormalizeAll(hexes), direction)
    ensures r.Some? ==> Acceptable(r.value.colors, r.value.pattern) && UpperAll(r.value.colors) == r.value.colors
  {
    var list := NormalizeHexList(hexes);
    if |list| == 0 {
      return None;
    }
    var pattern := PatternFor(|list|, direction);
    if |list| > 4 {
      list := list[..4];
    }
    return Some(Variant(name, pattern, list));
  }

  function VariantOfList(name: string, all: seq<string>, direction: Option<Direction>): Option<Variant> {
    if all == [] then None else Some(Variant(name, PatternFor(|all|, direction), if |all| > 4 then all[..4] else all))
  }

  /** The variant of a usable colour: its first four usable hexes under the pattern their number calls for. */
  function VariantOf(raw: RawColor, brandDirection: Option<Direction>): Option<Variant> {
    var direction := if raw.direction.Some? then raw.direction else brandDirection;
    if !Usable(raw) then None
    else if raw.hex.Some? && raw.hex.value != "" then
      Some(Variant(raw.name, Solid, [NormalizeHex(raw.hex.value).value]))
    else VariantOfList(raw.name, NormalizeAll(raw.hexes.value), direction)
  }

  // ---------------------------------------------------------------- the transform

  function PayloadOf(brand: string, productLine: string, material: string, v: Variant, actor: string): Payload {
    Payload(brand, productLine, MapMaterialToSubtype(material), v.colors, v.pattern,
            if |v.name| > 0 then Some(v.name) else None, SystemSpoolmanDb, None, actor, AdminRole)
  }

  function UsableColors(colors: seq<RawColor>): seq<RawColor> {
    if colors == [] then []
    else
      var init := UsableColors(colors[..|colors| - 1]);
      if Usable(colors[|colors| - 1]) then init + [colors[|colors| - 1]] else init
  }

  method TransformFilament(manufacturer: string, material: string, name: Option<string>, colors: seq<RawColor>,
                           brandDirection: Option<Direction>, actor: string) returns (out: seq<Payload>)
    ensures manufacturer == "" || material == "" ==> out == []
    ensures manufacturer != "" && material != "" ==> |out| == |UsableColors(colors)|
    ensures forall k :: 0 <= k < |out| ==>
      && VariantOf(UsableColors(colors)[k], brandDirection).Some?
      && out[k] == PayloadOf(manufacturer, if name.Some? && name.value != "" then name.value else material,
                             material, VariantOf(UsableColors(colors)[k], brandDirection).value, actor)
    ensures forall p :: p in out ==> (Verdict(p) == None <==> !HitsPrototype(material))
  {
    out := [];
    if manufacturer == "" || material == "" {
      return;
    }
    var productLine := if name.Some? && |name.value| > 0 then name.value else material;
    for i := 0 to |colors|
      invariant |out| == |UsableColors(colors[..i])|
      invariant forall k :: 0 <= k < |out| ==>
        && VariantOf(UsableColors(colors[..i])[k], brandDirection).Some?
        && out[k] == PayloadOf(manufacturer, productLine, material,
          VariantOf(UsableColors(colors[..i])[k], brandDirection).value, actor)
      invariant forall p :: p in out ==> (Verdict(p) == None <==> !HitsPrototype(material))
    {
      assert colors[..i + 1][..i] == colors[..i];
      var variant := DeriveColorVariant(colors[i], brandDirection);
      if variant.Some? {
        var p := PayloadOf(manufacturer, productLine, material, variant.value, actor);
        EmittedPayloadVerdict(manufacturer, productLine, material, variant.value, actor);
        out := out + [p];
      }
    }
    assert colors[..|colors|] == colors;
  }

  // ---------------------------------------------------------------- the catalog's validation

  /** The checks of filament-product creation, in order; None means the payload passes them all. */
  function Verdict(p: Payload): Option<Reason> {
    if p.brand == "" then Some(BrandRequired)
    else if p.subtype.InheritedObject? then Some(InvalidSubtype)
    else if p.source == UserSource && (p.owner == None || p.owner == Some("")) then Some(SourceOwnerMismatch)
    else if p.source == UserSource && p.owner != Some(p.actor) then Some(CannotImpersonateOwner)
    else if p.source != UserSource && p.owner != None then Some(SourceOwnerMismatch)
    else if p.source != UserSource && p.role != AdminRole then Some(AdminRequired)
    else match CheckColors(p.colors, p.pattern)
      case Failure(problem) => Some(BadColors(problem))
      case Success(_) => None
  }

  /** The material names whose lookup falls through to an inherited property. */
  predicate HitsPrototype(material: string) {
    && material != ""
    && MemberNamed(material).None?
    && Alias(Lower(Trim(material))).None?
    && Lower(Trim(material)) in INHERITED_KEYS
  }

  /** An emitted payload is accepted exactly when its material name is not an inherited key. */
  lemma EmittedPayloadVerdict(brand: string, productLine: string, material: string, v: Variant, actor: string)
    requires brand != "" && Acceptable(v.colors, v.pattern)
    ensures Verdict(PayloadOf(brand, productLine, material, v, actor)) == None <==> !HitsPrototype(material)
  {
    assert CheckColors(v.colors, v.pattern).Success?;
  }

  /** A filament whose material is the word "constructor" is transformed and then refused by the catalog. */
  lemma PrototypeNameIsRefused(v: Variant, actor: string)
    requires Acceptable(v.colors, v.pattern)
    ensures HitsPrototype("constructor")
    ensures Verdict(PayloadOf("Acme", "Basic", "constructor", v, actor)) == Some(InvalidSubtype)
  {
    var m := "constructor";
    assert Lower(Trim(m)) == m;
    assert Alias(m).None?;
  }

  /** A derived variant satisfies the colour rule, and the validator returns its colours unchanged. */
  lemma VariantIsAcceptable(raw: RawColor, d: Option<Direction>)
    requires VariantOf(raw, d).Some?
    ensures Acceptable(VariantOf(raw, d).value.colors, VariantOf(raw, d).value.pattern)
    ensures CheckColors(VariantOf(raw, d).value.colors, VariantOf(raw, d).value.pattern) ==
      Success(VariantOf(raw, d).value.colors)
  {
    var v := VariantOf(raw, d).value;
    assert UpperAll(v.colors) == v.colors;
  }

  /** A normalised hex value is a fixed point of normalisation. */
  lemma NormalizeHexIdempotent(hex: string)
    requires NormalizeHex(hex).Some?
    ensures NormalizeHex(NormalizeHex(hex).value) == NormalizeHex(hex)
  {
    var n := NormalizeHex(hex).value;
    assert TrimLeft(n) == n && TrimRight(n) == n;
    assert n[1..] == Upper(n[1..]);
    assert n == "#" + n[1..];
  }
}

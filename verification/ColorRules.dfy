/** Colours as plain rules: what the validator accepts, and what the transform makes of a raw colour. */
module ColorRules {
  import opened Wrappers
  import Colors
  import Texts
  import opened ColorTransform

  // ---------------------------------------------------------------- the validator

  predicate HexColor(c: string) {
    |c| == 7 && c[0] == '#' &&
    forall i :: 1 <= i < 7 ==> '0' <= c[i] <= '9' || 'A' <= c[i] <= 'F' || 'a' <= c[i] <= 'f'
  }

  /** One solid colour, two in dual tone, two or three in a gradient, two to four in sections. */
  predicate ColorsFit(colors: seq<string>, p: Colors.Pattern) {
    && (forall c :: c in colors ==> HexColor(c))
    && match |colors|
       case 1 => p == Colors.Solid
       case 2 => p == Colors.DualTone || p == Colors.Gradient || p == Colors.MultiSection
       case 3 => p == Colors.Gradient || p == Colors.MultiSection
       case 4 => p == Colors.MultiSection
       case _ => false
  }

  predicate Uppercase(upper: seq<string>, colors: seq<string>) {
    |upper| == |colors| && forall i :: 0 <= i < |colors| ==>
      |upper[i]| == |colors[i]| &&
      forall k :: 0 <= k < |colors[i]| ==>
        var c := colors[i][k];
        upper[i][k] == if 'a' <= c <= 'z' then (c as int - 32) as char else c
  }

  lemma HexColorIsStrict(c: string)
    ensures Colors.IsHexColor(c) <==> HexColor(c)
  {
  }

  /** The validator's verdict: accepted, in upper case, exactly what fits; else the first rule that is broken. */
  lemma ColorVerdict(colors: seq<string>, p: Colors.Pattern)
    ensures Colors.CheckColors(colors, p).Success? <==> ColorsFit(colors, p)
    ensures ColorsFit(colors, p) ==> Uppercase(Colors.CheckColors(colors, p).value, colors)
    ensures colors == [] ==> Colors.CheckColors(colors, p) == Failure(Colors.ColorsEmpty)
    ensures |colors| > 4 ==> Colors.CheckColors(colors, p) == Failure(Colors.ColorsTooMany)
    ensures 1 <= |colors| <= 4 && (exists c :: c in colors && !HexColor(c)) ==>
      Colors.CheckColors(colors, p) == Failure(Colors.ColorFormat)
    ensures 1 <= |colors| <= 4 && (forall c :: c in colors ==> HexColor(c)) && !ColorsFit(colors, p) ==>
      Colors.CheckColors(colors, p) == Failure(Colors.PatternMismatch)
  {
    forall c ensures Colors.IsHexColor(c) <==> HexColor(c) {
      HexColorIsStrict(c);
    }
  }

  // ---------------------------------------------------------------- hex values

  predicate Spaces(s: string) {
    forall i :: 0 <= i < |s| ==> IsSpace(s[i])
  }

  predicate Tight(s: string) {
    s != "" ==> !IsSpace(s[0]) && !IsSpace(s[|s| - 1])
  }

  lemma {:induction false} TrimLeftIs(s: string) returns (a: string)
    ensures Spaces(a) && s == a + TrimLeft(s) && (TrimLeft(s) != "" ==> !IsSpace(TrimLeft(s)[0]))
  {
    if s != [] && IsSpace(s[0]) {
      var rest := TrimLeftIs(s[1..]);
      a := [s[0]] + rest;
    } else {
      a := "";
    }
  }

  lemma {:induction false} TrimRightIs(s: string) returns (b: string)
    ensures Spaces(b) && s == TrimRight(s) + b && (TrimRight(s) != "" ==> !IsSpace(TrimRight(s)[|TrimRight(s)| - 1]))
  {
    if s != [] && IsSpace(s[|s| - 1]) {
      var rest := TrimRightIs(s[..|s| - 1]);
      b := rest + [s[|s| - 1]];
    } else {
      b := "";
    }
  }

  /** A text is its trimmed form with white space around it. */
  lemma TrimIs(s: string) returns (a: string, b: string)
    ensures Spaces(a) && Spaces(b) && s == a + Trim(s) + b && Tight(Trim(s))
  {
    a := TrimLeftIs(s);
    b := TrimRightIs(TrimLeft(s));
    var t, l := Trim(s), TrimLeft(s);
    assert l == t + b;
    assert t != "" ==> t[0] == l[0];
  }

  lemma {:induction false} TrimLeftOf(a: string, core: string)
    requires Spaces(a) && core != "" && !IsSpace(core[0])
    ensures TrimLeft(a + core) == core
  {
    if a == "" {
      assert a + core == core;
    } else {
      assert (a + core)[0] == a[0] && (a + core)[1..] == a[1..] + core;
      TrimLeftOf(a[1..], core);
    }
  }

  lemma {:induction false} TrimRightOf(core: string, b: string)
    requires Spaces(b) && core != "" && !IsSpace(core[|core| - 1])
    ensures TrimRight(core + b) == core
  {
    if b == "" {
      assert core + b == core;
    } else {
      var n := |b| - 1;
      assert (core + b)[|core + b| - 1] == b[n] && (core + b)[..|core| + n] == core + b[..n];
      TrimRightOf(core, b[..n]);
    }
  }

  lemma TrimOf(a: string, core: string, b: string)
    requires Spaces(a) && Spaces(b) && core != "" && Tight(core)
    ensures Trim(a + core + b) == core
  {
    assert a + core + b == a + (core + b);
    TrimLeftOf(a, core + b);
    TrimRightOf(core, b);
  }

  predicate HexDigits(s: string) {
    |s| == 6 && forall i :: 0 <= i < 6 ==> '0' <= s[i] <= '9' || 'A' <= s[i] <= 'F' || 'a' <= s[i] <= 'f'
  }

  /** The normal form: a hash mark and the digits, letters in upper case. */
  predicate HexOf(r: string, digits: string)
    requires |digits| == 6
  {
    |r| == 7 && r[0] == '#' && forall i :: 0 <= i < 6 ==>
      r[i + 1] == if 'a' <= digits[i] <= 'f' then (digits[i] as int - 'a' as int + 'A' as int) as char else digits[i]
  }

  predicate SpelledHex(hex: string, a: string, mark: string, digits: string, b: string) {
    && hex == a + (mark + digits) + b && Spaces(a) && Spaces(b) && (mark == "" || mark == "#") && HexDigits(digits)
  }

  lemma SpelledCore(hex: string, a: string, mark: string, digits: string, b: string)
    requires SpelledHex(hex, a, mark, digits, b)
    ensures Trim(hex) == mark + digits && (mark == "" ==> digits[0] != '#')
  {
    var core := mark + digits;
    assert core[|core| - 1] == digits[5];
    assert core[0] == if mark == "" then digits[0] else '#';
    TrimOf(a, core, b);
  }

  lemma HexOfIs(digits: string, r: string)
    requires HexDigits(digits)
    ensures HexOf(r, digits) <==> r == "#" + Texts.Upper(digits)
  {
    var u := "#" + Texts.Upper(digits);
    assert forall i :: 0 <= i < 6 ==> u[i + 1] == Texts.UpperChar(digits[i]);
    if HexOf(r, digits) {
      assert |r| == |u| && r[0] == u[0] && r[1] == u[1] && r[2] == u[2] && r[3] == u[3] && r[4] == u[4] && r[5] == u[5]
        && r[6] == u[6];
    }
  }

  lemma DigitsAreHex(digits: string)
    ensures HexDigits(digits) <==> |digits| == 6 && forall i :: 0 <= i < 6 ==> Texts.IsHexDigit(digits[i])
  {
  }

  lemma SpelledIsNormalized(hex: string, a: string, mark: string, digits: string, b: string)
    requires SpelledHex(hex, a, mark, digits, b)
    ensures NormalizeHex(hex) == Some("#" + Texts.Upper(digits))
  {
    SpelledCore(hex, a, mark, digits, b);
    DigitsAreHex(digits);
    assert mark == "#" ==> (mark + digits)[1..] == digits;
    assert mark == "" ==> mark + digits == digits;
  }

  /** A hex value is white space, perhaps a hash mark, six hexadecimal digits, and white space; it is normalised to a
      hash mark and the same digits in upper case. */
  lemma NormalizeHexIs(hex: string, r: string)
    ensures NormalizeHex(hex) == Some(r) <==>
      exists a, mark, digits, b :: SpelledHex(hex, a, mark, digits, b) && HexOf(r, digits)
  {
    forall a, mark, digits, b | SpelledHex(hex, a, mark, digits, b) && HexOf(r, digits)
      ensures NormalizeHex(hex) == Some(r)
    {
      SpelledIsNormalized(hex, a, mark, digits, b);
      HexOfIs(digits, r);
    }
    if NormalizeHex(hex) == Some(r) {
      NormalizedIsSpelled(hex, r);
    }
  }

  lemma NormalizedHasDigits(hex: string, mark: string, digits: string)
    requires NormalizeHex(hex).Some? && Trim(hex) == mark + digits
    requires if Trim(hex) != "" && Trim(hex)[0] == '#' then mark == "#" else mark == ""
    ensures HexDigits(digits) && NormalizeHex(hex) == Some("#" + Texts.Upper(digits))
  {
    if mark == "#" {
      assert Trim(hex)[1..] == digits;
    } else {
      assert Trim(hex) == digits;
    }
    DigitsAreHex(digits);
  }

  lemma NormalizedIsSpelled(hex: string, r: string)
    requires NormalizeHex(hex) == Some(r)
    ensures exists a, mark, digits, b :: SpelledHex(hex, a, mark, digits, b) && HexOf(r, digits)
  {
    var a, b := TrimIs(hex);
    var t := Trim(hex);
    var mark := if t != "" && t[0] == '#' then "#" else "";
    var digits := t[|mark|..];
    NormalizedHasDigits(hex, mark, digits);
    HexOfIs(digits, r);
    assert SpelledHex(hex, a, mark, digits, b);
  }

  /** A further hex value gives its normal form, if it has one. */
  lemma NormalizeAllSnoc(xs: seq<string>, x: string)
    ensures NormalizeAll(xs + [x]) == NormalizeAll(xs) + match NormalizeHex(x) case Some(n) => [n] case None => []
  {
    assert (xs + [x])[..|xs|] == xs;
  }

  // ---------------------------------------------------------------- variants

  /** One colour is solid, two are dual tone unless they run along the filament, then they blend; three blend, four and
      more are sections. */
  lemma PatternForIs(n: nat, d: Option<Direction>)
    requires n >= 1
    ensures PatternFor(n, d) == Colors.Solid <==> n == 1
    ensures PatternFor(n, d) == Colors.DualTone <==> n == 2 && d != Some(Longitudinal)
    ensures PatternFor(n, d) == Colors.Gradient <==> n == 3 || (n == 2 && d == Some(Longitudinal))
    ensures PatternFor(n, d) == Colors.MultiSection <==> n >= 4
  {
  }

  /** A single hex, if there is one, decides; it gives a solid colour or nothing. Else the first four usable hexes
      count, under the pattern of them all; the colour's own direction comes before the brand's. */
  lemma VariantIs(raw: RawColor, brandDirection: Option<Direction>)
    ensures var v := VariantOf(raw, brandDirection);
      if raw.hex.Some? && raw.hex.value != "" then
        match NormalizeHex(raw.hex.value)
        case None => v == None
        case Some(c) => v == Some(Variant(raw.name, Colors.Solid, [c]))
      else
        var all := if raw.hexes.None? then [] else NormalizeAll(raw.hexes.value);
        if all == [] then v == None
        else
          && v.Some? && v.value.name == raw.name
          && v.value.pattern == PatternFor(|all|, if raw.direction == None then brandDirection else raw.direction)
          && |v.value.colors| == (if |all| <= 4 then |all| else 4)
          && forall i :: 0 <= i < |v.value.colors| ==> v.value.colors[i] == all[i]
  {
  }

  /** What a payload says besides its colours: a system entry, made by an admin, without owner; no name rather than an
      empty one. */
  lemma PayloadIs(brand: string, productLine: string, material: string, v: Variant, actor: string)
    ensures var p := PayloadOf(brand, productLine, material, v, actor);
      && p.brand == brand && p.productLine == productLine && p.colors == v.colors && p.pattern == v.pattern
      && p.source == SystemSpoolmanDb && p.owner == None && p.role == AdminRole && p.actor == actor
      && (p.colorName == None <==> v.name == "") && (v.name != "" ==> p.colorName == Some(v.name))
  {
  }

  /** Exactly the colours that have a variant are used, in order. */
  lemma {:induction false} UsableColorsAre(xs: seq<RawColor>, ys: seq<RawColor>, c: RawColor, d: Option<Direction>)
    ensures UsableColors(xs + ys) == UsableColors(xs) + UsableColors(ys)
    ensures UsableColors([c]) == if VariantOf(c, d).Some? then [c] else []
  {
    assert [c][..0] == [];
    if ys == [] {
      assert xs + ys == xs;
    } else {
      var n := |ys| - 1;
      assert (xs + ys)[..|xs| + n] == xs + ys[..n];
      UsableColorsAre(xs, ys[..n], c, d);
    }
  }
}

/** Which URLs each source claims, and which item it reads from them, segment by segment. */
module LinkShapes {
  import opened Wrappers
  import opened Texts
  import opened Links

  // ---------------------------------------------------------------- segments and parameters

  predicate FirstAt(parts: seq<string>, marker: string, i: int) {
    0 <= i < |parts| && parts[i] == marker && forall k :: 0 <= k < i ==> parts[k] != marker
  }

  /** The segment after the first occurrence of the marker. */
  ghost predicate Follows(parts: seq<string>, marker: string, id: string) {
    exists i :: FirstAt(parts, marker, i) && i + 1 < |parts| && parts[i + 1] == id
  }

  /** Nothing follows the first occurrence of the marker, or there is none. */
  ghost predicate NothingFollows(parts: seq<string>, marker: string) {
    forall i :: FirstAt(parts, marker, i) ==> i == |parts| - 1
  }

  lemma PartAfterIs(parts: seq<string>, marker: string)
    ensures PartAfter(parts, marker).None? <==> NothingFollows(parts, marker)
    ensures forall id :: PartAfter(parts, marker) == Some(id) <==> Follows(parts, marker, id)
  {
    var r := IndexOf(parts, marker);
    if r < 0 {
      assert forall i :: 0 <= i < |parts| ==> parts[i] in parts;
    } else {
      assert FirstAt(parts, marker, r) by {
        forall k | 0 <= k < r ensures parts[k] != marker {
          assert parts[k] in parts[..r];
        }
      }
    }
    forall i | FirstAt(parts, marker, i) ensures i == r {
    }
  }

  predicate OccursAt(s: string, t: string, i: int) {
    0 <= i <= |s| - |t| && s[i..i + |t|] == t
  }

  ghost predicate Mentions(s: string, t: string) {
    exists i :: OccursAt(s, t, i)
  }

  lemma IncludesIs(s: string, t: string)
    ensures Includes(s, t) <==> Mentions(s, t)
  {
    forall i | 0 <= i <= |s| ensures StartsWith(s[i..], t) <==> OccursAt(s, t, i) {
      assert |t| <= |s| - i ==> s[i..][..|t|] == s[i..i + |t|];
    }
    if Mentions(s, t) {
      var i :| OccursAt(s, t, i);
      assert StartsWith(s[i..], t);
    }
  }

  predicate Digits(s: string) {
    s != "" && forall i :: 0 <= i < |s| ==> '0' <= s[i] <= '9'
  }

  /** A hyphen and digits at the end, the digits as long as they get. */
  predicate EndsNumbered(s: string, d: string) {
    Digits(d) && |d| < |s| && s[|s| - |d|..] == d && s[|s| - |d| - 1] == '-'
  }

  /** Digits at the start, as many as there are. */
  predicate StartsNumbered(s: string, d: string) {
    Digits(d) && |d| <= |s| && s[..|d|] == d && (|d| < |s| ==> !('0' <= s[|d|] <= '9'))
  }

  /** A hyphen and 32 hexadecimal digits at the end; the id has them in lower case. */
  predicate EndsHex(s: string, h: string) {
    && |h| == 32 && |s| > 32 && s[|s| - 33] == '-'
    && forall i :: 0 <= i < 32 ==> HexPair(s[|s| - 32 + i], h[i])
  }

  predicate IsNumeral(c: char) {
    '0' <= c <= '9'
  }

  /** Where digits of a segment at its end are digits of that segment. */
  lemma DigitsAtEnd(s: string, d: string)
    requires |d| <= |s| && s[|s| - |d|..] == d && forall i :: 0 <= i < |d| ==> '0' <= d[i] <= '9'
    ensures forall i :: |s| - |d| <= i < |s| ==> IsNumeral(s[i])
  {
    forall i | |s| - |d| <= i < |s| ensures IsNumeral(s[i]) {
      assert s[i] == d[i - (|s| - |d|)];
    }
  }

  lemma DigitsAtStart(s: string, d: string)
    requires |d| <= |s| && s[..|d|] == d && forall i :: 0 <= i < |d| ==> '0' <= d[i] <= '9'
    ensures forall i :: 0 <= i < |d| ==> IsNumeral(s[i])
  {
    forall i | 0 <= i < |d| ensures IsNumeral(s[i]) {
      assert s[i] == d[i];
    }
  }

  lemma {:induction false} TrailingDigitsAre(s: string)
    ensures var k := |s| - |TrailingDigits(s)|;
      s[k..] == TrailingDigits(s) && (forall i :: k <= i < |s| ==> IsNumeral(s[i])) && (k > 0 ==> !IsNumeral(s[k - 1]))
  {
    if s != "" && IsDigit(s[|s| - 1]) {
      var n := |s| - 1;
      var init := s[..n];
      TrailingDigitsAre(init);
      var k := n - |TrailingDigits(init)|;
      assert s[k..] == init[k..] + [s[n]];
      assert forall i :: 0 <= i < n ==> init[i] == s[i];
    }
  }

  lemma EndIsTrailingDigits(s: string, d: string)
    requires EndsNumbered(s, d)
    ensures d == TrailingDigits(s)
  {
    TrailingDigitsAre(s);
    DigitsAtEnd(s, d);
    var k, e := |s| - |TrailingDigits(s)|, |s| - |d|;
    assert !IsNumeral(s[e - 1]);
    assert k == e;
  }

  lemma TrailingDigitsEnd(s: string)
    ensures NumericSuffix(s).Some? ==> EndsNumbered(s, NumericSuffix(s).value)
  {
    TrailingDigitsAre(s);
    var d := TrailingDigits(s);
    forall i | 0 <= i < |d| ensures IsNumeral(d[i]) {
      assert d[i] == s[|s| - |d| + i];
    }
  }

  lemma NumericSuffixIs(s: string)
    ensures forall d :: NumericSuffix(s) == Some(d) <==> EndsNumbered(s, d)
  {
    TrailingDigitsEnd(s);
    forall d | EndsNumbered(s, d) ensures NumericSuffix(s) == Some(d) {
      EndIsTrailingDigits(s, d);
    }
  }

  lemma {:induction false} LeadingDigitsAre(s: string)
    ensures var d := LeadingDigits(s);
      && |d| <= |s| && s[..|d|] == d && (forall i :: 0 <= i < |d| ==> '0' <= d[i] <= '9')
      && (|d| < |s| ==> !IsNumeral(s[|d|]))
  {
    if s != "" && IsDigit(s[0]) {
      LeadingDigitsAre(s[1..]);
      var d := LeadingDigits(s[1..]);
      assert s[..|d| + 1] == [s[0]] + s[1..][..|d|];
    }
  }

  lemma LeadingDigitsIs(s: string)
    ensures LeadingDigits(s) == "" <==> forall d :: !StartsNumbered(s, d)
    ensures forall d :: d != "" ==> (LeadingDigits(s) == d <==> StartsNumbered(s, d))
  {
    LeadingDigitsAre(s);
    var t := LeadingDigits(s);
    DigitsAtStart(s, t);
    forall d | StartsNumbered(s, d) ensures d == t {
      DigitsAtStart(s, d);
      assert |d| < |s| ==> !IsNumeral(s[|d|]);
      assert |d| == |t|;
    }
    if t != "" {
      assert StartsNumbered(s, t);
    }
  }

  /** A hexadecimal digit and what it is in lower case. */
  predicate HexPair(c: char, h: char) {
    && ('0' <= c <= '9' || 'a' <= c <= 'f' || 'A' <= c <= 'F')
    && h == if 'A' <= c <= 'F' then (c as int - 'A' as int + 'a' as int) as char else c
  }

  lemma HexPairIs(c: char, h: char)
    ensures HexPair(c, h) <==> IsHexDigit(c) && h == LowerChar(c)
  {
  }

  lemma HexSuffixIs(s: string)
    ensures forall h :: HexSuffix(s) == Some(h) <==> EndsHex(s, h)
  {
    forall c, h ensures HexPair(c, h) <==> IsHexDigit(c) && h == LowerChar(c) {
      HexPairIs(c, h);
    }
    forall h | EndsHex(s, h) ensures HexSuffix(s) == Some(h) {
      forall i | |s| - 32 <= i < |s| ensures IsHexDigit(s[i]) {
        assert HexPair(s[|s| - 32 + (i - |s| + 32)], h[i - |s| + 32]);
      }
      assert Lower(s[|s| - 32..]) == h;
    }
  }

  // ---------------------------------------------------------------- what each source claims

  /** A file or a folder of a source, by its id alone. */
  predicate IsItem(m: Match, source: string, kind: Kind, id: string) {
    m == Match(source, Context(kind, Some(id), None, None))
  }

  /** The id is the number at the end of the segment, or else the segment. */
  ghost predicate NumberOrAll(seg: string, id: string) {
    EndsNumbered(seg, id) || (id == seg && forall d :: !EndsNumbered(seg, d))
  }

  ghost predicate HexOrAll(seg: string, id: string) {
    EndsHex(seg, id) || (id == seg && forall h :: !EndsHex(seg, h))
  }

  predicate SegmentIs(v: View, i: nat, s: string) {
    i < |v.parts| && v.parts[i] == s
  }

  /** Four hosts. An open link has its id in the query; else a file's id follows "d", or else a folder's "folders". */
  ghost predicate DriveLink(v: View, m: Match) {
    && v.host in {"drive.google.com", "docs.google.com", "sheets.google.com", "slides.google.com"}
    && m.source == "google-drive" && m.context.id.Some? && m.context.fragment == None
    && var id := m.context.id.value;
       if v.host == "drive.google.com" && SegmentIs(v, 0, "open") then
         v.id == Some(id) && id != "" && m.context.kind == Open && m.context.resourceKey == None
       else
         || (m.context.kind == File && Follows(v.parts, "d", id) && m.context.resourceKey == v.resourceKey)
         || (m.context.kind == Folder && NothingFollows(v.parts, "d") && Follows(v.parts, "folders", id) &&
             m.context.resourceKey == None)
  }

  /** Two hosts. An old link is all in the fragment; a newer one has its id after "folder" or "file". */
  ghost predicate MegaLink(v: View, m: Match) {
    && v.host in {"mega.nz", "mega.co.nz"} && m.source == "mega" && m.context.resourceKey == None
    && if |v.hash| >= 3 && v.hash[0] == '#' && v.hash[1] == 'F' && v.hash[2] == '!' then
         m.context.kind == Folder && m.context.id == None && m.context.fragment == Some(v.hash)
       else
         && |v.parts| >= 2 && m.context.id == Some(v.parts[1])
         && m.context.fragment == (if v.hash == "" then None else Some(v.hash))
         && ((m.context.kind == Folder && v.parts[0] == "folder") || (m.context.kind == File && v.parts[0] == "file"))
  }

  /** An object by the number at its end, a collection by its name. */
  ghost predicate MyMiniFactoryLink(v: View, m: Match) {
    && Mentions(v.host, "myminifactory.com") && m.context.id.Some?
    && var id := m.context.id.value;
       if SegmentIs(v, 0, "object") then
         NumberOrAll(v.parts[|v.parts| - 1], id) && IsItem(m, "mymini-factory", File, id)
       else
         && SegmentIs(v, 0, "users") && SegmentIs(v, 2, "collections") && SegmentIs(v, 3, id)
         && IsItem(m, "mymini-factory", Folder, id)
  }

  ghost predicate Cults3DLink(v: View, m: Match) {
    && Mentions(v.host, "cults3d.com") && m.context.id.Some?
    && Follows(v.parts, "3d-model", m.context.id.value) && IsItem(m, "cults3d", File, m.context.id.value)
  }

  predicate ThingAt(parts: seq<string>, i: int, d: string) {
    0 <= i < |parts| && parts[i] == "thing:" + d && Digits(d)
  }

  ghost predicate FirstThingAt(parts: seq<string>, i: int, d: string) {
    ThingAt(parts, i, d) && forall k, e :: 0 <= k < i ==> !ThingAt(parts, k, e)
  }

  ghost predicate ThingiverseLink(v: View, m: Match) {
    && Mentions(v.host, "thingiverse.com") && m.context.id.Some?
    && (exists i :: FirstThingAt(v.parts, i, m.context.id.value))
    && IsItem(m, "thingiverse", File, m.context.id.value)
  }

  /** The number that the segment after the marker starts with. */
  ghost predicate NumberedLink(v: View, m: Match, host: string, marker: string, source: string) {
    && Mentions(v.host, host) && m.context.id.Some? && IsItem(m, source, File, m.context.id.value)
    && exists seg :: Follows(v.parts, marker, seg) && StartsNumbered(seg, m.context.id.value)
  }

  ghost predicate PrintablesLink(v: View, m: Match) {
    NumberedLink(v, m, "printables.com", "model", "printables")
  }

  ghost predicate MakerWorldLink(v: View, m: Match) {
    NumberedLink(v, m, "makerworld.com", "models", "makerworld")
  }

  ghost predicate SketchfabLink(v: View, m: Match) {
    && Mentions(v.host, "sketchfab.com") && |v.parts| >= 2 && m.context.id.Some?
    && IsItem(m, "sketchfab", File, m.context.id.value)
    && if v.parts[0] == "3d-models" then HexOrAll(v.parts[1], m.context.id.value)
       else v.parts[0] == "models" && m.context.id.value == v.parts[1]
  }

  /** A post by the number at its end, else a creator's page. */
  ghost predicate PatreonLink(v: View, m: Match) {
    && Mentions(v.host, "patreon.com") && m.context.id.Some?
    && var id := m.context.id.value;
       if |v.parts| >= 2 then
         v.parts[0] == "posts" && NumberOrAll(v.parts[1], id) && IsItem(m, "patreon", File, id)
       else
         |v.parts| == 1 && id == v.parts[0] && IsItem(m, "patreon", Folder, id)
  }

  // ---------------------------------------------------------------- each matcher is exact

  lemma DriveIsExact(v: View, m: Match)
    requires Segments(v)
    ensures MatchGoogleDrive(v) == Some(m) <==> DriveLink(v, m)
  {
    PartAfterIs(v.parts, "d");
    PartAfterIs(v.parts, "folders");
  }

  lemma MegaIsExact(v: View, m: Match)
    ensures MatchMega(v) == Some(m) <==> MegaLink(v, m)
  {
    assert StartsWith(v.hash, "#F!") <==>
      |v.hash| >= 3 && v.hash[0] == '#' && v.hash[1] == 'F' && v.hash[2] == '!';
  }

  lemma MyMiniFactoryIsExact(v: View, m: Match)
    requires Segments(v)
    ensures MatchMyMiniFactory(v) == Some(m) <==> MyMiniFactoryLink(v, m)
  {
    IncludesIs(v.host, "myminifactory.com");
    if v.parts != [] {
      NumericSuffixIs(v.parts[|v.parts| - 1]);
    }
  }

  lemma Cults3DIsExact(v: View, m: Match)
    ensures MatchCults3D(v) == Some(m) <==> Cults3DLink(v, m)
  {
    IncludesIs(v.host, "cults3d.com");
    PartAfterIs(v.parts, "3d-model");
  }

  lemma AllDigits(s: string)
    ensures s != "" && LeadingDigits(s) == s <==> Digits(s)
  {
    LeadingDigitsAre(s);
    LeadingDigitsIs(s);
    if Digits(s) {
      assert StartsNumbered(s, s);
    }
  }

  lemma {:induction false} FirstThingIs(parts: seq<string>, d: string)
    ensures FirstThing(parts) == Some(d) <==> exists i :: FirstThingAt(parts, i, d)
  {
    if parts != [] {
      var rest := parts[1..];
      FirstThingIs(rest, d);
      var e := if StartsWith(parts[0], "thing:") then parts[0][6..] else "";
      AllDigits(e);
      forall x ensures ThingAt(parts, 0, x) <==> x == e && Digits(e) {
        assert parts[0] == "thing:" + x ==> parts[0][..6] == "thing:" && parts[0][6..] == x;
      }
      if Digits(e) {
        assert FirstThingAt(parts, 0, e);
      } else {
        forall k, x | k >= 0 ensures ThingAt(rest, k, x) <==> ThingAt(parts, k + 1, x) {
        }
        if exists i :: FirstThingAt(rest, i, d) {
          var i :| FirstThingAt(rest, i, d);
          forall k, x | 0 <= k < i + 1 ensures !ThingAt(parts, k, x) {
            assert k > 0 ==> !ThingAt(rest, k - 1, x);
          }
          assert FirstThingAt(parts, i + 1, d);
        }
        if exists i :: FirstThingAt(parts, i, d) {
          var i :| FirstThingAt(parts, i, d);
          forall k, x | 0 <= k < i - 1 ensures !ThingAt(rest, k, x) {
            assert !ThingAt(parts, k + 1, x);
          }
          assert FirstThingAt(rest, i - 1, d);
        }
      }
    }
  }

  lemma ThingiverseIsExact(v: View, m: Match)
    ensures MatchThingiverse(v) == Some(m) <==> ThingiverseLink(v, m)
  {
    IncludesIs(v.host, "thingiverse.com");
    if m.context.id.Some? {
      FirstThingIs(v.parts, m.context.id.value);
    }
  }

  lemma NumberedIsExact(v: View, m: Match, host: string, marker: string, source: string)
    ensures Includes(v.host, host) && Numbered(v, marker, source) == Some(m) <==>
      NumberedLink(v, m, host, marker, source)
  {
    IncludesIs(v.host, host);
    PartAfterIs(v.parts, marker);
    var seg := PartAfter(v.parts, marker);
    if seg.Some? {
      LeadingDigitsIs(seg.value);
    }
  }

  lemma NumberedAreExact(v: View, m: Match)
    ensures MatchPrintables(v) == Some(m) <==> PrintablesLink(v, m)
    ensures MatchMakerWorld(v) == Some(m) <==> MakerWorldLink(v, m)
  {
    NumberedIsExact(v, m, "printables.com", "model", "printables");
    NumberedIsExact(v, m, "makerworld.com", "models", "makerworld");
  }

  lemma SketchfabIsExact(v: View, m: Match)
    requires Segments(v)
    ensures MatchSketchfab(v) == Some(m) <==> SketchfabLink(v, m)
  {
    IncludesIs(v.host, "sketchfab.com");
    if |v.parts| >= 2 {
      HexSuffixIs(v.parts[1]);
    }
  }

  lemma PatreonIsExact(v: View, m: Match)
    requires Segments(v)
    ensures MatchPatreon(v) == Some(m) <==> PatreonLink(v, m)
  {
    IncludesIs(v.host, "patreon.com");
    if |v.parts| >= 2 {
      NumericSuffixIs(v.parts[1]);
    }
  }

  // ---------------------------------------------------------------- all sources together

  /** The sources in the order in which they are asked. */
  ghost predicate LinkBy(n: int, v: View, m: Match) {
    match n
    case 0 => DriveLink(v, m)
    case 1 => MegaLink(v, m)
    case 2 => MyMiniFactoryLink(v, m)
    case 3 => Cults3DLink(v, m)
    case 4 => ThingiverseLink(v, m)
    case 5 => PrintablesLink(v, m)
    case 6 => MakerWorldLink(v, m)
    case 7 => SketchfabLink(v, m)
    case 8 => PatreonLink(v, m)
    case _ => false
  }

  ghost predicate FirstLinkBy(n: int, v: View, m: Match) {
    LinkBy(n, v, m) && forall k, other :: 0 <= k < n ==> !LinkBy(k, v, other)
  }

  /** A source claims the link, and none before it does. */
  ghost predicate IsLink(v: View, m: Match) {
    exists n :: FirstLinkBy(n, v, m)
  }

  lemma MatcherIsExact(n: nat, v: View, m: Match)
    requires Segments(v) && n < |MATCHERS|
    ensures |MATCHERS| == 9 && (MATCHERS[n](v) == Some(m) <==> LinkBy(n, v, m))
  {
    match n
    case 0 => DriveIsExact(v, m);
    case 1 => MegaIsExact(v, m);
    case 2 => MyMiniFactoryIsExact(v, m);
    case 3 => Cults3DIsExact(v, m);
    case 4 => ThingiverseIsExact(v, m);
    case 5 => NumberedAreExact(v, m);
    case 6 => NumberedAreExact(v, m);
    case 7 => SketchfabIsExact(v, m);
    case 8 => PatreonIsExact(v, m);
  }

  predicate FirstHit(matchers: seq<View -> Option<Match>>, n: int, v: View, m: Match) {
    0 <= n < |matchers| && matchers[n](v) == Some(m) && forall k :: 0 <= k < n ==> matchers[k](v) == None
  }

  lemma {:induction false} FirstMatchIs(matchers: seq<View -> Option<Match>>, v: View, m: Match)
    ensures FirstMatch(matchers, v) == Some(m) <==> exists n :: FirstHit(matchers, n, v, m)
  {
    if matchers != [] {
      var rest := matchers[1..];
      FirstMatchIs(rest, v, m);
      if matchers[0](v).Some? {
        assert FirstHit(matchers, 0, v, matchers[0](v).value);
      } else {
        if exists n :: FirstHit(rest, n, v, m) {
          var n :| FirstHit(rest, n, v, m);
          assert forall k :: 0 < k < n + 1 ==> matchers[k] == rest[k - 1];
          assert FirstHit(matchers, n + 1, v, m);
        }
        if exists n :: FirstHit(matchers, n, v, m) {
          var n :| FirstHit(matchers, n, v, m);
          assert forall k :: 0 <= k < n - 1 ==> rest[k] == matchers[k + 1];
          assert FirstHit(rest, n - 1, v, m);
        }
      }
    }
  }

  lemma HitIsLink(n: int, v: View, m: Match)
    requires Segments(v)
    ensures FirstHit(MATCHERS, n, v, m) <==> FirstLinkBy(n, v, m)
  {
    forall k: nat, other | k < |MATCHERS| ensures MATCHERS[k](v) == Some(other) <==> LinkBy(k, v, other) {
      MatcherIsExact(k, v, other);
    }
    MatcherIsExact(0, v, m);
    if FirstLinkBy(n, v, m) {
      forall k | 0 <= k < n ensures MATCHERS[k](v) == None {
        NoLinkNoMatch(k, v);
      }
    }
  }

  lemma NoLinkNoMatch(k: nat, v: View)
    requires Segments(v) && k < |MATCHERS| && forall other :: !LinkBy(k, v, other)
    ensures MATCHERS[k](v) == None
  {
    if MATCHERS[k](v).Some? {
      MatcherIsExact(k, v, MATCHERS[k](v).value);
    }
  }

  lemma RecognisedIff(v: View, m: Match)
    requires Segments(v)
    ensures FirstMatch(MATCHERS, v) == Some(m) <==> IsLink(v, m)
  {
    FirstMatchIs(MATCHERS, v, m);
    forall n ensures FirstHit(MATCHERS, n, v, m) <==> FirstLinkBy(n, v, m) {
      HitIsLink(n, v, m);
    }
  }

  // ---------------------------------------------------------------- from the URL to the segments

  lemma {:induction false} PartsFromJoin(a: string, b: string, current: string)
    ensures PartsFrom(a + "/" + b, current) == PartsFrom(a, current) + PartsFrom(b, "")
  {
    var whole := a + "/" + b;
    if a == "" {
      assert whole[0] == '/' && whole[1..] == b;
    } else {
      assert whole[0] == a[0] && whole[1..] == a[1..] + "/" + b;
      PartsFromJoin(a[1..], b, if a[0] == '/' then "" else current + [a[0]]);
    }
  }

  lemma {:induction false} PartsFromSegment(s: string, current: string)
    requires forall i :: 0 <= i < |s| ==> s[i] != '/'
    ensures PartsFrom(s, current) == Flush(current + s)
  {
    if s == "" {
      assert current + s == current;
    } else {
      PartsFromSegment(s[1..], current + [s[0]]);
      assert current + s == current + [s[0]] + s[1..];
    }
  }

  predicate IsSegment(s: string) {
    s != "" && forall i :: 0 <= i < |s| ==> s[i] != '/'
  }

  /** A slash separates, a text without one is a segment, and empty ones do not count. */
  lemma PartsAre(a: string, b: string)
    ensures Parts(a + "/" + b) == Parts(a) + Parts(b)
    ensures IsSegment(a) ==> Parts(a) == [a]
    ensures Parts("") == []
  {
    PartsFromJoin(a, b, "");
    if IsSegment(a) {
      PartsFromSegment(a, "");
      assert "" + a == a;
    }
  }

  predicate FirstPair(pairs: seq<Pair>, i: int, key: string) {
    0 <= i < |pairs| && pairs[i].0 == key && forall k :: 0 <= k < i ==> pairs[k].0 != key
  }

  /** A parameter has its first value; one that does not occur has none. */
  lemma {:induction false} GetIs(pairs: seq<Pair>, key: string)
    ensures Get(pairs, key) == None <==> forall i :: 0 <= i < |pairs| ==> pairs[i].0 != key
    ensures forall i :: FirstPair(pairs, i, key) ==> Get(pairs, key) == Some(pairs[i].1)
  {
    if pairs != [] && pairs[0].0 != key {
      var rest := pairs[1..];
      GetIs(rest, key);
      assert forall i :: 0 < i < |pairs| ==> pairs[i] == rest[i - 1];
      forall i | FirstPair(pairs, i, key) ensures Get(pairs, key) == Some(pairs[i].1) {
        assert FirstPair(rest, i - 1, key);
      }
    }
  }

  /** What the sources are asked about a parsed URL. */
  ghost predicate Shows(w: Web, u: Url, v: View) {
    && v.host == u.host && v.parts == Parts(u.path)
    && v.id == Get(PairsOf(w, u.query), "id") && v.resourceKey == Get(PairsOf(w, u.query), "resourcekey")
    && v.hash == match u.fragment
                 case None => ""
                 case Some(f) => if f == "" then "" else "#" + f
  }

  /** A text resolves to the first source that claims it and to what that source reads; else it is unknown. */
  lemma ResolveIs(w: Web, text: string, u: Url, v: View)
    requires Sound(w) && w.parse(text) == Some(u) && Shows(w, u, v)
    ensures forall m :: IsLink(v, m) ==>
      Resolve(w, text) == Known(m.source, w.print_(Normal(w, u)), m.context)
    ensures (forall m :: !IsLink(v, m)) ==> Resolve(w, text) == Unknown(text)
  {
    assert v == ViewOf(w, u);
    assert Segments(v) by {
      assert forall i :: 0 <= i < |v.parts| ==> v.parts[i] in v.parts;
    }
    forall m ensures FirstMatch(MATCHERS, v) == Some(m) <==> IsLink(v, m) {
      RecognisedIff(v, m);
    }
  }

  lemma NoUrlIsUnknown(w: Web, text: string)
    requires w.parse(text) == None
    ensures Resolve(w, text) == Unknown(text)
  {
  }

  // ---------------------------------------------------------------- the normal form

  /** Exactly these keys are tracking keys. */
  lemma TrackingIs(key: string)
    ensures key in TRACKING <==>
      || key == "utm_source" || key == "utm_medium" || key == "utm_campaign" || key == "utm_term"
      || key == "utm_content" || key == "utm_id" || key == "fbclid" || key == "gclid" || key == "msclkid"
      || key == "ref" || key == "usp"
  {
  }

  /** Dropping keys keeps the other pairs, in order: it goes pair by pair. */
  lemma {:induction false} DropKeysIs(a: seq<Pair>, b: seq<Pair>, keys: set<string>)
    ensures DropKeys(a + b, keys) == DropKeys(a, keys) + DropKeys(b, keys)
    ensures |a| == 1 ==> DropKeys(a, keys) == if a[0].0 in keys then [] else a
  {
    if a == [] {
      assert a + b == b;
    } else {
      assert (a + b)[0] == a[0] && (a + b)[1..] == a[1..] + b;
      DropKeysIs(a[1..], b, keys);
    }
  }

  /** The path without the slashes at its end; a path of nothing but slashes is the root. */
  ghost predicate PathWithoutSlashes(path: string, r: string) {
    && |r| <= |path| && (forall i :: |r| < i < |path| ==> path[i] == '/')
    && if forall i :: 0 <= i < |path| ==> path[i] == '/' then r == "/"
       else r == path[..|r|] && r != "" && r[|r| - 1] != '/' && (|r| < |path| ==> path[|r|] == '/')
  }

  lemma {:induction false} StrippedAreSlashes(path: string)
    ensures forall i :: |StripSlashes(path)| <= i < |path| ==> path[i] == '/'
  {
    if path != "" && path[|path| - 1] == '/' {
      StrippedAreSlashes(path[..|path| - 1]);
    }
  }

  lemma NormalPathIs(path: string)
    requires path != ""
    ensures PathWithoutSlashes(path, NormalPath(path))
  {
    StrippedAreSlashes(path);
  }

  /** The normal form has no credentials, no slash at the end of its path and no tracking key; every other key has the
      value it had, and everything else is as it was. */
  lemma NormalIs(w: Web, u: Url)
    requires Sound(w) && w.valid(u)
    ensures var n := Normal(w, u);
      && n.user == "" && n.password == "" && n.host == u.host && n.scheme == u.scheme && n.port == u.port
      && n.fragment == u.fragment && PathWithoutSlashes(u.path, n.path)
      && (forall key :: key !in TRACKING ==> Get(PairsOf(w, n.query), key) == Get(PairsOf(w, u.query), key))
      && (forall i :: 0 <= i < |PairsOf(w, n.query)| ==> PairsOf(w, n.query)[i].0 !in TRACKING)
      && PairsOf(w, n.query) == DropKeys(PairsOf(w, u.query), TRACKING)
      && ((forall i :: 0 <= i < |PairsOf(w, u.query)| ==> PairsOf(w, u.query)[i].0 !in TRACKING) ==>
           n.query == u.query)
  {
    NormalPathIs(u.path);
    var pairs := PairsOf(w, u.query);
    DroppedHasNone(pairs, TRACKING);
    forall key | key !in TRACKING
      ensures Get(PairsOf(w, Normal(w, u).query), key) == Get(pairs, key)
    {
      GetOfOther(w, u.query, TRACKING, key);
    }
    WrittenReadsBack(w, DropKeys(pairs, TRACKING));
    if !HasAny(pairs, TRACKING) {
      DropSame(pairs, TRACKING, {});
      DropNothing(pairs);
    }
  }

  // ---------------------------------------------------------------- one URL all the way

  /** The view page of a Drive file resolves to that file, with its resource key. */
  lemma DriveFileResolves(w: Web, u: Url, id: string)
    requires Sound(w) && w.valid(u) && u.host == "drive.google.com" && IsSegment(id)
    requires u.path == "/file/d/" + id + "/view"
    ensures Resolve(w, w.print_(u)) ==
      Known("google-drive", w.print_(Normal(w, u)),
            Context(File, Some(id), Get(PairsOf(w, u.query), "resourcekey"), None))
  {
    DrivePathParts(id);
    var v := ViewOf(w, u);
    var m := Match("google-drive", Context(File, Some(id), v.resourceKey, None));
    assert Shows(w, u, v);
    assert FirstAt(v.parts, "d", 1);
    assert Follows(v.parts, "d", id);
    assert FirstLinkBy(0, v, m);
    ResolveIs(w, w.print_(u), u, v);
  }

  lemma DrivePathParts(id: string)
    requires IsSegment(id)
    ensures Parts("/file/d/" + id + "/view") == ["file", "d", id, "view"]
  {
    var tail := "d/" + id + "/view";
    assert "/file/d/" + id + "/view" == "" + "/" + ("file" + "/" + tail);
    PartsAre("", "file" + "/" + tail);
    PartsAre("file", tail);
    assert tail == "d" + "/" + (id + "/" + "view");
    PartsAre("d", id + "/" + "view");
    PartsAre(id, "view");
    PartsAre("view", "");
  }
}

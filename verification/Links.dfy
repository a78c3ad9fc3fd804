/** Recognising links, normalising them and deduplicating them by their normal form. */
module Links {
  import opened Wrappers
  import opened Texts

  type Pair = (string, string)

  /** A parsed http or https URL. The query, as spelled, and the fragment are without their marks; either may be absent,
      which is not the same as empty. */
  datatype Url = Url(scheme: string, user: string, password: string, host: string, port: string,
                     path: string, query: Option<string>, fragment: Option<string>)

  /** URL parsing and printing, and reading and writing a query as key-value pairs. */
  datatype Web = Web(parse: string -> Option<Url>, print_: Url -> string, pairs: string -> seq<Pair>,
                     form: seq<Pair> -> string, valid: Url -> bool)

  /** What is assumed of them: a printed URL parses back, a written query reads back, and a URL stays one when its
      credentials go, its query is rewritten or its path loses trailing slashes. */
  ghost predicate Sound(w: Web) {
    && (forall t :: w.parse(t).Some? ==> w.valid(w.parse(t).value))
    && (forall u :: w.valid(u) ==> w.parse(w.print_(u)) == Some(u))
    && (forall u :: w.valid(u) ==> u.path != "" && u.path[0] == '/' && Lower(u.host) == u.host)
    && (forall p :: w.pairs(w.form(p)) == p)
    && (forall u :: w.valid(u) ==> w.valid(Bare(u)))
    && (forall u, p :: w.valid(u) ==> w.valid(u.(query := Written(w, p))))
  }

  // ---------------------------------------------------------------- normalisation

  const TRACKING := {"utm_source", "utm_medium", "utm_campaign", "utm_term", "utm_content", "utm_id", "fbclid", "gclid",
                     "msclkid", "ref", "usp"}

  function DropKeys(pairs: seq<Pair>, keys: set<string>): seq<Pair>
  {
    if pairs == [] then []
    else if pairs[0].0 in keys then DropKeys(pairs[1..], keys)
    else [pairs[0]] + DropKeys(pairs[1..], keys)
  }

  predicate HasAny(pairs: seq<Pair>, keys: set<string>) {
    exists i :: 0 <= i < |pairs| && pairs[i].0 in keys
  }

  /** The pairs of a query; an absent one reads like an empty one. */
  function PairsOf(w: Web, query: Option<string>): seq<Pair> {
    w.pairs(if query.None? then "" else query.value)
  }

  /** The query for some pairs; one that would be written empty becomes absent. */
  function Written(w: Web, pairs: seq<Pair>): Option<string> {
    if w.form(pairs) == "" then None else Some(w.form(pairs))
  }

  /** A query is rewritten only if something is dropped from it. */
  function WithoutKeys(w: Web, query: Option<string>, keys: set<string>): Option<string> {
    if HasAny(PairsOf(w, query), keys) then Written(w, DropKeys(PairsOf(w, query), keys)) else query
  }

  function StripSlashes(path: string): (r: string)
    ensures |r| <= |path| && (r != "" ==> r[|r| - 1] != '/')
    ensures r == path[..|r|]
  {
    if path != "" && path[|path| - 1] == '/' then StripSlashes(path[..|path| - 1]) else path
  }

  function NormalPath(path: string): string {
    if |path| > 1 && path[|path| - 1] == '/' then
      // Setting an empty path leaves the bare root.
      if StripSlashes(path) == "" then "/" else StripSlashes(path)
    else path
  }

  function Bare(u: Url): Url {
    u.(host := Lower(u.host), user := "", password := "", path := NormalPath(u.path))
  }

  function Normal(w: Web, u: Url): Url {
    Bare(u).(query := WithoutKeys(w, u.query, TRACKING))
  }

  function NormalText(w: Web, raw: string): Option<string> {
    var u := w.parse(raw);
    if u.None? then None else Some(w.print_(Normal(w, u.value)))
  }

  method NormalizeUrl(w: Web, raw: string) returns (r: Option<string>)
    requires Sound(w)
    ensures r == NormalText(w, raw)
  {
    var parsed := w.parse(raw);
    if parsed.None? {
      return None;
    }
    var url := parsed.value;
    url := url.(host := Lower(url.host));
    url := url.(user := "", password := "");
    var query := DeleteKeys(w, url.query, TRACKING);
    url := url.(query := query);
    if |url.path| > 1 && url.path[|url.path| - 1] == '/' {
      var stripped := StripSlashes(url.path);
      url := url.(path := if stripped == "" then "/" else stripped);
    }
    return Some(w.print_(url));
  }

  /** Deletes every one of some keys, one at a time; each deletion rewrites the query. */
  method DeleteKeys(w: Web, query: Option<string>, doomed: set<string>) returns (r: Option<string>)
    requires forall p :: w.pairs(w.form(p)) == p
    ensures r == WithoutKeys(w, query, doomed)
  {
    ghost var pairs, gone: set<string> := PairsOf(w, query), {};
    var keys := Keys(PairsOf(w, query));
    DropNothing(pairs);
    r := query;
    for i := 0 to |keys|
      invariant PairsOf(w, r) == DropKeys(pairs, gone)
      invariant r == if gone == {} then query else Written(w, DropKeys(pairs, gone))
      invariant Common(gone, doomed, keys[..i])
    {
      CommonGrows(gone, doomed, keys, i);
      if keys[i] in doomed {
        DeleteOne(w, pairs, gone, keys[i], r);
        gone := gone + {keys[i]};
        r := Written(w, DropKeys(PairsOf(w, r), {keys[i]}));
      }
    }
    assert keys[..|keys|] == keys;
    DropPresent(pairs, gone, doomed);
  }

  ghost predicate Common(gone: set<string>, doomed: set<string>, keys: seq<string>) {
    forall k :: k in gone <==> k in doomed && k in keys
  }

  lemma CommonGrows(gone: set<string>, doomed: set<string>, keys: seq<string>, i: nat)
    requires i < |keys| && Common(gone, doomed, keys[..i])
    ensures Common(if keys[i] in doomed then gone + {keys[i]} else gone, doomed, keys[..i + 1])
  {
    assert keys[..i + 1] == keys[..i] + [keys[i]];
  }

  lemma DeleteOne(w: Web, pairs: seq<Pair>, gone: set<string>, key: string, r: Option<string>)
    requires (forall p :: w.pairs(w.form(p)) == p) && PairsOf(w, r) == DropKeys(pairs, gone)
    ensures Written(w, DropKeys(PairsOf(w, r), {key})) == Written(w, DropKeys(pairs, gone + {key}))
    ensures PairsOf(w, Written(w, DropKeys(PairsOf(w, r), {key}))) == DropKeys(pairs, gone + {key})
  {
    DropTwice(pairs, gone, {key});
    WrittenReadsBack(w, DropKeys(pairs, gone + {key}));
  }

  /** What is written for some pairs reads back, absent or not. */
  lemma WrittenReadsBack(w: Web, pairs: seq<Pair>)
    requires forall p :: w.pairs(w.form(p)) == p
    ensures PairsOf(w, Written(w, pairs)) == pairs
  {
  }

  lemma DropPresent(pairs: seq<Pair>, gone: set<string>, doomed: set<string>)
    requires Common(gone, doomed, Keys(pairs))
    ensures DropKeys(pairs, gone) == DropKeys(pairs, doomed) && (HasAny(pairs, doomed) <==> gone != {})
  {
    assert forall i :: 0 <= i < |pairs| ==> pairs[i].0 in Keys(pairs) by {
      assert forall i :: 0 <= i < |pairs| ==> Keys(pairs)[i] == pairs[i].0;
    }
    DropSame(pairs, gone, doomed);
    if gone != {} {
      var k :| k in gone;
      var i :| 0 <= i < |pairs| && Keys(pairs)[i] == k;
      assert pairs[i].0 in doomed;
    }
  }

  function Keys(pairs: seq<Pair>): (r: seq<string>)
    ensures |r| == |pairs| && forall i :: 0 <= i < |r| ==> r[i] == pairs[i].0
  {
    if pairs == [] then [] else [pairs[0].0] + Keys(pairs[1..])
  }

  lemma {:induction false} DropNothing(pairs: seq<Pair>)
    ensures DropKeys(pairs, {}) == pairs
  {
    if pairs != [] {
      DropNothing(pairs[1..]);
    }
  }

  lemma {:induction false} DropTwice(pairs: seq<Pair>, a: set<string>, b: set<string>)
    ensures DropKeys(DropKeys(pairs, a), b) == DropKeys(pairs, a + b)
  {
    if pairs != [] {
      DropTwice(pairs[1..], a, b);
    }
  }

  /** Dropping keys depends only on those that occur. */
  lemma {:induction false} DropSame(pairs: seq<Pair>, a: set<string>, b: set<string>)
    requires forall i :: 0 <= i < |pairs| ==> (pairs[i].0 in a <==> pairs[i].0 in b)
    ensures DropKeys(pairs, a) == DropKeys(pairs, b)
  {
    if pairs != [] {
      assert forall i :: 0 <= i < |pairs[1..]| ==> pairs[1..][i] == pairs[i + 1];
      DropSame(pairs[1..], a, b);
    }
  }

  // ---------------------------------------------------------------- matchers

  datatype Kind = File | Folder | Open

  datatype Context = Context(kind: Kind, id: Option<string>, resourceKey: Option<string>, fragment: Option<string>)

  datatype Match = Match(source: string, context: Context)

  /** All a matcher looks at; the hash is the fragment with its mark, or empty. */
  datatype View = View(host: string, parts: seq<string>, id: Option<string>, resourceKey: Option<string>, hash: string)

  function PartsFrom(path: string, current: string): (r: seq<string>)
    ensures forall p :: p in r ==> p != ""
  {
    if path == "" then Flush(current)
    else if path[0] == '/' then Flush(current) + PartsFrom(path[1..], "")
    else PartsFrom(path[1..], current + [path[0]])
  }

  function Flush(current: string): seq<string> {
    if current == "" then [] else [current]
  }

  /** The non-empty segments of a path. */
  function Parts(path: string): (r: seq<string>)
    ensures forall p :: p in r ==> p != ""
  {
    PartsFrom(path, "")
  }

  function Get(pairs: seq<Pair>, key: string): Option<string> {
    if pairs == [] then None else if pairs[0].0 == key then Some(pairs[0].1) else Get(pairs[1..], key)
  }

  function ViewOf(w: Web, u: Url): View {
    View(Lower(u.host), Parts(u.path), Get(PairsOf(w, u.query), "id"), Get(PairsOf(w, u.query), "resourcekey"),
         if u.fragment.None? || u.fragment.value == "" then "" else "#" + u.fragment.value)
  }

  function IndexOf(parts: seq<string>, s: string): (r: int)
    ensures -1 <= r < |parts|
    ensures r >= 0 ==> parts[r] == s && s !in parts[..r]
    ensures r < 0 ==> s !in parts
  {
    if parts == [] then -1
    else if parts[0] == s then 0
    else
      var i := IndexOf(parts[1..], s);
      if i < 0 then -1 else i + 1
  }

  /** The part after the first occurrence of `s`. */
  function PartAfter(parts: seq<string>, s: string): (r: Option<string>)
    ensures r.Some? ==> r.value in parts
  {
    var i := IndexOf(parts, s);
    if i >= 0 && i + 1 < |parts| then Some(parts[i + 1]) else None
  }

  function PartAt(parts: seq<string>, i: nat): string {
    if i < |parts| then parts[i] else ""
  }

  predicate Includes(s: string, needle: string) {
    exists i :: 0 <= i <= |s| && StartsWith(s[i..], needle)
  }

  function LeadingDigits(s: string): string {
    if s == "" || !IsDigit(s[0]) then "" else [s[0]] + LeadingDigits(s[1..])
  }

  function TrailingDigits(s: string): (r: string)
    ensures |r| <= |s|
  {
    if s == "" || !IsDigit(s[|s| - 1]) then "" else TrailingDigits(s[..|s| - 1]) + [s[|s| - 1]]
  }

  /** The digits of a segment that ends in a hyphen and digits. */
  function NumericSuffix(s: string): Option<string> {
    var d := TrailingDigits(s);
    if d != "" && |d| < |s| && s[|s| - |d| - 1] == '-' then Some(d) else None
  }

  function HexSuffix(s: string): Option<string> {
    if |s| > 32 && s[|s| - 33] == '-' && forall i :: |s| - 32 <= i < |s| ==>
      IsHexDigit(s[i]) then Some(Lower(s[|s| - 32..])) else None
  }

  function Item(source: string, kind: Kind, id: string): Option<Match> {
    Some(Match(source, Context(kind, Some(id), None, None)))
  }

  function MatchGoogleDrive(v: View): Option<Match> {
    if v.host !in {"drive.google.com", "docs.google.com", "sheets.google.com", "slides.google.com"} then None
    else if v.host == "drive.google.com" && PartAt(v.parts, 0) == "open" then
      if v.id.None? || v.id.value == "" then None else Item("google-drive", Open, v.id.value)
    else if PartAfter(v.parts, "d").Some? then
      Some(Match("google-drive", Context(File, PartAfter(v.parts, "d"), v.resourceKey, None)))
    else if PartAfter(v.parts, "folders").Some? then Item("google-drive", Folder, PartAfter(v.parts, "folders").value)
    else None
  }

  predicate StartsWith(s: string, prefix: string) {
    |prefix| <= |s| && s[..|prefix|] == prefix
  }

  function MatchMega(v: View): Option<Match> {
    var fragment := if v.hash == "" then None else Some(v.hash);
    if v.host != "mega.nz" && v.host != "mega.co.nz" then None
    else if StartsWith(v.hash, "#F!") then Some(Match("mega", Context(Folder, None, None, Some(v.hash))))
    else if |v.parts| >= 2 && v.parts[0] == "folder" then
      Some(Match("mega", Context(Folder, Some(v.parts[1]), None, fragment)))
    else if |v.parts| >= 2 && v.parts[0] == "file" then
      Some(Match("mega", Context(File, Some(v.parts[1]), None, fragment)))
    else None
  }

  function MatchMyMiniFactory(v: View): Option<Match> {
    if !Includes(v.host, "myminifactory.com") then None
    else if PartAt(v.parts, 0) == "object" then
      var last := v.parts[|v.parts| - 1];
      Item("mymini-factory", File, if NumericSuffix(last).Some? then NumericSuffix(last).value else last)
    else if PartAt(v.parts, 0) == "users" && PartAt(v.parts, 2) == "collections" && PartAt(v.parts, 3) != "" then
      Item("mymini-factory", Folder, v.parts[3])
    else None
  }

  function MatchCults3D(v: View): Option<Match> {
    if !Includes(v.host, "cults3d.com") then None
    else if PartAfter(v.parts, "3d-model").Some? then Item("cults3d", File, PartAfter(v.parts, "3d-model").value)
    else None
  }

  function FirstThing(parts: seq<string>): Option<string> {
    if parts == [] then None
    else
      var digits := if StartsWith(parts[0], "thing:") then parts[0][6..] else "";
      if digits != "" && LeadingDigits(digits) == digits then Some(digits) else FirstThing(parts[1..])
  }

  function MatchThingiverse(v: View): Option<Match> {
    if !Includes(v.host, "thingiverse.com") || FirstThing(v.parts).None? then None
    else Item("thingiverse", File, FirstThing(v.parts).value)
  }

  /** A segment after a marker, by the digits it starts with. */
  function Numbered(v: View, marker: string, source: string): Option<Match> {
    var seg := PartAfter(v.parts, marker);
    if seg.None? || LeadingDigits(seg.value) == "" then None else Item(source, File, LeadingDigits(seg.value))
  }

  function MatchPrintables(v: View): Option<Match> {
    if Includes(v.host, "printables.com") then Numbered(v, "model", "printables") else None
  }

  function MatchMakerWorld(v: View): Option<Match> {
    if Includes(v.host, "makerworld.com") then Numbered(v, "models", "makerworld") else None
  }

  function MatchSketchfab(v: View): Option<Match> {
    var seg := PartAt(v.parts, 1);
    if !Includes(v.host, "sketchfab.com") || seg == "" then None
    else if v.parts[0] == "3d-models" then
      Item("sketchfab", File, if HexSuffix(seg).Some? then HexSuffix(seg).value else seg)
    else if v.parts[0] == "models" then Item("sketchfab", File, seg)
    else None
  }

  function MatchPatreon(v: View): Option<Match> {
    var seg := PartAt(v.parts, 1);
    if !Includes(v.host, "patreon.com") then None
    else if PartAt(v.parts, 0) == "posts" && seg != "" then
      Item("patreon", File, if NumericSuffix(seg).Some? then NumericSuffix(seg).value else seg)
    else if |v.parts| == 1 then Item("patreon", Folder, v.parts[0])
    else None
  }

  const MATCHERS: seq<View -> Option<Match>> :=
    [MatchGoogleDrive, MatchMega, MatchMyMiniFactory, MatchCults3D, MatchThingiverse, MatchPrintables, MatchMakerWorld,
     MatchSketchfab, MatchPatreon]

  /** The first matcher that recognises the URL decides. */
  function FirstMatch(matchers: seq<View -> Option<Match>>, v: View): Option<Match> {
    if matchers == [] then None
    else if matchers[0](v).Some? then matchers[0](v)
    else FirstMatch(matchers[1..], v)
  }

  // ---------------------------------------------------------------- resolution

  datatype Resolution = Known(source: string, normalized: string, context: Context) | Unknown(raw: string)

  function Resolve(w: Web, text: string): Resolution {
    var u := w.parse(text);
    if u.None? then Unknown(text)
    else
      var m := FirstMatch(MATCHERS, ViewOf(w, u.value));
      if m.None? || NormalText(w, text).None? then Unknown(text)
      else Known(m.value.source, NormalText(w, text).value, m.value.context)
  }

  /** What `scan` deduplicates by. */
  function Key(r: Resolution): string {
    if r.Known? then r.normalized else r.raw
  }

  predicate HasHandle(m: Match) {
    (m.context.id.Some? && m.context.id.value != "") ||
    (m.context.id.None? && m.source == "mega" && m.context.fragment.Some?)
  }

  predicate MatchesWithHandle(m: View -> Option<Match>, v: View) {
    m(v).Some? ==> HasHandle(m(v).value)
  }

  /** Every recognised link can be addressed: it has a non-empty id or, for old MEGA links, a fragment. */
  lemma KnownHasHandle(w: Web, text: string)
    requires Resolve(w, text).Known?
    ensures HasHandle(Match(Resolve(w, text).source, Resolve(w, text).context))
  {
    var v := ViewOf(w, w.parse(text).value);
    assert Segments(v) by {
      assert forall i :: 0 <= i < |v.parts| ==> v.parts[i] in v.parts;
    }
    DrivesHaveHandle(v);
    ModelsHaveHandle(v);
    PagesHaveHandle(v);
    FirstMatchHasHandle(MATCHERS, v);
  }

  lemma {:induction false} FirstMatchHasHandle(matchers: seq<View -> Option<Match>>, v: View)
    requires forall i :: 0 <= i < |matchers| ==> MatchesWithHandle(matchers[i], v)
    ensures FirstMatch(matchers, v).Some? ==> HasHandle(FirstMatch(matchers, v).value)
  {
    if matchers != [] {
      assert MatchesWithHandle(matchers[0], v);
      FirstMatchHasHandle(matchers[1..], v);
    }
  }

  predicate Segments(v: View) {
    forall i :: 0 <= i < |v.parts| ==> v.parts[i] != ""
  }

  lemma DrivesHaveHandle(v: View)
    requires Segments(v)
    ensures MatchesWithHandle(MatchGoogleDrive, v) && MatchesWithHandle(MatchMega, v)
  {
  }

  lemma ModelsHaveHandle(v: View)
    requires Segments(v)
    ensures MatchesWithHandle(MatchCults3D, v) && MatchesWithHandle(MatchThingiverse, v)
    ensures MatchesWithHandle(MatchPrintables, v) && MatchesWithHandle(MatchMakerWorld, v)
  {
    FirstThingIsNumber(v.parts);
  }

  lemma PagesHaveHandle(v: View)
    requires Segments(v)
    ensures MatchesWithHandle(MatchMyMiniFactory, v) && MatchesWithHandle(MatchSketchfab, v) &&
      MatchesWithHandle(MatchPatreon, v)
  {
  }

  lemma {:induction false} FirstThingIsNumber(parts: seq<string>)
    ensures FirstThing(parts).Some? ==> FirstThing(parts).value != ""
  {
    if parts != [] {
      FirstThingIsNumber(parts[1..]);
    }
  }

  // ---------------------------------------------------------------- normalisation preserves meaning

  lemma {:induction false} PartsIgnoreTrailingSlash(path: string, current: string)
    ensures PartsFrom(path + "/", current) == PartsFrom(path, current)
  {
    if path == "" {
      assert path + "/" == "/" && "/"[1..] == "";
    } else {
      assert (path + "/")[0] == path[0] && (path + "/")[1..] == path[1..] + "/";
      PartsIgnoreTrailingSlash(path[1..], if path[0] == '/' then "" else current + [path[0]]);
    }
  }

  lemma {:induction false} PartsOfStripped(path: string)
    ensures Parts(StripSlashes(path)) == Parts(path)
  {
    if path != "" && path[|path| - 1] == '/' {
      var shorter := path[..|path| - 1];
      PartsOfStripped(shorter);
      PartsIgnoreTrailingSlash(shorter, "");
      assert path == shorter + "/";
    }
  }

  lemma {:induction false} GetAfterDrop(pairs: seq<Pair>, keys: set<string>, key: string)
    requires key !in keys
    ensures Get(DropKeys(pairs, keys), key) == Get(pairs, key)
  {
    if pairs != [] {
      GetAfterDrop(pairs[1..], keys, key);
    }
  }

  lemma PartsOfNormal(path: string)
    ensures Parts(NormalPath(path)) == Parts(path)
  {
    PartsOfStripped(path);
    PartsIgnoreTrailingSlash("", "");
    assert "" + "/" == "/";
  }

  lemma GetOfOther(w: Web, query: Option<string>, keys: set<string>, key: string)
    requires (forall p :: w.pairs(w.form(p)) == p) && key !in keys
    ensures Get(PairsOf(w, WithoutKeys(w, query, keys)), key) == Get(PairsOf(w, query), key)
  {
    GetAfterDrop(PairsOf(w, query), keys, key);
    WrittenReadsBack(w, DropKeys(PairsOf(w, query), keys));
  }

  lemma KeptKeys()
    ensures "id" !in TRACKING && "resourcekey" !in TRACKING
  {
  }

  lemma QueryOfNormal(w: Web, query: Option<string>)
    requires forall p :: w.pairs(w.form(p)) == p
    ensures Get(PairsOf(w, WithoutKeys(w, query, TRACKING)), "id") == Get(PairsOf(w, query), "id")
    ensures Get(PairsOf(w, WithoutKeys(w, query, TRACKING)), "resourcekey") == Get(PairsOf(w, query), "resourcekey")
  {
    KeptKeys();
    GetOfOther(w, query, TRACKING, "id");
    GetOfOther(w, query, TRACKING, "resourcekey");
  }

  /** Normalisation changes nothing a matcher looks at. */
  lemma NormalKeepsView(w: Web, u: Url)
    requires Sound(w) && w.valid(u)
    ensures ViewOf(w, Normal(w, u)) == ViewOf(w, u)
  {
    PartsOfNormal(u.path);
    QueryOfNormal(w, u.query);
  }

  lemma {:induction false} DroppedHasNone(pairs: seq<Pair>, keys: set<string>)
    ensures !HasAny(DropKeys(pairs, keys), keys)
  {
    if pairs != [] {
      DroppedHasNone(pairs[1..], keys);
    }
  }

  lemma NormalIsNormal(w: Web, u: Url)
    requires Sound(w) && w.valid(u)
    ensures Normal(w, Normal(w, u)) == Normal(w, u) && w.valid(Normal(w, u))
  {
    var kept := DropKeys(PairsOf(w, u.query), TRACKING);
    DroppedHasNone(PairsOf(w, u.query), TRACKING);
    WrittenReadsBack(w, kept);
    assert w.valid(Bare(u)) && w.valid(Bare(u).(query := Written(w, kept)));
  }

  /** Normalising twice is normalising once. */
  lemma NormalizeIdempotent(w: Web, text: string)
    requires Sound(w) && NormalText(w, text).Some?
    ensures NormalText(w, NormalText(w, text).value) == NormalText(w, text)
  {
    NormalIsNormal(w, w.parse(text).value);
  }

  /** The normal form of a recognised link is recognised as the same link. */
  lemma NormalFormIsSameLink(w: Web, text: string)
    requires Sound(w) && Resolve(w, text).Known?
    ensures Resolve(w, Resolve(w, text).normalized) == Resolve(w, text)
  {
    var u := w.parse(text).value;
    NormalIsNormal(w, u);
    NormalKeepsView(w, u);
    assert w.parse(Resolve(w, text).normalized) == Some(Normal(w, u));
  }

  /** The key of a resolution, resolved again, gives that resolution back. */
  lemma KeyResolvesToItself(w: Web, text: string)
    requires Sound(w)
    ensures Resolve(w, Key(Resolve(w, text))) == Resolve(w, text)
  {
    if Resolve(w, text).Known? {
      NormalFormIsSameLink(w, text);
    }
  }

  /** So links share a key only if they are the same link: a known and an unknown one never do, two known ones agree on
      source and context, two unknown ones are the same text. */
  lemma SameKeySameLink(w: Web, a: string, b: string)
    requires Sound(w)
    ensures Key(Resolve(w, a)) == Key(Resolve(w, b)) <==> Resolve(w, a) == Resolve(w, b)
  {
    KeyResolvesToItself(w, a);
    KeyResolvesToItself(w, b);
  }

  // ---------------------------------------------------------------- scanning

  function Resolver(w: Web): string -> Resolution {
    t => Resolve(w, t)
  }

  function ResolveAll(resolve: string -> Resolution, urls: seq<string>): (r: seq<Resolution>)
    ensures |r| == |urls| && forall i :: 0 <= i < |r| ==> r[i] == resolve(urls[i])
  {
    if urls == [] then [] else [resolve(urls[0])] + ResolveAll(resolve, urls[1..])
  }

  /** Elements with the same key are the same. */
  ghost predicate Keyed(all: seq<Resolution>) {
    forall i, j :: 0 <= i < |all| && 0 <= j < |all| && Key(all[i]) == Key(all[j]) ==> all[i] == all[j]
  }

  lemma ResolveAllIsKeyed(w: Web, urls: seq<string>)
    requires Sound(w)
    ensures Keyed(ResolveAll(Resolver(w), urls))
  {
    var all := ResolveAll(Resolver(w), urls);
    forall i, j | 0 <= i < |all| && 0 <= j < |all| && Key(all[i]) == Key(all[j])
      ensures all[i] == all[j]
    {
      assert all[i] == Resolver(w)(urls[i]) && all[j] == Resolver(w)(urls[j]);
      SameKeySameLink(w, urls[i], urls[j]);
    }
  }

  /** `results` lists every element of `all` once, in order of first appearance, `at` saying where that was. */
  ghost predicate Distinct(all: seq<Resolution>, results: seq<Resolution>, at: seq<nat>) {
    && |at| == |results|
    && (forall j :: 0 <= j < |at| ==> at[j] < |all| && results[j] == all[at[j]] && results[j] !in all[..at[j]])
    && (forall j, k :: 0 <= j < k < |at| ==> at[j] < at[k])
    && (forall r :: r in all <==> r in results)
  }

  lemma DistinctGrows(all: seq<Resolution>, r: Resolution, results: seq<Resolution>, at: seq<nat>)
    requires Distinct(all, results, at)
    ensures r in results ==> Distinct(all + [r], results, at)
    ensures r !in results ==> Distinct(all + [r], results + [r], at + [|all|])
  {
    assert forall j :: 0 <= j < |at| ==> (all + [r])[..at[j]] == all[..at[j]];
    assert (all + [r])[..|all|] == all;
  }

  /** What the scan has kept of the first `i` elements, and the keys it has seen. */
  function Scanned(all: seq<Resolution>, i: nat): (seq<Resolution>, set<string>)
    requires i <= |all|
  {
    if i == 0 then ([], {})
    else
      var (kept, seen) := Scanned(all, i - 1);
      var r := all[i - 1];
      if Key(r) in seen then (kept, seen) else (kept + [r], seen + {Key(r)})
  }

  /** The keys seen are those of the elements kept, and these come from the list. */
  lemma {:induction false} SeenAreKept(all: seq<Resolution>, i: nat, key: string)
    requires i <= |all|
    ensures key in Scanned(all, i).1 <==> exists r :: r in Scanned(all, i).0 && Key(r) == key
    ensures forall r :: r in Scanned(all, i).0 ==> r in all[..i]
  {
    if i > 0 {
      SeenAreKept(all, i - 1, key);
      assert all[..i] == all[..i - 1] + [all[i - 1]];
    }
  }

  lemma KeptIffNew(all: seq<Resolution>, i: nat)
    requires Keyed(all) && i < |all|
    ensures Key(all[i]) in Scanned(all, i).1 <==> all[i] in Scanned(all, i).0
  {
    SeenAreKept(all, i, Key(all[i]));
    forall r | r in all[..i] && Key(r) == Key(all[i])
      ensures r == all[i]
    {
      var j :| 0 <= j < i && all[j] == r;
    }
  }

  /** The scan keeps every element once, in order of first appearance. */
  lemma {:induction false} ScannedIsDistinct(all: seq<Resolution>, i: nat) returns (at: seq<nat>)
    requires Keyed(all) && i <= |all|
    ensures Distinct(all[..i], Scanned(all, i).0, at)
  {
    if i == 0 {
      at := [];
    } else {
      at := ScannedIsDistinct(all, i - 1);
      assert all[..i] == all[..i - 1] + [all[i - 1]];
      DistinctGrows(all[..i - 1], all[i - 1], Scanned(all, i - 1).0, at);
      KeptIffNew(all, i - 1);
      if all[i - 1] !in Scanned(all, i - 1).0 {
        at := at + [i - 1];
      }
    }
  }

  /** Every element of `all` once, in order of first appearance. */
  ghost predicate FirstAppearances(all: seq<Resolution>, results: seq<Resolution>) {
    exists at :: Distinct(all, results, at)
  }

  /** Resolves the URLs found in a text, each link once, in order of first appearance. Nothing is lost: what is dropped
      was in the results already, source, context and all. */
  method Scan(w: Web, urls: seq<string>) returns (results: seq<Resolution>)
    requires Sound(w)
    ensures FirstAppearances(ResolveAll(Resolver(w), urls), results)
    ensures forall r :: r in ResolveAll(Resolver(w), urls) <==> r in results
  {
    results := ScanAll(Resolver(w), urls);
    ResolveAllIsKeyed(w, urls);
    ghost var all := ResolveAll(Resolver(w), urls);
    ghost var at := ScannedIsDistinct(all, |all|);
    assert all[..|all|] == all;
  }

  /** The loop, with the set of the keys it has seen. */
  method ScanAll(resolve: string -> Resolution, urls: seq<string>) returns (results: seq<Resolution>)
    ensures results == Scanned(ResolveAll(resolve, urls), |urls|).0
  {
    ghost var all := ResolveAll(resolve, urls);
    var seen: set<string> := {};
    results := [];
    for i := 0 to |urls|
      invariant (results, seen) == Scanned(all, i)
    {
      var resolution := resolve(urls[i]);
      var key := Key(resolution);
      if key !in seen {
        seen := seen + {key};
        results := results + [resolution];
      }
    }
  }

  // ---------------------------------------------------------------- the assumptions can be met

  // A web of one host: a text is the query of its URL. Pairs are written with every character escaped.

  function WriteText(t: string): string {
    if t == "" then ";" else ['x', t[0]] + WriteText(t[1..])
  }

  function ReadText(t: string): (r: (string, string))
    ensures |r.1| <= |t| && (t != "" ==> |r.1| < |t|)
  {
    if t == "" then ("", "")
    else if t[0] == 'x' && |t| >= 2 then
      var (first, rest) := ReadText(t[2..]);
      ([t[1]] + first, rest)
    else ("", t[1..])
  }

  function WritePairs(pairs: seq<Pair>): string {
    if pairs == [] then "" else WriteText(pairs[0].0) + (WriteText(pairs[0].1) + WritePairs(pairs[1..]))
  }

  function ReadPairs(t: string): seq<Pair>
    decreases |t|
  {
    if t == "" then []
    else
      var (key, rest) := ReadText(t);
      var (value, more) := ReadText(rest);
      [(key, value)] + ReadPairs(more)
  }

  lemma ReadEscaped(c: char, more: string)
    ensures ReadText(['x', c] + more) == ([c] + ReadText(more).0, ReadText(more).1)
  {
    var w := ['x', c] + more;
    assert w[0] == 'x' && w[1] == c && w[2..] == more;
  }

  lemma WriteEscaped(t: string, rest: string)
    requires t != ""
    ensures WriteText(t) + rest == ['x', t[0]] + (WriteText(t[1..]) + rest)
  {
  }

  lemma {:induction false} TextReadsBack(t: string, rest: string)
    ensures ReadText(WriteText(t) + rest) == (t, rest)
  {
    if t == "" {
      assert (";" + rest)[1..] == rest;
    } else {
      WriteEscaped(t, rest);
      ReadEscaped(t[0], WriteText(t[1..]) + rest);
      TextReadsBack(t[1..], rest);
      assert [t[0]] + t[1..] == t;
    }
  }

  lemma {:induction false} PairsReadBack(pairs: seq<Pair>)
    ensures ReadPairs(WritePairs(pairs)) == pairs
  {
    if pairs != [] {
      TextReadsBack(pairs[0].0, WriteText(pairs[0].1) + WritePairs(pairs[1..]));
      TextReadsBack(pairs[0].1, WritePairs(pairs[1..]));
      PairsReadBack(pairs[1..]);
    }
  }

  function OneHost(query: Option<string>): Url {
    Url("https:", "", "", "h", "", "/", query, None)
  }

  function PrintQuery(u: Url): string {
    if u.query.None? then "" else "?" + u.query.value
  }

  function ParseQuery(t: string): Option<Url> {
    if t == "" then Some(OneHost(None)) else if t[0] == '?' then Some(OneHost(Some(t[1..]))) else None
  }

  const SMALL_WEB := Web(ParseQuery, PrintQuery, ReadPairs, WritePairs, (u: Url) => u == OneHost(u.query))

  /** The assumptions about parsing and printing are consistent. */
  lemma SoundIsPossible()
    ensures Sound(SMALL_WEB)
  {
    forall p
      ensures SMALL_WEB.pairs(SMALL_WEB.form(p)) == p
    {
      PairsReadBack(p);
    }
    forall query
      ensures Bare(OneHost(query)) == OneHost(query)
    {
      assert Lower("h") == "h";
    }
  }
}

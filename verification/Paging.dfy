/** Keyset paging by ascending id, over a table that may change between requests. */
module Paging {
  import opened Wrappers

  datatype Row<B> = Row(id: string, body: B)

  // ---------------------------------------------------------------- the order of ids

  predicate LexLess(a: string, b: string) {
    b != "" && (a == "" || a[0] < b[0] || (a[0] == b[0] && LexLess(a[1..], b[1..])))
  }

  lemma {:induction false} LexTransitive(a: string, b: string, c: string)
    requires LexLess(a, b) && LexLess(b, c)
    ensures LexLess(a, c)
  {
    if a != "" && a[0] == b[0] == c[0] {
      LexTransitive(a[1..], b[1..], c[1..]);
    }
  }

  lemma {:induction false} LexIrreflexive(a: string)
    ensures !LexLess(a, a)
  {
    if a != "" {
      LexIrreflexive(a[1..]);
    }
  }

  /** The texts agree up to here, and then the first one ends or has the smaller character. */
  predicate DifferAt(a: string, b: string, k: int) {
    && 0 <= k <= |a| && k < |b| && (forall i :: 0 <= i < k ==> a[i] == b[i])
    && (k < |a| ==> a[k] < b[k])
  }

  lemma DifferLater(a: string, b: string, k: nat)
    requires a != "" && b != "" && a[0] == b[0]
    ensures DifferAt(a[1..], b[1..], k) <==> DifferAt(a, b, k + 1)
  {
    assert forall i :: 0 < i < |a| ==> a[i] == a[1..][i - 1];
    assert forall i :: 0 < i < |b| ==> b[i] == b[1..][i - 1];
    if DifferAt(a, b, k + 1) {
      forall i | 0 <= i < k ensures a[1..][i] == b[1..][i] {
        assert a[i + 1] == b[i + 1];
      }
    }
  }

  lemma {:induction false} LexLessIs(a: string, b: string)
    ensures LexLess(a, b) <==> exists k :: DifferAt(a, b, k)
  {
    if a == "" || b == "" || a[0] != b[0] {
      assert b != "" && (a == "" || a[0] < b[0]) ==> DifferAt(a, b, 0);
    } else {
      LexLessIs(a[1..], b[1..]);
      if LexLess(a, b) {
        var k :| DifferAt(a[1..], b[1..], k);
        DifferLater(a, b, k);
      }
      if exists k :: DifferAt(a, b, k) {
        var k :| DifferAt(a, b, k);
        DifferLater(a, b, k - 1);
      }
    }
  }

  /** A table in the order of its primary key. */
  ghost predicate Sorted<B(!new)>(t: seq<Row<B>>) {
    forall i, j :: 0 <= i < j < |t| ==> LexLess(t[i].id, t[j].id)
  }

  // ---------------------------------------------------------------- one page

  /** An absent and an empty cursor are the same. */
  predicate Wanted<B(!new)>(r: Row<B>, keep: Row<B> -> bool, cursor: string) {
    keep(r) && (cursor == "" || LexLess(cursor, r.id))
  }

  function Select<B(!new)>(t: seq<Row<B>>, keep: Row<B> -> bool, cursor: string): seq<Row<B>> {
    if t == [] then []
    else if Wanted(t[0], keep, cursor) then [t[0]] + Select(t[1..], keep, cursor)
    else Select(t[1..], keep, cursor)
  }

  function Limited<B(!new)>(rows: seq<Row<B>>, n: nat): seq<Row<B>> {
    if |rows| <= n then rows else rows[..n]
  }

  /** The filament list hands out an empty id as a cursor; the agent and job lists take it for no cursor at all. */
  datatype Style = KeepsEmptyCursor | DropsEmptyCursor

  datatype Page<B> = Page(rows: seq<Row<B>>, next: Option<string>)

  function ListPage<B(!new)>(style: Style, t: seq<Row<B>>, keep: Row<B> -> bool, limit: nat, cursor: string): Page<B> {
    var rows := Limited(Select(t, keep, cursor), limit + 1);
    var hasMore := |rows| > limit;
    var sliced := if hasMore then rows[..limit] else rows;
    var last := if sliced == [] then "" else sliced[|sliced| - 1].id;
    Page(sliced, if hasMore && sliced != [] && (last != "" || style.KeepsEmptyCursor?) then Some(last) else None)
  }

  /** The page size of the filament list. */
  function FilamentLimit(asked: Option<int>): (n: nat)
    ensures 1 <= n <= 200
  {
    var wished := if asked.None? then 50 else asked.value;
    var atLeastOne := if wished < 1 then 1 else wished;
    if atLeastOne > 200 then 200 else atLeastOne
  }

  // ---------------------------------------------------------------- following the cursor

  datatype Walk<B> = Walk(rows: seq<Row<B>>, done: bool)

  /** All rows got by following the cursor, the k-th request meeting the k-th table; done if a page had no successor. */
  function Follow<B(!new)>(style: Style, tables: seq<seq<Row<B>>>, keep: Row<B> -> bool, limit: nat,
    cursor: string): Walk<B> {
    if tables == [] then Walk([], false)
    else
      var page := ListPage(style, tables[0], keep, limit, cursor);
      if page.next.None? then Walk(page.rows, true)
      else
        var rest := Follow(style, tables[1..], keep, limit, page.next.value);
        Walk(page.rows + rest.rows, rest.done)
  }

  // ---------------------------------------------------------------- properties of one page

  /** The selection is a filter. */
  lemma {:induction false} SelectIsFilter<B(!new)>(t: seq<Row<B>>, keep: Row<B> -> bool, cursor: string)
    ensures forall x :: x in Select(t, keep, cursor) <==> x in t && Wanted(x, keep, cursor)
  {
    if t != [] {
      SelectIsFilter(t[1..], keep, cursor);
    }
  }

  lemma {:induction false} SelectIsSorted<B(!new)>(t: seq<Row<B>>, keep: Row<B> -> bool, cursor: string)
    requires Sorted(t)
    ensures Sorted(Select(t, keep, cursor))
  {
    if t != [] {
      SelectIsSorted(t[1..], keep, cursor);
      SelectIsFilter(t[1..], keep, cursor);
      var rest := Select(t[1..], keep, cursor);
      forall j | 0 <= j < |rest|
        ensures LexLess(t[0].id, rest[j].id)
      {
        assert rest[j] in t[1..];
        var i :| 0 <= i < |t[1..]| && t[1..][i] == rest[j];
        assert LexLess(t[0].id, t[i + 1].id);
      }
    }
  }

  /** Kept, and with an id beyond a proper cursor. */
  ghost predicate Beyond<B(!new)>(r: Row<B>, t: seq<Row<B>>, keep: Row<B> -> bool, cursor: string) {
    r in t && keep(r) && (cursor != "" ==> LexLess(cursor, r.id))
  }

  /** What is cut off a sorted list is beyond all that is left. */
  lemma CutSplits<B(!new)>(s: seq<Row<B>>, limit: nat)
    requires Sorted(s) && limit < |s|
    ensures Sorted(s[..limit]) && s[limit] !in s[..limit]
    ensures forall r, p :: r in s && r !in s[..limit] && p in s[..limit] ==> LexLess(p.id, r.id)
  {
    var cut := s[..limit];
    assert forall i :: 0 <= i < limit ==> cut[i] == s[i] && s[i] in cut;
    forall p | p in cut ensures p != s[limit] {
      LexIrreflexive(s[limit].id);
    }
    forall r, p | r in s && r !in cut && p in cut ensures LexLess(p.id, r.id) {
      var i :| 0 <= i < |s| && s[i] == r;
      var j :| 0 <= j < limit && cut[j] == p;
    }
  }

  /** A page has the first rows that are kept and beyond the cursor, up to the limit. It has a cursor if and only if
      rows are left over, except that one style drops an empty one; the cursor is its last id. */
  lemma PageIs<B(!new)>(style: Style, t: seq<Row<B>>, keep: Row<B> -> bool, limit: nat, cursor: string)
    requires Sorted(t) && limit > 0
    ensures var page := ListPage(style, t, keep, limit, cursor);
      && |page.rows| <= limit && Sorted(page.rows)
      && (forall r :: r in page.rows ==> Beyond(r, t, keep, cursor))
      && (forall r, p :: Beyond(r, t, keep, cursor) && r !in page.rows && p in page.rows ==> LexLess(p.id, r.id))
      && ((exists r :: Beyond(r, t, keep, cursor) && r !in page.rows) ==> |page.rows| == limit)
      && (page.next.Some? <==>
           && (exists r :: Beyond(r, t, keep, cursor) && r !in page.rows)
           && (page.rows[|page.rows| - 1].id != "" || style == KeepsEmptyCursor))
      && (page.next.Some? ==> page.next.value == page.rows[|page.rows| - 1].id)
  {
    var s, page := Select(t, keep, cursor), ListPage(style, t, keep, limit, cursor);
    PageIsPrefix(style, t, keep, limit, cursor);
    SelectIsSorted(t, keep, cursor);
    SelectIsFilter(t, keep, cursor);
    forall r ensures Beyond(r, t, keep, cursor) <==> r in s {
    }
    if |s| > limit {
      CutSplits(s, limit);
      assert s[limit] in s;
    }
  }

  /** The one page whose cursor is empty: a single row whose id is empty, with more to come. Only a request without a
      cursor can meet it. */
  predicate StuckAtEmptyId<B(!new)>(t: seq<Row<B>>, keep: Row<B> -> bool, limit: nat) {
    limit == 1 && |Select(t, keep, "")| > 1 && Select(t, keep, "")[0].id == ""
  }

  lemma LastIsEmptyIff<B(!new)>(t: seq<Row<B>>, keep: Row<B> -> bool, limit: nat, cursor: string)
    requires Sorted(t) && 0 < limit < |Select(t, keep, cursor)|
    ensures Select(t, keep, cursor)[limit - 1].id == "" <==> cursor == "" && StuckAtEmptyId(t, keep, limit)
  {
    var s := Select(t, keep, cursor);
    SelectIsSorted(t, keep, cursor);
    SelectIsFilter(t, keep, cursor);
    if limit > 1 {
      assert LexLess(s[0].id, s[limit - 1].id);
    } else {
      assert s[0] in s;
    }
  }

  /** A page is a beginning of what is wanted. If nothing is left over it has no cursor; else its cursor is its last id,
      which is proper if and only if the request is not stuck at an empty id. */
  lemma PageIsPrefix<B(!new)>(style: Style, t: seq<Row<B>>, keep: Row<B> -> bool, limit: nat, cursor: string)
    requires Sorted(t) && limit > 0
    ensures var s, page := Select(t, keep, cursor), ListPage(style, t, keep, limit, cursor);
      if |s| <= limit then page == Page(s, None)
      else
        && page.rows == s[..limit]
        && (s[limit - 1].id != "" <==> !(cursor == "" && StuckAtEmptyId(t, keep, limit)))
        && page.next == if s[limit - 1].id != "" || style.KeepsEmptyCursor? then Some(s[limit - 1].id) else None
  {
    var s := Select(t, keep, cursor);
    if |s| > limit {
      LastIsEmptyIff(t, keep, limit, cursor);
      assert s[..limit + 1][..limit] == s[..limit];
    }
  }

  // ---------------------------------------------------------------- a changing table

  ghost predicate AllSorted<B(!new)>(tables: seq<seq<Row<B>>>) {
    forall k :: 0 <= k < |tables| ==> Sorted(tables[k])
  }

  ghost predicate Holds<B(!new)>(t: seq<Row<B>>, keep: Row<B> -> bool, id: string) {
    exists r :: r in t && keep(r) && r.id == id
  }

  /** The id has a kept row in every one of the tables. */
  ghost predicate PresentThroughout<B(!new)>(tables: seq<seq<Row<B>>>, keep: Row<B> -> bool, id: string) {
    forall k :: 0 <= k < |tables| ==> Holds(tables[k], keep, id)
  }

  /** The first request is stuck. */
  predicate StartsStuck<B(!new)>(tables: seq<seq<Row<B>>>, keep: Row<B> -> bool, limit: nat, cursor: string) {
    tables != [] && cursor == "" && StuckAtEmptyId(tables[0], keep, limit)
  }

  /** Unless the first request is stuck, ids increase strictly and lie beyond the cursor. */
  lemma {:induction false} FollowIncreases<B(!new)>(style: Style, tables: seq<seq<Row<B>>>, keep: Row<B> -> bool,
    limit: nat, cursor: string)
    requires AllSorted(tables) && limit > 0 && !StartsStuck(tables, keep, limit, cursor)
    ensures Sorted(Follow(style, tables, keep, limit, cursor).rows)
    ensures forall r :: r in Follow(style, tables, keep, limit, cursor).rows ==> Wanted(r, keep, cursor)
  {
    if tables != [] {
      var s := Select(tables[0], keep, cursor);
      PageIsPrefix(style, tables[0], keep, limit, cursor);
      SelectIsSorted(tables[0], keep, cursor);
      SelectIsFilter(tables[0], keep, cursor);
      if |s| > limit {
        var last := s[limit - 1];
        FollowIncreases(style, tables[1..], keep, limit, last.id);
        Joined(s[..limit], Follow(style, tables[1..], keep, limit, last.id).rows, keep, cursor);
      }
    }
  }

  /** The walk returns the row with the empty id, starts again, and meets an empty id again. */
  predicate RepeatsEmptyId<B(!new)>(style: Style, tables: seq<seq<Row<B>>>, keep: Row<B> -> bool, limit: nat) {
    && style.KeepsEmptyCursor? && StartsStuck(tables, keep, limit, "") && |tables| > 1
    && Select(tables[1], keep, "") != [] && Select(tables[1], keep, "")[0].id == ""
  }

  /** A stuck first request: its one row, and for the style that hands out the empty cursor the walk from the start
      again. */
  lemma FollowStuck<B(!new)>(style: Style, tables: seq<seq<Row<B>>>, keep: Row<B> -> bool, limit: nat)
    requires AllSorted(tables) && StartsStuck(tables, keep, limit, "")
    ensures var first := Select(tables[0], keep, "")[..1];
      Follow(style, tables, keep, limit, "") ==
        if style.DropsEmptyCursor? then Walk(first, true)
        else Walk(first + Follow(style, tables[1..], keep, limit, "").rows,
          Follow(style, tables[1..], keep, limit, "").done)
  {
    PageIsPrefix(style, tables[0], keep, limit, "");
  }

  lemma FirstOfFollow<B(!new)>(style: Style, tables: seq<seq<Row<B>>>, keep: Row<B> -> bool)
    requires AllSorted(tables) && tables != []
    ensures var s, rows := Select(tables[0], keep, ""), Follow(style, tables, keep, 1, "").rows;
      if s == [] then rows == [] else rows != [] && rows[0] == s[0]
  {
    PageIsPrefix(style, tables[0], keep, 1, "");
  }

  /** Whatever is inserted and deleted between requests, the rows of a walk come in strictly increasing order of id,
      so none twice, if and only if the walk does not start by repeating an empty id. */
  lemma FollowIsIncreasingIff<B(!new)>(style: Style, tables: seq<seq<Row<B>>>, keep: Row<B> -> bool, limit: nat)
    requires AllSorted(tables) && limit > 0
    ensures Sorted(Follow(style, tables, keep, limit, "").rows) <==> !RepeatsEmptyId(style, tables, keep, limit)
  {
    if !StartsStuck(tables, keep, limit, "") {
      FollowIncreases(style, tables, keep, limit, "");
    } else {
      FollowStuck(style, tables, keep, limit);
      if style.KeepsEmptyCursor? && |tables| > 1 {
        StuckIsIncreasingIff(style, tables, keep);
      }
    }
  }

  lemma StuckIsIncreasingIff<B(!new)>(style: Style, tables: seq<seq<Row<B>>>, keep: Row<B> -> bool)
    requires AllSorted(tables) && StartsStuck(tables, keep, 1, "") && style.KeepsEmptyCursor? && |tables| > 1
    ensures Sorted(Follow(style, tables, keep, 1, "").rows) <==> !RepeatsEmptyId(style, tables, keep, 1)
  {
    var rest := Follow(style, tables[1..], keep, 1, "").rows;
    var rows := Follow(style, tables, keep, 1, "").rows;
    FollowStuck(style, tables, keep, 1);
    FirstOfFollow(style, tables[1..], keep);
    if RepeatsEmptyId(style, tables, keep, 1) {
      assert rows[0].id == "" && rows[1].id == "";
      LexIrreflexive("");
    } else {
      FollowIncreases(style, tables[1..], keep, 1, "");
      forall j | 0 <= j < |rest|
        ensures rest[j].id != ""
      {
        assert j > 0 ==> LexLess(rest[0].id, rest[j].id);
      }
    }
  }

  lemma Joined<B(!new)>(page: seq<Row<B>>, rest: seq<Row<B>>, keep: Row<B> -> bool, cursor: string)
    requires page != [] && Sorted(page) && Sorted(rest) && page[|page| - 1].id != ""
    requires forall r :: r in page ==> Wanted(r, keep, cursor)
    requires forall r :: r in rest ==> Wanted(r, keep, page[|page| - 1].id)
    ensures Sorted(page + rest) && forall r :: r in page + rest ==> Wanted(r, keep, cursor)
  {
    var last := page[|page| - 1];
    forall i, r | 0 <= i < |page| && r in rest
      ensures LexLess(page[i].id, r.id)
    {
      if i < |page| - 1 {
        LexTransitive(page[i].id, last.id, r.id);
      }
    }
    forall r | r in rest
      ensures Wanted(r, keep, cursor)
    {
      assert Wanted(last, keep, cursor);
      if cursor != "" {
        LexTransitive(cursor, last.id, r.id);
      }
    }
  }

  ghost predicate Returned<B(!new)>(rows: seq<Row<B>>, id: string) {
    exists r :: r in rows && r.id == id
  }

  /** When the last page is reached, an id that was there throughout has been returned if and only if the walk was not
      cut short: by the style that drops an empty cursor, after the row with the empty id. */
  lemma {:induction false} FollowIsCompleteIff<B(!new)>(style: Style, tables: seq<seq<Row<B>>>, keep: Row<B> -> bool,
    limit: nat, cursor: string, id: string)
    requires AllSorted(tables) && limit > 0 && PresentThroughout(tables, keep, id) &&
      (cursor == "" || LexLess(cursor, id))
    requires Follow(style, tables, keep, limit, cursor).done
    ensures Returned(Follow(style, tables, keep, limit, cursor).rows, id) <==>
      !(style.DropsEmptyCursor? && StartsStuck(tables, keep, limit, cursor) && id != "")
  {
    var s, rows := Select(tables[0], keep, cursor), Follow(style, tables, keep, limit, cursor).rows;
    var i := IndexOfWanted(tables[0], keep, cursor, id);
    PageIsPrefix(style, tables[0], keep, limit, cursor);
    if |s| <= limit || i < limit {
      assert ListPage(style, tables[0], keep, limit, cursor).rows[i] in rows;
      if StartsStuck(tables, keep, limit, cursor) {
        assert i == 0;
      }
    } else if !(style.DropsEmptyCursor? && s[limit - 1].id == "") {
      var last := s[limit - 1].id;
      SelectIsSorted(tables[0], keep, cursor);
      assert LexLess(last, s[i].id);
      PresentLater(tables, keep, id);
      FollowIsCompleteIff(style, tables[1..], keep, limit, last, id);
      var found :| found in Follow(style, tables[1..], keep, limit, last).rows && found.id == id;
      assert found in rows;
    } else {
      SelectIsSorted(tables[0], keep, cursor);
      assert LexLess(s[0].id, s[i].id);
    }
  }

  lemma IndexOfWanted<B(!new)>(t: seq<Row<B>>, keep: Row<B> -> bool, cursor: string, id: string) returns (i: nat)
    requires Holds(t, keep, id) && (cursor == "" || LexLess(cursor, id))
    ensures i < |Select(t, keep, cursor)| && Select(t, keep, cursor)[i].id == id
  {
    var r :| r in t && keep(r) && r.id == id;
    SelectIsFilter(t, keep, cursor);
    assert r in Select(t, keep, cursor);
    i :| 0 <= i < |Select(t, keep, cursor)| && Select(t, keep, cursor)[i] == r;
  }

  lemma PresentLater<B(!new)>(tables: seq<seq<Row<B>>>, keep: Row<B> -> bool, id: string)
    requires tables != [] && PresentThroughout(tables, keep, id)
    ensures PresentThroughout(tables[1..], keep, id)
  {
    forall k | 0 <= k < |tables[1..]|
      ensures Holds(tables[1..][k], keep, id)
    {
      assert Holds(tables[k + 1], keep, id);
    }
  }

  /** Nothing is made up: every returned row was in one of the tables. */
  lemma {:induction false} FollowIsSound<B(!new)>(style: Style, tables: seq<seq<Row<B>>>, keep: Row<B> -> bool,
    limit: nat, cursor: string, r: Row<B>)
    requires r in Follow(style, tables, keep, limit, cursor).rows
    ensures keep(r) && exists k :: 0 <= k < |tables| && r in tables[k]
  {
    var page := ListPage(style, tables[0], keep, limit, cursor);
    SelectIsFilter(tables[0], keep, cursor);
    if r in page.rows {
      assert r in Select(tables[0], keep, cursor);
      assert r in tables[0];
    } else {
      FollowIsSound(style, tables[1..], keep, limit, page.next.value, r);
      var k :| 0 <= k < |tables[1..]| && r in tables[1..][k];
      assert r in tables[k + 1];
    }
  }

  // ---------------------------------------------------------------- an unchanging table

  function Copies<B(!new)>(t: seq<Row<B>>, n: nat): (r: seq<seq<Row<B>>>)
    ensures |r| == n && forall k :: 0 <= k < n ==> r[k] == t
  {
    if n == 0 then [] else [t] + Copies(t, n - 1)
  }

  lemma {:induction false} SelectAll<B(!new)>(t: seq<Row<B>>, keep: Row<B> -> bool, cursor: string)
    requires forall r :: r in t ==> LexLess(cursor, r.id)
    ensures Select(t, keep, cursor) == Select(t, keep, "")
  {
    if t != [] {
      SelectAll(t[1..], keep, cursor);
    }
  }

  lemma RestIsLater<B(!new)>(t: seq<Row<B>>)
    requires Sorted(t) && t != []
    ensures Sorted(t[1..]) && forall r :: r in t[1..] ==> LexLess(t[0].id, r.id)
  {
    var rest := t[1..];
    assert forall i :: 0 <= i < |rest| ==> rest[i] == t[i + 1];
  }

  /** A row is not selected from a later one on. */
  lemma HeadIsPassed<B(!new)>(t: seq<Row<B>>, keep: Row<B> -> bool, last: string)
    requires t != [] && last != "" && LexLess(t[0].id, last)
    ensures Select(t, keep, last) == Select(t[1..], keep, last)
  {
    LexAntisymmetric(t[0].id, last);
  }

  /** From the first selected row on, everything else is selected. */
  lemma SelectFromHead<B(!new)>(t: seq<Row<B>>, keep: Row<B> -> bool, cursor: string)
    requires Sorted(t) && t != [] && Wanted(t[0], keep, cursor) && t[0].id != ""
    ensures Select(t, keep, t[0].id) == Select(t[1..], keep, cursor)
  {
    RestIsLater(t);
    LexIrreflexive(t[0].id);
    SelectAll(t[1..], keep, t[0].id);
    SelectBeyond(t[1..], keep, cursor, t[0].id);
  }

  /** Selecting from the k-th selected row on gives the rest of the selection. */
  lemma {:induction false} SelectFromLast<B(!new)>(t: seq<Row<B>>, keep: Row<B> -> bool, cursor: string, k: nat)
    requires Sorted(t) && 0 < k <= |Select(t, keep, cursor)| && Select(t, keep, cursor)[k - 1].id != ""
    ensures Select(t, keep, Select(t, keep, cursor)[k - 1].id) == Select(t, keep, cursor)[k..]
  {
    var s, rest := Select(t, keep, cursor), Select(t[1..], keep, cursor);
    RestIsLater(t);
    if Wanted(t[0], keep, cursor) && k == 1 {
      assert s[1..] == rest;
      SelectFromHead(t, keep, cursor);
    } else {
      var j := if Wanted(t[0], keep, cursor) then k - 1 else k;
      assert s[k - 1] == rest[j - 1] && rest[j - 1] in rest;
      SelectIsFilter(t[1..], keep, cursor);
      SelectFromLast(t[1..], keep, cursor, j);
      HeadIsPassed(t, keep, s[k - 1].id);
      assert s[k..] == rest[j..];
    }
  }

  lemma {:induction false} LexAntisymmetric(a: string, b: string)
    requires LexLess(a, b)
    ensures !LexLess(b, a)
  {
    if a != "" && a[0] == b[0] {
      LexAntisymmetric(a[1..], b[1..]);
    }
  }

  lemma SelectBeyond<B(!new)>(t: seq<Row<B>>, keep: Row<B> -> bool, cursor: string, id: string)
    requires (forall r :: r in t ==> LexLess(id, r.id)) && (cursor == "" || LexLess(cursor, id))
    ensures Select(t, keep, cursor) == Select(t, keep, "")
  {
    if cursor != "" {
      forall r | r in t
        ensures LexLess(cursor, r.id)
      {
        LexTransitive(cursor, id, r.id);
      }
      SelectAll(t, keep, cursor);
    }
  }

  /** From a proper cursor on, an unchanging table is walked to its end. */
  lemma {:induction false} FollowFrom<B(!new)>(style: Style, t: seq<Row<B>>, keep: Row<B> -> bool, limit: nat,
    cursor: string, n: nat)
    requires Sorted(t) && limit > 0 && n > |Select(t, keep, cursor)|
    requires |Select(t, keep, cursor)| > limit ==> Select(t, keep, cursor)[limit - 1].id != ""
    ensures Follow(style, Copies(t, n), keep, limit, cursor) == Walk(Select(t, keep, cursor), true)
    decreases n, 1
  {
    if |Select(t, keep, cursor)| > limit {
      FollowFromPage(style, t, keep, limit, cursor, n);
    } else {
      FollowLast(style, t, keep, limit, cursor, n);
    }
  }

  /** A first page, and the walk from its last id. */
  lemma {:induction false} FollowFromPage<B(!new)>(style: Style, t: seq<Row<B>>, keep: Row<B> -> bool, limit: nat,
    cursor: string, n: nat)
    requires Sorted(t) && 0 < limit < |Select(t, keep, cursor)| < n && Select(t, keep, cursor)[limit - 1].id != ""
    ensures Follow(style, Copies(t, n), keep, limit, cursor) == Walk(Select(t, keep, cursor), true)
    decreases n, 0
  {
    var s := Select(t, keep, cursor);
    var last := s[limit - 1].id;
    SelectFromLast(t, keep, cursor, limit);
    NeverEmptyAgain(t, keep, last);
    FollowFrom(style, t, keep, limit, last, n - 1);
    PageWithMore(style, t, keep, limit, cursor);
    FollowOn(style, t, keep, limit, cursor, n, s, last);
  }

  lemma FollowOn<B(!new)>(style: Style, t: seq<Row<B>>, keep: Row<B> -> bool, limit: nat, cursor: string, n: nat,
                          s: seq<Row<B>>, last: string)
    requires n > 0 && limit <= |s| && ListPage(style, t, keep, limit, cursor) == Page(s[..limit], Some(last))
    requires Follow(style, Copies(t, n - 1), keep, limit, last) == Walk(s[limit..], true)
    ensures Follow(style, Copies(t, n), keep, limit, cursor) == Walk(s, true)
  {
    FollowMore(style, t, keep, limit, cursor, n, s[..limit], last);
    assert s[..limit] + s[limit..] == s;
  }

  /** A page with a successor is followed by the rest of the walk. */
  lemma FollowMore<B(!new)>(style: Style, t: seq<Row<B>>, keep: Row<B> -> bool, limit: nat, cursor: string, n: nat,
                            rows: seq<Row<B>>, next: string)
    requires n > 0 && ListPage(style, t, keep, limit, cursor) == Page(rows, Some(next))
    ensures var rest := Follow(style, Copies(t, n - 1), keep, limit, next);
      Follow(style, Copies(t, n), keep, limit, cursor) == Walk(rows + rest.rows, rest.done)
  {
    assert Copies(t, n)[0] == t && Copies(t, n)[1..] == Copies(t, n - 1);
  }

  lemma FollowLast<B(!new)>(style: Style, t: seq<Row<B>>, keep: Row<B> -> bool, limit: nat, cursor: string, n: nat)
    requires n > 0 && |Select(t, keep, cursor)| <= limit
    ensures Follow(style, Copies(t, n), keep, limit, cursor) == Walk(Select(t, keep, cursor), true)
  {
    assert Copies(t, n)[0] == t;
  }

  lemma PageWithMore<B(!new)>(style: Style, t: seq<Row<B>>, keep: Row<B> -> bool, limit: nat, cursor: string)
    requires limit > 0 && |Select(t, keep, cursor)| > limit && Select(t, keep, cursor)[limit - 1].id != ""
    ensures ListPage(style, t, keep, limit, cursor) ==
      Page(Select(t, keep, cursor)[..limit], Some(Select(t, keep, cursor)[limit - 1].id))
  {
    assert Select(t, keep, cursor)[..limit + 1][..limit] == Select(t, keep, cursor)[..limit];
  }

  lemma NeverEmptyAgain<B(!new)>(t: seq<Row<B>>, keep: Row<B> -> bool, cursor: string)
    requires cursor != ""
    ensures forall i :: 0 <= i < |Select(t, keep, cursor)| ==> Select(t, keep, cursor)[i].id != ""
  {
    SelectIsFilter(t, keep, cursor);
    forall i | 0 <= i < |Select(t, keep, cursor)|
      ensures Select(t, keep, cursor)[i].id != ""
    {
      assert Select(t, keep, cursor)[i] in Select(t, keep, cursor);
    }
  }

  /** Stuck, one style returns the first row for ever, the other stops after it. */
  lemma {:induction false} StuckWalk<B(!new)>(t: seq<Row<B>>, keep: Row<B> -> bool, n: nat)
    requires StuckAtEmptyId(t, keep, 1) && n > 0
    ensures !Follow(KeepsEmptyCursor, Copies(t, n), keep, 1, "").done
    ensures Follow(DropsEmptyCursor, Copies(t, n), keep, 1, "") == Walk([Select(t, keep, "")[0]], true)
  {
    var s := Select(t, keep, "");
    assert s[..2][..1] == [s[0]];
    assert Copies(t, n)[1..] == Copies(t, n - 1);
    if n > 1 {
      StuckWalk(t, keep, n - 1);
    }
  }

  /** A table on which the walk is stuck: an empty id and another one, paged one by one. */
  lemma StuckTable()
    ensures Sorted([Row("", 0), Row("a", 1)]) && StuckAtEmptyId([Row("", 0), Row("a", 1)], (r: Row<int>) => true, 1)
  {
    var keep := (r: Row<int>) => true;
    assert [Row("", 0), Row("a", 1)][1..] == [Row("a", 1)];
    assert Select([Row("a", 1)], keep, "") == [Row("a", 1)];
  }

  /** On an unchanging table the walk ends with exactly the wanted rows, in order, if and only if it does not get stuck
      at an empty id. */
  lemma UnchangingTableIff<B(!new)>(style: Style, t: seq<Row<B>>, keep: Row<B> -> bool, limit: nat, n: nat)
    requires Sorted(t) && limit > 0 && n > |Select(t, keep, "")|
    ensures Follow(style, Copies(t, n), keep, limit, "") == Walk(Select(t, keep, ""), true) <==>
      !StuckAtEmptyId(t, keep, limit)
  {
    var s := Select(t, keep, "");
    if StuckAtEmptyId(t, keep, limit) {
      StuckWalk(t, keep, n);
    } else {
      if |s| > limit && limit > 1 {
        SelectIsSorted(t, keep, "");
        assert LexLess(s[0].id, s[limit - 1].id);
      }
      FollowFrom(style, t, keep, limit, "", n);
    }
  }

  /** In plain words: one row at a time, a kept row with an empty id, and another kept row. */
  lemma StuckIff<B(!new)>(t: seq<Row<B>>, keep: Row<B> -> bool, limit: nat)
    requires Sorted(t)
    ensures StuckAtEmptyId(t, keep, limit) <==>
      && limit == 1 && (exists r :: r in t && keep(r) && r.id == "") && (exists r :: r in t && keep(r) && r.id != "")
  {
    var s := Select(t, keep, "");
    SelectIsSorted(t, keep, "");
    SelectIsFilter(t, keep, "");
    if |s| > 1 {
      assert s[0] in s && s[1] in s && LexLess(s[0].id, s[1].id);
    }
    if exists r :: r in s && r.id == "" {
      var i :| 0 <= i < |s| && s[i].id == "";
      assert i > 0 ==> LexLess(s[0].id, s[i].id);
    }
  }

  /** On an unchanging table a walk that does not get stuck ends, and returns exactly the kept rows, in order. */
  lemma WalkReturnsKept<B(!new)>(style: Style, t: seq<Row<B>>, keep: Row<B> -> bool, limit: nat, n: nat)
    requires Sorted(t) && limit > 0 && n > |t| && !StuckAtEmptyId(t, keep, limit)
    ensures var walk := Follow(style, Copies(t, n), keep, limit, "");
      walk.done && Sorted(walk.rows) && forall r :: r in walk.rows <==> r in t && keep(r)
  {
    SelectIsShorter(t, keep, "");
    UnchangingTableIff(style, t, keep, limit, n);
    SelectIsSorted(t, keep, "");
    SelectIsFilter(t, keep, "");
  }

  lemma {:induction false} SelectIsShorter<B(!new)>(t: seq<Row<B>>, keep: Row<B> -> bool, cursor: string)
    ensures |Select(t, keep, cursor)| <= |t|
  {
    if t != [] {
      SelectIsShorter(t[1..], keep, cursor);
    }
  }

  /** Fifty rows unless asked otherwise; else the nearest number from 1 to 200. */
  lemma FilamentLimitIs(asked: Option<int>)
    ensures asked == None ==> FilamentLimit(asked) == 50
    ensures asked.Some? && 1 <= asked.value <= 200 ==> FilamentLimit(asked) == asked.value
    ensures asked.Some? && asked.value < 1 ==> FilamentLimit(asked) == 1
    ensures asked.Some? && asked.value > 200 ==> FilamentLimit(asked) == 200
  {
  }

  /** The filament list pages properly whatever limit is asked for, even none, zero or a negative one. */
  lemma FilamentListEndsIff<B(!new)>(t: seq<Row<B>>, keep: Row<B> -> bool, asked: Option<int>, n: nat)
    requires Sorted(t) && n > |Select(t, keep, "")|
    ensures var walk := Follow(KeepsEmptyCursor, Copies(t, n), keep, FilamentLimit(asked), "");
      walk == Walk(Select(t, keep, ""), true) <==> !StuckAtEmptyId(t, keep, FilamentLimit(asked))
  {
    UnchangingTableIff(KeepsEmptyCursor, t, keep, FilamentLimit(asked), n);
  }
}

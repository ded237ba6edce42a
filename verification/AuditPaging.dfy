/** Listing a tenant's events page by page, newest first, while others append. */
module AuditPaging {
  import opened ByteStrings
  import opened Options
  import opened Sorting
  import opened AuditStore

  datatype Cursor = Cursor(occurTime: int, sequence: int)

  datatype Filter = Filter(userId: Bytes, actionPrefix: Bytes, since: Option<int>, until: Option<int>)

  // ----- LIKE with an escaped prefix -----

  const PERCENT: byte := 37
  const UNDERSCORE: byte := 95
  const BACKSLASH: byte := 92

  /** `LIKE p ESCAPE '\'`. */
  predicate Like(s: Bytes, p: Bytes)
    decreases |p|
  {
    if p == [] then s == []
    else if p[0] == PERCENT then exists k | 0 <= k <= |s| :: Like(s[k..], p[1..])
    else if p[0] == UNDERSCORE then s != [] && Like(s[1..], p[1..])
    else if p[0] == BACKSLASH then |p| > 1 && s != [] && s[0] == p[1] && Like(s[1..], p[2..])
    else s != [] && s[0] == p[0] && Like(s[1..], p[1..])
  }

  function Escaped(prefix: Bytes): Bytes {
    if prefix == [] then []
    else (if prefix[0] in {BACKSLASH, PERCENT, UNDERSCORE} then [BACKSLASH, prefix[0]] else [prefix[0]])
         + Escaped(prefix[1..])
  }

  function LikePrefix(prefix: Bytes): Bytes {
    Escaped(prefix) + [PERCENT]
  }

  /** The escaped pattern matches exactly the strings that start with the prefix. */
  lemma {:induction false} LikePrefixIsPrefix(s: Bytes, prefix: Bytes)
    ensures Like(s, LikePrefix(prefix)) <==> prefix <= s
    decreases |prefix|
  {
    var p := LikePrefix(prefix);
    if prefix == [] {
      assert p == [PERCENT] && p[1..] == [] && Like(s[|s|..], p[1..]);
    } else {
      var rest := prefix[1..];
      if prefix[0] in {BACKSLASH, PERCENT, UNDERSCORE} {
        assert p == [BACKSLASH, prefix[0]] + LikePrefix(rest);
        assert p[2..] == LikePrefix(rest) && p[1] == prefix[0];
      } else {
        assert p == [prefix[0]] + LikePrefix(rest);
        assert p[1..] == LikePrefix(rest);
      }
      if s != [] {
        LikePrefixIsPrefix(s[1..], rest);
        assert prefix == [prefix[0]] + rest && s == [s[0]] + s[1..];
      }
    }
  }

  // ----- one page -----

  predicate Matches(f: Filter, r: Row) {
    var e := r.stamped.event;
    && (f.userId == [] || e.actorId == f.userId || e.onBehalfOf == f.userId)
    && (f.actionPrefix == [] || Like(e.action, LikePrefix(f.actionPrefix)))
    && (f.since.None? || e.occurTime >= f.since.value)
    && (f.until.None? || e.occurTime < f.until.value)
  }

  /** An event is listed for a user who did it or for whom it was done, whose action starts with the prefix, from `since` up to
      but not including `until`; whatever is not given does not matter. */
  lemma MatchesMeans(f: Filter, r: Row)
    ensures var e := r.stamped.event;
            Matches(f, r) <==>
            && (f.userId != [] ==> f.userId in [e.actorId, e.onBehalfOf])
            && f.actionPrefix <= e.action
            && (f.since.Some? ==> f.since.value <= e.occurTime) && (f.until.Some? ==> e.occurTime < f.until.value)
  {
    LikePrefixIsPrefix(r.stamped.event.action, f.actionPrefix);
    hide Like;
  }

  function KeyOf(r: Row): Cursor {
    Cursor(r.stamped.event.occurTime, r.stamped.sequence)
  }

  predicate Before(a: Cursor, b: Cursor) {
    a.occurTime < b.occurTime || (a.occurTime == b.occurTime && a.sequence < b.sequence)
  }

  predicate NewerOrSame(a: Row, b: Row) {
    !Before(KeyOf(a), KeyOf(b))
  }

  /** Strictly newest first, so no event twice. */
  ghost predicate NewestFirst(rows: seq<Row>) {
    forall i, j | 0 <= i < j < |rows| :: Before(KeyOf(rows[j]), KeyOf(rows[i]))
  }

  /** So the times fall, and events of one time come by falling sequence. */
  lemma NewestFirstMeans(rows: seq<Row>, i: nat, j: nat)
    requires NewestFirst(rows) && i < j < |rows|
    ensures var a, b := rows[i].stamped, rows[j].stamped;
            b.event.occurTime < a.event.occurTime || (b.event.occurTime == a.event.occurTime && b.sequence < a.sequence)
  {
    assert Before(KeyOf(rows[j]), KeyOf(rows[i]));
  }

  /** Below the cursor a page starts after (none: from the newest). */
  predicate Below(r: Row, after: Option<Cursor>) {
    after.None? || Before(KeyOf(r), after.value)
  }

  ghost predicate OneSequenceEach(rows: seq<Row>) {
    forall i, j | 0 <= i < j < |rows| :: rows[i].stamped.sequence != rows[j].stamped.sequence
  }

  /** What a page and its cursor promise, in terms of the table alone. */
  ghost predicate IsPage(rows: seq<Row>, f: Filter, after: Option<Cursor>, size: nat,
                         page: seq<Row>, next: Option<Cursor>) {
    && NewestFirst(page)
    && (forall r | r in page :: r in rows && Matches(f, r) && Below(r, after))
    && (forall r | r in rows && Matches(f, r) && Below(r, after) && !Below(r, next) :: r in page)
    && (next.None? ==> forall r | r in rows && Matches(f, r) && Below(r, after) :: r in page)
    && (next.Some? ==> |page| == size > 0 && next.value == KeyOf(page[size - 1]))
    && |page| <= size
  }

  /** The WHERE clause. */
  function Select(rows: seq<Row>, f: Filter, after: Option<Cursor>): seq<Row> {
    if rows == [] then []
    else (if Matches(f, rows[0]) && Below(rows[0], after) then [rows[0]] else []) + Select(rows[1..], f, after)
  }

  lemma {:induction false} SelectSelects(rows: seq<Row>, f: Filter, after: Option<Cursor>)
    requires OneSequenceEach(rows)
    ensures forall r :: r in Select(rows, f, after) <==> r in rows && Matches(f, r) && Below(r, after)
    ensures OneSequenceEach(Select(rows, f, after))
  {
    if rows != [] {
      hide Matches;
      var rest := rows[1..];
      SelectSelects(rest, f, after);
      forall r ensures r in rows <==> r == rows[0] || r in rest { assert rows == [rows[0]] + rest; }
      forall r | r in rest ensures r.stamped.sequence != rows[0].stamped.sequence {
        var i :| 0 <= i < |rest| && rest[i] == r;
        assert rows[i + 1] == r;
      }
    }
  }

  lemma NewestOrder()
    ensures TotalPreorder(NewerOrSame)
  {
  }

  /** Selected rows in order are strictly ordered, since no two have one sequence. */
  lemma SelectedNewestFirst(rows: seq<Row>, f: Filter, after: Option<Cursor>)
    requires OneSequenceEach(rows)
    ensures var s := Sort(Select(rows, f, after), NewerOrSame);
            NewestFirst(s) && forall r :: r in s <==> r in rows && Matches(f, r) && Below(r, after)
  {
    hide Like, Matches;
    var selected := Select(rows, f, after);
    SelectSelects(rows, f, after);
    NewestOrder();
    SortSorts(selected, NewerOrSame);
    DistinctPermutes(selected, Sort(selected, NewerOrSame));
    var s := Sort(selected, NewerOrSame);
    forall i, j | 0 <= i < j < |s| ensures Before(KeyOf(s[j]), KeyOf(s[i])) {
      assert NewerOrSame(s[i], s[j]) && s[i] in selected && s[j] in selected && s[i] != s[j];
    }
  }

  lemma FirstOnesArePage(rows: seq<Row>, f: Filter, after: Option<Cursor>, found: seq<Row>, size: nat)
    requires NewestFirst(found) && 0 < size < |found|
    requires forall r :: r in found <==> r in rows && Matches(f, r) && Below(r, after)
    ensures IsPage(rows, f, after, size, found[..size], Some(KeyOf(found[size - 1])))
  {
    hide Matches;
    var page, last := found[..size], KeyOf(found[size - 1]);
    forall r | r in found && !Before(KeyOf(r), last) ensures r in page {
      var i :| 0 <= i < |found| && found[i] == r;
      assert Before(KeyOf(found[i]), KeyOf(found[size - 1])) || i < size;
    }
  }

  lemma AllArePage(rows: seq<Row>, f: Filter, after: Option<Cursor>, found: seq<Row>, size: nat)
    requires NewestFirst(found) && |found| <= size
    requires forall r :: r in found <==> r in rows && Matches(f, r) && Below(r, after)
    ensures IsPage(rows, f, after, size, found, None)
  {
    hide Matches;
  }

  method List(rows: seq<Row>, f: Filter, after: Option<Cursor>, pageSize: nat)
    returns (records: seq<Row>, next: Option<Cursor>)
    requires pageSize > 0 && OneSequenceEach(rows)
    ensures IsPage(rows, f, after, pageSize, records, next)
  {
    hide Matches, Select, Sort, IsPage, NewestFirst, Below;
    SelectedNewestFirst(rows, f, after);
    var found := Sort(Select(rows, f, after), NewerOrSame);
    records := [];
    for i := 0 to if |found| <= pageSize + 1 then |found| else pageSize + 1
      invariant records == found[..i]
    {
      records := records + [found[i]];
    }
    if |records| <= pageSize {
      assert records == found;
      AllArePage(rows, f, after, found, pageSize);
      return records, None;
    }
    FirstOnesArePage(rows, f, after, found, pageSize);
    records := records[..pageSize];
    assert records == found[..pageSize];
    next := Some(KeyOf(records[pageSize - 1]));
  }

  // ----- following the cursors -----

  /** A client following the cursors: `tables[i]` is the table when page `i` was read. */
  ghost predicate Follows(tables: seq<seq<Row>>, f: Filter, size: nat, pages: seq<seq<Row>>, cursors: seq<Option<Cursor>>) {
    && |tables| == |pages| > 0 && |cursors| == |pages| + 1
    && (forall i | 0 <= i < |pages| :: IsPage(tables[i], f, cursors[i], size, pages[i], cursors[i + 1]))
    && (forall i, j | 0 <= i < j < |pages| :: tables[i] <= tables[j])
    && (forall i | 1 <= i < |pages| :: cursors[i].Some?)
    && cursors[|pages|].None?
  }

  function Concat(pages: seq<seq<Row>>): seq<Row> {
    if pages == [] then [] else pages[0] + Concat(pages[1..])
  }

  lemma FollowsRest(tables: seq<seq<Row>>, f: Filter, size: nat, pages: seq<seq<Row>>, cursors: seq<Option<Cursor>>)
    requires Follows(tables, f, size, pages, cursors) && |pages| > 1
    ensures Follows(tables[1..], f, size, pages[1..], cursors[1..])
  {
    var t, p, c := tables[1..], pages[1..], cursors[1..];
    forall i | 0 <= i < |p| ensures IsPage(t[i], f, c[i], size, p[i], c[i + 1]) {
      assert IsPage(tables[i + 1], f, cursors[i + 1], size, pages[i + 1], cursors[i + 2]);
    }
  }

  /** From a cursor on, the pages are strictly newest first, lie below the cursor, and hold every matching row that was there. */
  lemma {:induction false} FollowedFrom(tables: seq<seq<Row>>, f: Filter, size: nat, pages: seq<seq<Row>>, cursors: seq<Option<Cursor>>)
    requires Follows(tables, f, size, pages, cursors)
    ensures NewestFirst(Concat(pages))
    ensures forall r | r in Concat(pages) :: Below(r, cursors[0]) && Matches(f, r)
    ensures forall r | r in tables[0] && Matches(f, r) && Below(r, cursors[0]) :: r in Concat(pages)
    decreases |pages|
  {
    hide Like, Matches;
    var p, c := pages[0], cursors[1];
    assert IsPage(tables[0], f, cursors[0], size, p, c);
    if |pages| == 1 {
      assert Concat(pages) == p + [];
    } else {
      FollowsRest(tables, f, size, pages, cursors);
      FollowedFrom(tables[1..], f, size, pages[1..], cursors[1..]);
      var rest := Concat(pages[1..]);
      PageThenRest(p, rest, size, c.value);
      forall r | r in rest ensures Below(r, cursors[0]) {
        assert Below(r, c) && p[size - 1] in p;
      }
      forall r | r in tables[0] && Matches(f, r) && Below(r, cursors[0]) ensures r in p + rest {
        if Below(r, c) {
          assert tables[0] <= tables[1];
          assert r in tables[1..][0];
        }
      }
    }
  }

  lemma PageThenRest(p: seq<Row>, rest: seq<Row>, size: nat, c: Cursor)
    requires NewestFirst(p) && NewestFirst(rest) && |p| == size > 0 && c == KeyOf(p[size - 1])
    requires forall r | r in rest :: Before(KeyOf(r), c)
    ensures NewestFirst(p + rest)
  {
    var s := p + rest;
    forall i, j | 0 <= i < j < |s| ensures Before(KeyOf(s[j]), KeyOf(s[i])) {
      if i < size <= j {
        assert s[j] in rest;
        assert i == size - 1 || Before(KeyOf(p[size - 1]), KeyOf(p[i]));
      }
    }
  }

  function Among(s: seq<Row>, rows: seq<Row>): seq<Row> {
    if s == [] then [] else (if s[0] in rows then [s[0]] else []) + Among(s[1..], rows)
  }

  lemma {:induction false} AmongKeepsOrder(s: seq<Row>, rows: seq<Row>)
    requires NewestFirst(s)
    ensures NewestFirst(Among(s, rows))
    ensures forall r :: r in Among(s, rows) <==> r in s && r in rows
  {
    if s != [] {
      AmongKeepsOrder(s[1..], rows);
      assert s == [s[0]] + s[1..];
      var t := Among(s[1..], rows);
      forall r | r in t ensures Before(KeyOf(r), KeyOf(s[0])) {
        assert r in s[1..];
      }
    }
  }

  lemma NewestFirstIsSorted(s: seq<Row>)
    requires NewestFirst(s)
    ensures Sorted(s, NewerOrSame) && Distinct(s) && NoTies(s, NewerOrSame)
  {
    forall x, y | x in s && y in s && NewerOrSame(x, y) && NewerOrSame(y, x) ensures x == y {
      var i :| 0 <= i < |s| && s[i] == x;
      var j :| 0 <= j < |s| && s[j] == y;
      assert i < j ==> Before(KeyOf(y), KeyOf(x));
      assert j < i ==> Before(KeyOf(x), KeyOf(y));
    }
  }

  /** Following the cursors to the last page returns no event twice, newest first, and the matching
      events that existed at the start are returned exactly as one query would have, whatever was appended meanwhile. */
  lemma FollowingReturnsEachOnce(tables: seq<seq<Row>>, f: Filter, size: nat, pages: seq<seq<Row>>, cursors: seq<Option<Cursor>>)
    requires Follows(tables, f, size, pages, cursors) && cursors[0].None? && OneSequenceEach(tables[0])
    ensures NewestFirst(Concat(pages)) && Distinct(Concat(pages))
    ensures Among(Concat(pages), tables[0]) == Sort(Select(tables[0], f, None), NewerOrSame)
  {
    hide Like, Matches;
    var all, once := Concat(pages), Sort(Select(tables[0], f, None), NewerOrSame);
    FollowedFrom(tables, f, size, pages, cursors);
    SelectedNewestFirst(tables[0], f, None);
    AmongKeepsOrder(all, tables[0]);
    NewestFirstIsSorted(all);
    NewestFirstIsSorted(Among(all, tables[0]));
    NewestFirstIsSorted(once);
    AscendingIsUnique(Among(all, tables[0]), once, NewerOrSame);
  }
}

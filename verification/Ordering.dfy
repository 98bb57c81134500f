// Queries: filtering, the multi-key stable sort, and paging by cursor.

module Ordering {
  import opened Basics
  import opened Canonical
  import opened References
  import opened Resources

  // ---------------------------------------------------------------- stable sorting by one order

  function Insert<T>(x: T, rows: seq<T>, less: (T, T) -> bool): seq<T> {
    if rows == [] then [x]
    else if less(rows[0], x) then [rows[0]] + Insert(x, rows[1..], less)
    else [x] + rows
  }

  // The stable sort: rows that neither precedes the other keep their places.
  function SortBy<T>(rows: seq<T>, less: (T, T) -> bool): seq<T> {
    if rows == [] then [] else Insert(rows[0], SortBy(rows[1..], less), less)
  }

  ghost predicate WeakOrder<T(!new)>(less: (T, T) -> bool) {
    && (forall a, b :: less(a, b) ==> !less(b, a))
    && (forall a, b, c :: less(a, b) && less(b, c) ==> less(a, c))
    && (forall a, b, c :: !less(a, b) && !less(b, c) ==> !less(a, c))
  }

  ghost predicate IsSorted<T>(rows: seq<T>, less: (T, T) -> bool) {
    forall i, j :: 0 <= i < j < |rows| ==> !less(rows[j], rows[i])
  }

  lemma {:induction false} InsertSorts<T(!new)>(x: T, rows: seq<T>, less: (T, T) -> bool)
    requires WeakOrder(less) && IsSorted(rows, less)
    ensures IsSorted(Insert(x, rows, less), less)
    ensures multiset(Insert(x, rows, less)) == multiset(rows) + multiset{x}
  {
    if rows != [] {
      assert rows == [rows[0]] + rows[1..];
      if less(rows[0], x) {
        var rest := Insert(x, rows[1..], less);
        InsertSorts(x, rows[1..], less);
        forall j | 0 <= j < |rest|
          ensures !less(rest[j], rows[0])
        {
          assert rest[j] in multiset(rest);
          assert rest[j] == x || rest[j] in rows[1..];
        }
      }
    }
  }

  lemma {:induction false} SortSorts<T(!new)>(rows: seq<T>, less: (T, T) -> bool)
    requires WeakOrder(less)
    ensures IsSorted(SortBy(rows, less), less)
    ensures multiset(SortBy(rows, less)) == multiset(rows)
  {
    if rows != [] {
      SortSorts(rows[1..], less);
      InsertSorts(rows[0], SortBy(rows[1..], less), less);
      assert rows == [rows[0]] + rows[1..];
    }
  }

  // ---------------------------------------------------------------- several keys

  // p first, and q among the rows that p does not tell apart.
  function Then<T>(p: (T, T) -> bool, q: (T, T) -> bool): (T, T) -> bool {
    (a, b) => p(a, b) || (!p(b, a) && q(a, b))
  }

  lemma ThenIsWeakOrder<T(!new)>(p: (T, T) -> bool, q: (T, T) -> bool)
    requires WeakOrder(p) && WeakOrder(q)
    ensures WeakOrder(Then(p, q))
  {
  }

  // Two insertions commute when y comes before x in the secondary order.
  lemma {:induction false} InsertionsCommute<T(!new)>(x: T, y: T, rows: seq<T>, p: (T, T) -> bool, q: (T, T) -> bool)
    requires WeakOrder(p) && WeakOrder(q) && q(y, x)
    ensures Insert(y, Insert(x, rows, Then(p, q)), p) == Insert(x, Insert(y, rows, p), Then(p, q))
  {
    if rows != [] {
      var z, rest := rows[0], rows[1..];
      if Then(p, q)(z, x) && p(z, y) {
        InsertionsCommute(x, y, rest, p, q);
        assert ([z] + Insert(x, rest, Then(p, q)))[1..] == Insert(x, rest, Then(p, q));
        assert ([z] + Insert(y, rest, p))[1..] == Insert(y, rest, p);
      } else if Then(p, q)(z, x) {
        assert ([y] + rows)[1..] == rows;
      } else if p(z, y) {
        assert ([x] + rows)[1..] == rows;
      } else {
        assert ([x] + rows)[1..] == rows && ([y] + rows)[1..] == rows;
      }
    }
  }

  // Insertion depends only on how the inserted row compares with the others.
  lemma {:induction false} InsertAgrees<T>(x: T, rows: seq<T>, p: (T, T) -> bool, r: (T, T) -> bool)
    requires forall z | z in rows :: p(z, x) <==> r(z, x)
    ensures Insert(x, rows, p) == Insert(x, rows, r)
  {
    if rows != [] {
      assert forall z | z in rows[1..] :: z in rows;
      InsertAgrees(x, rows[1..], p, r);
    }
  }

  lemma {:induction false} SortAfterInsert<T(!new)>(x: T, rows: seq<T>, p: (T, T) -> bool, q: (T, T) -> bool)
    requires WeakOrder(p) && WeakOrder(q) && IsSorted(rows, q)
    ensures SortBy(Insert(x, rows, q), p) == Insert(x, SortBy(rows, p), Then(p, q))
  {
    if rows != [] && q(rows[0], x) {
      var y, rest := rows[0], rows[1..];
      assert ([y] + Insert(x, rest, q))[1..] == Insert(x, rest, q);
      SortAfterInsert(x, rest, p, q);
      InsertionsCommute(x, y, SortBy(rest, p), p, q);
    } else {
      assert ([x] + rows)[1..] == rows;
      SortSorts(rows, p);
      forall z | z in SortBy(rows, p)
        ensures p(z, x) <==> Then(p, q)(z, x)
      {
        assert z in multiset(SortBy(rows, p));
        assert z in rows;
      }
      InsertAgrees(x, SortBy(rows, p), p, Then(p, q));
    }
  }

  // Sorting by q and then by p sorts by p, and by q among equals.
  lemma {:induction false} TwoPasses<T(!new)>(rows: seq<T>, p: (T, T) -> bool, q: (T, T) -> bool)
    requires WeakOrder(p) && WeakOrder(q)
    ensures SortBy(SortBy(rows, q), p) == SortBy(rows, Then(p, q))
  {
    if rows != [] {
      TwoPasses(rows[1..], p, q);
      SortSorts(rows[1..], q);
      SortAfterInsert(rows[0], SortBy(rows[1..], q), p, q);
    }
  }

  // ---------------------------------------------------------------- order_by clauses

  // A column value, with null below every other value.
  datatype Cell = NullCell | IntCell(n: int) | TextCell(s: string)

  predicate CellLess(a: Cell, b: Cell) {
    match (a, b)
    case (NullCell, NullCell) => false
    case (NullCell, _) => true
    case (IntCell(m), IntCell(n)) => m < n
    case (IntCell(_), TextCell(_)) => true
    case (TextCell(s), TextCell(t)) => Before(s, t)
    case _ => false
  }

  // Descending order puts nulls last.
  datatype Order<!T> = Order(column: T -> Cell, descending: bool)
  {
    function Precedes(): (T, T) -> bool {
      (a, b) => if descending then CellLess(column(b), column(a)) else CellLess(column(a), column(b))
    }
  }

  lemma CellLessIsWeakOrder(a: Cell, b: Cell, c: Cell)
    ensures CellLess(a, b) ==> !CellLess(b, a)
    ensures CellLess(a, b) && CellLess(b, c) ==> CellLess(a, c)
    ensures !CellLess(a, b) && !CellLess(b, c) ==> !CellLess(a, c)
  {
    if a.TextCell? && b.TextCell? {
      BeforeIsTotal(a.s, b.s);
      if c.TextCell? {
        BeforeIsTotal(b.s, c.s);
        BeforeIsTotal(a.s, c.s);
        if Before(a.s, b.s) && Before(b.s, c.s) {
          BeforeIsTransitive(a.s, b.s, c.s);
        }
        if Before(c.s, b.s) && Before(b.s, a.s) {
          BeforeIsTransitive(c.s, b.s, a.s);
        }
      }
    }
  }

  lemma PrecedesIsWeakOrder<T(!new)>(o: Order<T>)
    ensures WeakOrder(o.Precedes())
  {
    var less := o.Precedes();
    forall a, b, c
      ensures less(a, b) ==> !less(b, a)
      ensures less(a, b) && less(b, c) ==> less(a, c)
      ensures !less(a, b) && !less(b, c) ==> !less(a, c)
    {
      CellLessIsWeakOrder(o.column(a), o.column(b), o.column(c));
      CellLessIsWeakOrder(o.column(c), o.column(b), o.column(a));
      CellLessIsWeakOrder(o.column(b), o.column(a), o.column(b));
    }
  }

  // The order of a whole clause: the first key decides, the next one among equals, and so on.
  function Lexicographic<T>(orders: seq<Order<T>>): (T, T) -> bool {
    if orders == [] then (a, b) => false else Then(orders[0].Precedes(), Lexicographic(orders[1..]))
  }

  lemma {:induction false} LexicographicIsWeakOrder<T(!new)>(orders: seq<Order<T>>)
    ensures WeakOrder(Lexicographic(orders))
  {
    if orders != [] {
      PrecedesIsWeakOrder(orders[0]);
      LexicographicIsWeakOrder(orders[1..]);
      ThenIsWeakOrder(orders[0].Precedes(), Lexicographic(orders[1..]));
    }
  }

  lemma {:induction false} SortByNothing<T>(rows: seq<T>)
    ensures SortBy(rows, (a, b) => false) == rows
  {
    if rows != [] {
      SortByNothing(rows[1..]);
    }
  }

  function Filter<T>(rows: seq<T>, keep: T -> bool): seq<T> {
    if rows == [] then []
    else if keep(rows[0]) then [rows[0]] + Filter(rows[1..], keep)
    else Filter(rows[1..], keep)
  }

  lemma {:induction false} FilterKeeps<T>(rows: seq<T>, keep: T -> bool, x: T)
    ensures x in Filter(rows, keep) <==> x in rows && keep(x)
  {
    if rows != [] {
      FilterKeeps(rows[1..], keep, x);
    }
  }

  // The whole answer to a query: the matching rows in lexicographic order.
  function Answer<T>(rows: seq<T>, keep: T -> bool, orders: seq<Order<T>>): seq<T> {
    SortBy(Filter(rows, keep), Lexicographic(orders))
  }

  datatype Page<T> = Page(items: seq<T>, cursor: Option<nat>)

  function PageOf<T>(all: seq<T>, limit: nat, cursor: Option<nat>): Page<T> {
    var offset := if cursor.Some? then cursor.value else 0;
    var from, end := if offset <= |all| then offset else |all|, if offset + limit <= |all| then offset + limit else |all|;
    Page(all[from..end], if offset + limit < |all| then Some(offset + limit) else None)
  }

  // The structured query: one stable sort for each key, the last key first, then one page.
  method Query<T(!new)>(rows: seq<T>, keep: T -> bool, orders: seq<Order<T>>, limit: nat, cursor: Option<nat>) returns (page: Page<T>)
    ensures page == PageOf(Answer(rows, keep, orders), limit, cursor)
    // as many rows of the answer as fit, from where the cursor says, and a cursor if more are left
    ensures var all, offset := Answer(rows, keep, orders), if cursor.None? then 0 else cursor.value;
            && |page.items| <= limit
            && (offset <= |all| ==> offset + |page.items| <= |all| && page.items == all[offset..offset + |page.items|]
                                    && (|page.items| < limit ==> offset + |page.items| == |all|))
            && (offset > |all| ==> page.items == [])
            && page.cursor == (if offset + limit < |all| then Some(offset + limit) else None)
  {
    var matches := Filter(rows, keep);
    var i := |orders|;
    SortByNothing(matches);
    while i > 0
      invariant 0 <= i <= |orders|
      invariant matches == SortBy(Filter(rows, keep), Lexicographic(orders[i..]))
    {
      i := i - 1;
      PrecedesIsWeakOrder(orders[i]);
      LexicographicIsWeakOrder(orders[i + 1..]);
      TwoPasses(Filter(rows, keep), orders[i].Precedes(), Lexicographic(orders[i + 1..]));
      assert orders[i..][0] == orders[i] && orders[i..][1..] == orders[i + 1..];
      matches := SortBy(matches, orders[i].Precedes());
    }
    assert orders[0..] == orders;
    page := PageOf(matches, limit, cursor);
  }

  // Following the cursors to the end yields every row of the answer once, in order.
  method CollectPages<T(!new)>(rows: seq<T>, keep: T -> bool, orders: seq<Order<T>>, limit: nat) returns (all: seq<T>)
    requires limit > 0
    ensures all == Answer(rows, keep, orders)
  {
    ghost var answer := Answer(rows, keep, orders);
    var page := Query(rows, keep, orders, limit, None);
    all := page.items;
    while page.cursor.Some?
      invariant |all| <= |answer| && all == answer[..|all|]
      invariant if page.cursor.Some? then page.cursor.value == |all| < |answer| else all == answer
      decreases |answer| - |all|, page.cursor.Some?
    {
      page := Query(rows, keep, orders, limit, page.cursor);
      all := all + page.items;
    }
  }

  lemma AnswerMembers<T(!new)>(rows: seq<T>, keep: T -> bool, orders: seq<Order<T>>, q: T)
    ensures q in Answer(rows, keep, orders) <==> q in rows && keep(q)
  {
    LexicographicIsWeakOrder(orders);
    SortSorts(Filter(rows, keep), Lexicographic(orders));
    FilterKeeps(rows, keep, q);
    assert q in Answer(rows, keep, orders) <==> q in multiset(Answer(rows, keep, orders));
  }

  // ---------------------------------------------------------------- latest

  function VersionOrderCell(r: StoredResource): Cell {
    if r.versionOrder.Some? then IntCell(r.versionOrder.value) else NullCell
  }

  function LatestOrder(): seq<Order<StoredResource>> {
    [Order(r => VersionOrderCell(r), true), Order((r: StoredResource) => TextCell(r.createdAt), true)]
  }

  // q is newer than r: a greater version order, any version order against none, or a later creation.
  predicate Newer(q: StoredResource, r: StoredResource) {
    || (q.versionOrder.Some? && (r.versionOrder.None? || q.versionOrder.value > r.versionOrder.value))
    || (q.versionOrder == r.versionOrder && Before(r.createdAt, q.createdAt))
  }

  lemma LatestOrderIsNewer(q: StoredResource, r: StoredResource)
    ensures Lexicographic(LatestOrder())(q, r) <==> Newer(q, r)
  {
    var orders := LatestOrder();
    assert Lexicographic(orders[2..])(q, r) == false;
    assert orders[1..][0] == orders[1] && orders[1..][1..] == orders[2..];
    assert Lexicographic(orders[1..])(q, r) == orders[1].Precedes()(q, r);
  }

  predicate Matches(r: StoredResource, namespace: string, kind: string, name: string, profile: Option<Profile>) {
    && r.identity.namespace == namespace && r.identity.kind == kind && r.identity.name == name
    && (profile.Some? ==> r.profile == profile.value)
    && r.state == Published
  }

  lemma FirstIsNewest(rows: seq<StoredResource>, keep: StoredResource -> bool, q: StoredResource)
    requires q in Answer(rows, keep, LatestOrder())
    ensures !Newer(q, Answer(rows, keep, LatestOrder())[0])
  {
    var all := Answer(rows, keep, LatestOrder());
    var less := Lexicographic(LatestOrder());
    LexicographicIsWeakOrder(LatestOrder());
    SortSorts(Filter(rows, keep), less);
    LatestOrderIsNewer(q, all[0]);
    var j :| 0 <= j < |all| && all[j] == q;
    if j == 0 {
      assert less(q, q) ==> !less(q, q);
    }
  }

  // latest_resource: a published match that no published match is newer than, if there is any.
  method Latest(rows: seq<StoredResource>, namespace: string, kind: string, name: string, profile: Option<Profile>) returns (r: Result<StoredResource>)
    ensures r.Ok? <==> exists q :: q in rows && Matches(q, namespace, kind, name, profile)
    ensures r.Err? ==> r.error == ResourceNotFound
    ensures r.Err? ==> forall q | q in rows :: q.state != Published || q.identity.namespace != namespace || q.identity.kind != kind
                                               || q.identity.name != name || (profile.Some? && q.profile != profile.value)
    ensures r.Ok? ==> r.value in rows && Matches(r.value, namespace, kind, name, profile)
    ensures r.Ok? ==> && r.value.state == Published && r.value.identity.namespace == namespace && r.value.identity.kind == kind
                      && r.value.identity.name == name && (profile == None || profile == Some(r.value.profile))
    ensures r.Ok? ==> forall q :: q in rows && Matches(q, namespace, kind, name, profile) ==> !Newer(q, r.value)
  {
    var keep := (q: StoredResource) => Matches(q, namespace, kind, name, profile);
    var page := Query(rows, keep, LatestOrder(), 1, None);
    ghost var all := Answer(rows, keep, LatestOrder());
    forall q
      ensures q in all <==> q in rows && keep(q)
    {
      AnswerMembers(rows, keep, LatestOrder(), q);
    }
    if page.items == [] {
      assert all == [];
      return Err(ResourceNotFound);
    }
    r := Ok(page.items[0]);
    assert r.value == all[0] && all[0] in all;
    forall q | q in rows && keep(q)
      ensures !Newer(q, r.value)
    {
      FirstIsNewest(rows, keep, q);
    }
  }
}

/**
 * The read side of the task controller: the two listings, the lookup by id
 * and the statistics, each the SELECT it runs evaluated over the table.
 */
module TarefasQueries {
  import opened TarefaTypes
  import opened Text
  import opened Lists
  import opened TarefasController

  // ---------------------------------------------------------------- scanning the table

  /** A non-empty set of integers has a least element. */
  lemma {:induction false} MinOf(s: set<int>) returns (m: int)
    requires s != {}
    ensures m in s && forall y :: y in s ==> m <= y
    decreases |s|
  {
    if forall y :: y !in s {
      assert false;
    }
    var x :| x in s;
    var rest := s - {x};
    if rest == {} {
      m := x;
      forall y | y in s ensures y == x {
        assert y !in rest;
      }
    } else {
      var least := MinOf(rest);
      m := if x < least then x else least;
      forall y | y in s ensures m <= y {
        if y != x {
          assert y in rest;
        }
      }
    }
  }

  lemma MinExists(s: set<int>)
    requires s != {}
    ensures exists m :: m in s && forall y :: y in s ==> m <= y
  {
    var m := MinOf(s);
  }

  /** The smallest key of a non-empty key set. */
  function Least(s: set<int>): (m: int)
    requires s != {}
    ensures m in s && forall y :: y in s ==> m <= y
  {
    MinExists(s);
    var m :| m in s && forall y :: y in s ==> m <= y;
    m
  }

  /** The keys of the table in ascending order: the order a scan visits them in. */
  function SortedIds(s: set<int>): (r: seq<int>)
    ensures |r| == |s|
    ensures forall x :: x in r <==> x in s
    ensures forall i, j :: 0 <= i < j < |r| ==> r[i] < r[j]
    decreases |s|
  {
    if s == {} then []
    else
      var m := Least(s);
      var rest := SortedIds(s - {m});
      var r := [m] + rest;
      assert forall i, j :: 0 <= i < j < |r| ==> r[i] < r[j] by {
        forall i, j | 0 <= i < j < |r| ensures r[i] < r[j] {
          if i == 0 {
            assert r[j] == rest[j - 1] && rest[j - 1] in s - {m};
          } else {
            assert r[i] == rest[i - 1] && r[j] == rest[j - 1];
          }
        }
      }
      r
  }

  /** The rows stored under `ids`, in that order. */
  function RowsAt(t: Table, ids: seq<int>): (r: seq<Tarefa>)
    requires forall i :: 0 <= i < |ids| ==> ids[i] in t
    ensures |r| == |ids|
    ensures forall i :: 0 <= i < |r| ==> r[i] == t[ids[i]] && r[i].id == ids[i]
  {
    if ids == [] then [] else [t[ids[0]]] + RowsAt(t, ids[1..])
  }

  predicate DistinctIds(s: seq<Tarefa>) {
    forall i, j :: 0 <= i < j < |s| ==> s[i].id != s[j].id
  }

  /** Every row of the table, each exactly once. */
  function Rows(t: Table): (r: seq<Tarefa>)
    ensures |r| == |t| && DistinctIds(r)
    ensures forall x :: x in r ==> x.id in t && t[x.id] == x
    ensures forall id :: id in t ==> t[id] in r
  {
    var ids := SortedIds(t.Keys);
    RowsAtKeys(t, ids);
    RowsAt(t, ids)
  }

  lemma RowsAtKeys(t: Table, ids: seq<int>)
    requires forall id :: id in ids <==> id in t
    requires |ids| == |t.Keys|
    requires forall i, j :: 0 <= i < j < |ids| ==> ids[i] < ids[j]
    ensures forall i :: 0 <= i < |ids| ==> ids[i] in t
    ensures var r := RowsAt(t, ids);
      && |r| == |t| && DistinctIds(r)
      && (forall x :: x in r ==> x.id in t && t[x.id] == x)
      && (forall id :: id in t ==> t[id] in r)
  {
    assert forall i :: 0 <= i < |ids| ==> ids[i] in t by {
      forall i | 0 <= i < |ids| ensures ids[i] in t {
        assert ids[i] in ids;
      }
    }
    var r := RowsAt(t, ids);
    forall i, j | 0 <= i < j < |r| ensures r[i].id != r[j].id {
      assert r[i].id == ids[i] < ids[j] == r[j].id;
    }
    forall x | x in r ensures x.id in t && t[x.id] == x {
      var i :| 0 <= i < |r| && r[i] == x;
    }
    forall id | id in t ensures t[id] in r {
      var i :| 0 <= i < |ids| && ids[i] == id;
      assert r[i] == t[id];
    }
  }

  lemma RowsAreTheValues(t: Table)
    ensures Distinct(Rows(t))
    ensures forall x :: x in Rows(t) <==> x in t.Values
  {
    var rows := Rows(t);
    forall i, j | 0 <= i < j < |rows| ensures rows[i] != rows[j] {
      assert rows[i].id != rows[j].id;
    }
    forall x | x in t.Values ensures x in rows {
      var id :| id in t && t[id] == x;
    }
  }

  /** Counting over the scan counts the rows of the table that satisfy `p`. */
  lemma CountRows(t: Table, p: Tarefa -> bool)
    ensures |Filter(Rows(t), p)| == |Matching(t.Values, p)|
  {
    var rows := Rows(t);
    RowsAreTheValues(t);
    FilterCountDistinct(rows, p);
    assert Elements(rows) == t.Values by {
      forall x ensures x in Elements(rows) <==> x in t.Values {
        assert x in Elements(rows) <==> x in rows;
      }
    }
  }

  /** SELECT COUNT(*) ... WHERE p: the number of rows of the table that satisfy `p`. */
  function CountWhere(t: Table, p: Tarefa -> bool): (n: nat)
    ensures n == |Matching(t.Values, p)|
  {
    CountRows(t, p);
    |Filter(Rows(t), p)|
  }

  // ---------------------------------------------------------------- ORDER BY created_at DESC

  predicate CreatedDesc(s: seq<Tarefa>) {
    forall i, j :: 0 <= i < j < |s| ==> s[i].createdAt >= s[j].createdAt
  }

  /** The first row of a newest-first sequence is at least as new as every row of it. */
  lemma HeadIsNewest(s: seq<Tarefa>)
    requires CreatedDesc(s) && s != []
    ensures forall y :: y in s ==> s[0].createdAt >= y.createdAt
  {
    forall y | y in s ensures s[0].createdAt >= y.createdAt {
      var k :| 0 <= k < |s| && s[k] == y;
    }
  }

  /** A row at least as new as the head of a newest-first sequence can go in front of it. */
  lemma {:induction false} PrependNewest(x: Tarefa, s: seq<Tarefa>)
    requires CreatedDesc(s) && (s == [] || x.createdAt >= s[0].createdAt)
    ensures CreatedDesc([x] + s)
  {
    var r := [x] + s;
    if s != [] {
      HeadIsNewest(s);
    }
    forall i, j | 0 <= i < j < |r| ensures r[i].createdAt >= r[j].createdAt {
      if i == 0 {
        assert r[j] == s[j - 1] && s[j - 1] in s;
      } else {
        assert r[i] == s[i - 1] && r[j] == s[j - 1];
      }
    }
  }

  /** The head of a newest-first sequence stays in front when a later row is inserted behind it. */
  lemma {:induction false} PrependOlder(h: Tarefa, x: Tarefa, tail: seq<Tarefa>, rest: seq<Tarefa>)
    requires CreatedDesc([h] + tail) && h.createdAt > x.createdAt
    requires CreatedDesc(rest) && multiset(rest) == multiset(tail) + multiset{x}
    ensures CreatedDesc([h] + rest)
  {
    HeadIsNewest([h] + tail);
    if rest != [] {
      var y := rest[0];
      assert y in multiset(rest);
      if y != x {
        assert y in tail;
        assert y in [h] + tail;
      }
    }
    PrependNewest(h, rest);
  }

  function InsertByCreated(x: Tarefa, s: seq<Tarefa>): (r: seq<Tarefa>)
    requires CreatedDesc(s)
    ensures |r| == |s| + 1 && CreatedDesc(r)
    ensures multiset(r) == multiset(s) + multiset{x}
  {
    if s == [] || x.createdAt >= s[0].createdAt then
      PrependNewest(x, s);
      [x] + s
    else
      assert s == [s[0]] + s[1..];
      var rest := InsertByCreated(x, s[1..]);
      PrependOlder(s[0], x, s[1..], rest);
      [s[0]] + rest
  }

  /** Newest first; rows created at the same instant keep no promised order. */
  function SortByCreated(s: seq<Tarefa>): (r: seq<Tarefa>)
    ensures |r| == |s| && CreatedDesc(r)
    ensures multiset(r) == multiset(s)
  {
    if s == [] then []
    else
      assert s == [s[0]] + s[1..];
      InsertByCreated(s[0], SortByCreated(s[1..]))
  }

  /** A row whose id no row of `s` has can go in front of `s`. */
  lemma {:induction false} PrependDistinct(x: Tarefa, s: seq<Tarefa>)
    requires DistinctIds(s) && forall y :: y in s ==> y.id != x.id
    ensures DistinctIds([x] + s)
  {
    var r := [x] + s;
    forall i, j | 0 <= i < j < |r| ensures r[i].id != r[j].id {
      if i == 0 {
        assert r[j] == s[j - 1] && s[j - 1] in s;
      } else {
        assert r[i] == s[i - 1] && r[j] == s[j - 1];
      }
    }
  }

  /** The rows after the head of a sequence with distinct ids have distinct ids, none the head's. */
  lemma {:induction false} TailDistinct(s: seq<Tarefa>)
    requires DistinctIds(s) && s != []
    ensures DistinctIds(s[1..])
    ensures forall y :: y in s[1..] ==> y.id != s[0].id
  {
    var tail := s[1..];
    forall i, j | 0 <= i < j < |tail| ensures tail[i].id != tail[j].id {
      assert tail[i] == s[i + 1] && tail[j] == s[j + 1];
    }
    forall y | y in tail ensures y.id != s[0].id {
      var k :| 0 <= k < |tail| && tail[k] == y;
      assert s[k + 1] == y;
    }
  }

  /** Sorting keeps exactly the rows it is given. */
  lemma SortKeepsMembers(s: seq<Tarefa>)
    ensures forall x :: x in SortByCreated(s) <==> x in s
  {
    var r := SortByCreated(s);
    forall x ensures x in r <==> x in s {
      assert x in r <==> x in multiset(r);
      assert x in s <==> x in multiset(s);
    }
  }

  /** A reordering keeps the ids distinct. */
  lemma {:induction false} InsertKeepsDistinct(x: Tarefa, s: seq<Tarefa>)
    requires CreatedDesc(s) && DistinctIds(s)
    requires forall y :: y in s ==> y.id != x.id
    ensures DistinctIds(InsertByCreated(x, s))
  {
    if s == [] || x.createdAt >= s[0].createdAt {
      PrependDistinct(x, s);
    } else {
      var tail := s[1..];
      assert s == [s[0]] + tail;
      TailDistinct(s);
      forall y | y in tail ensures y.id != x.id {
        assert y in s;
      }
      InsertKeepsDistinct(x, tail);
      var rest := InsertByCreated(x, tail);
      forall y | y in rest ensures y.id != s[0].id {
        assert y in multiset(rest);
        if y != x {
          assert y in tail;
        } else {
          assert s[0] in s;
        }
      }
      PrependDistinct(s[0], rest);
    }
  }

  lemma {:induction false} SortKeepsDistinct(s: seq<Tarefa>)
    requires DistinctIds(s)
    ensures DistinctIds(SortByCreated(s))
  {
    if s != [] {
      TailDistinct(s);
      SortKeepsDistinct(s[1..]);
      var sorted := SortByCreated(s[1..]);
      forall y | y in sorted ensures y.id != s[0].id {
        assert y in multiset(s[1..]);
      }
      InsertKeepsDistinct(s[0], sorted);
    }
  }

  lemma {:induction false} InsertKeepsCount(x: Tarefa, s: seq<Tarefa>, p: Tarefa -> bool)
    requires CreatedDesc(s)
    ensures |Filter(InsertByCreated(x, s), p)| == |Filter(s, p)| + (if p(x) then 1 else 0)
  {
    var r := InsertByCreated(x, s);
    if s == [] || x.createdAt >= s[0].createdAt {
      assert r[1..] == s;
    } else {
      InsertKeepsCount(x, s[1..], p);
      assert r[1..] == InsertByCreated(x, s[1..]);
    }
  }

  /** Ordering does not change how many rows satisfy a predicate. */
  lemma {:induction false} SortKeepsCount(s: seq<Tarefa>, p: Tarefa -> bool)
    ensures |Filter(SortByCreated(s), p)| == |Filter(s, p)|
  {
    if s != [] {
      SortKeepsCount(s[1..], p);
      InsertKeepsCount(s[0], SortByCreated(s[1..]), p);
    }
  }

  // ---------------------------------------------------------------- listings

  /** The `status` query parameter takes effect when it is present and not empty. */
  predicate StatusMatches(x: Tarefa, status: Option<string>) {
    !Given(status) || StatusName(x.status) == status.value
  }

  predicate Selected(x: Tarefa, quadrante: Option<int>, status: Option<string>) {
    (quadrante.None? || x.quadrante == quadrante.value) && StatusMatches(x, status)
  }

  /** The WHERE clause of a listing, as a predicate on rows. */
  function Where(quadrante: Option<int>, status: Option<string>): Tarefa -> bool {
    x => Selected(x, quadrante, status)
  }

  /** SELECT * FROM tarefas_eisenhower [WHERE ...] ORDER BY created_at DESC. */
  function Select(t: Table, quadrante: Option<int>, status: Option<string>): (r: seq<Tarefa>)
    ensures forall x :: x in r ==> x.id in t && t[x.id] == x && Selected(x, quadrante, status)
    ensures forall id :: id in t && Selected(t[id], quadrante, status) ==> t[id] in r
    ensures DistinctIds(r) && CreatedDesc(r)
  {
    var rows := Rows(t);
    var matching := Filter(rows, Where(quadrante, status));
    FilterKeepsDistinct(rows, Where(quadrante, status));
    SortKeepsDistinct(matching);
    SortKeepsMembers(matching);
    SortByCreated(matching)
  }

  lemma {:induction false} FilterKeepsDistinct(s: seq<Tarefa>, p: Tarefa -> bool)
    requires DistinctIds(s)
    ensures DistinctIds(Filter(s, p))
  {
    if s != [] {
      FilterKeepsDistinct(s[1..], p);
      var rest := Filter(s[1..], p);
      if p(s[0]) {
        forall y | y in rest ensures y.id != s[0].id {
          var k :| 0 <= k < |s[1..]| && s[1..][k] == y;
          assert s[k + 1] == y;
        }
      }
    }
  }

  /** GET /: every row (with the status given), each once, newest first. */
  function ListarTodas(t: Table, status: Option<string>): (r: seq<Tarefa>)
    ensures forall x :: x in r ==> x.id in t && t[x.id] == x && StatusMatches(x, status)
    ensures forall id :: id in t && StatusMatches(t[id], status) ==> t[id] in r
    ensures !Given(status) ==> |r| == |t|
    ensures DistinctIds(r) && CreatedDesc(r)
  {
    if Given(status) then Select(t, None, status)
    else
      FilterAll(Rows(t), Where(None, status));
      Select(t, None, status)
  }

  /** GET /quadrante/:quadrante: the rows of one quadrant (with the status given), newest first. */
  function ListarPorQuadrante(t: Table, quadrante: int, status: Option<string>): (r: seq<Tarefa>)
    ensures forall x :: x in r ==> x.id in t && t[x.id] == x && x.quadrante == quadrante && StatusMatches(x, status)
    ensures forall id :: id in t && t[id].quadrante == quadrante && StatusMatches(t[id], status) ==> t[id] in r
    ensures DistinctIds(r) && CreatedDesc(r)
  {
    Select(t, Some(quadrante), status)
  }

  /** GET /:id: the row with that id, or 404. */
  function BuscarPorId(t: Table, id: int): (r: Reply<Tarefa>)
    ensures r.Ok? <==> id in t
    ensures r.Ok? ==> r.code == 200 && r.value == t[id] && r.value.id == id
    ensures r.Error? ==> r.code == 404 && r.message == TarefaNaoEncontrada
  {
    var found := Filter(Rows(t), (x: Tarefa) => x.id == id);
    if |found| == 0 then Error(404, TarefaNaoEncontrada)
    else
      assert found[0] in found;
      Ok(200, found[0])
  }

  // ---------------------------------------------------------------- GROUP BY quadrante, status

  /** One group of the grouping while it is being counted. */
  datatype Tally = Tally(quadrante: Quadrant, status: Status, count: nat)

  function Key(g: Tally): (int, Status) {
    (g.quadrante as int, g.status)
  }

  function KeySet(g: seq<Tally>): set<(int, Status)> {
    if g == [] then {} else {Key(g[0])} + KeySet(g[1..])
  }

  /** No two groups share a (quadrante, status) pair. */
  predicate DistinctKeys(g: seq<Tally>) {
    g == [] || (Key(g[0]) !in KeySet(g[1..]) && DistinctKeys(g[1..]))
  }

  predicate AllPositive(g: seq<Tally>) {
    forall i :: 0 <= i < |g| ==> g[i].count > 0
  }

  /** The count recorded for a pair (zero when it has no group). */
  function CountOf(g: seq<Tally>, q: int, st: Status): nat {
    if g == [] then 0
    else (if Key(g[0]) == (q, st) then g[0].count else 0) + CountOf(g[1..], q, st)
  }

  /** The sum of the counts. */
  function Total(g: seq<Tally>): nat {
    if g == [] then 0 else g[0].count + Total(g[1..])
  }

  /** Counts one more row for the pair, opening a group for it at the end when it has none. */
  function Bump(g: seq<Tally>, q: Quadrant, st: Status): (r: seq<Tally>)
    ensures forall q', st' :: CountOf(r, q', st') == CountOf(g, q', st') + (if (q', st') == (q as int, st) then 1 else 0)
    ensures Total(r) == Total(g) + 1
    ensures KeySet(r) == KeySet(g) + {(q as int, st)}
    ensures DistinctKeys(g) ==> DistinctKeys(r)
    ensures AllPositive(g) ==> AllPositive(r)
  {
    if g == [] then
      var r := [Tally(q, st, 1)];
      assert r[1..] == [];
      r
    else if Key(g[0]) == (q, st) then
      var r := [g[0].(count := g[0].count + 1)] + g[1..];
      assert r[1..] == g[1..];
      r
    else
      var r := [g[0]] + Bump(g[1..], q, st);
      assert r[1..] == Bump(g[1..], q, st);
      r
  }

  /** The rows' (quadrante, status) pairs, each once, with how many rows carry it. */
  function Tallies(rows: seq<Tarefa>): (g: seq<Tally>)
    ensures DistinctKeys(g) && AllPositive(g) && Total(g) == |rows|
  {
    if rows == [] then []
    else Bump(Tallies(rows[..|rows| - 1]), rows[|rows| - 1].quadrante, rows[|rows| - 1].status)
  }

  /** Each pair's count is the number of rows carrying it. */
  lemma {:induction false} TalliesCount(rows: seq<Tarefa>, q: int, st: Status)
    ensures CountOf(Tallies(rows), q, st) == |Filter(rows, PairIs(q, st))|
  {
    if rows != [] {
      TalliesCount(rows[..|rows| - 1], q, st);
      FilterCountLast(rows, PairIs(q, st));
    }
  }

  /** The rows of one (quadrante, status) pair. */
  function PairIs(q: int, st: Status): Tarefa -> bool {
    (x: Tarefa) => x.quadrante == q && x.status == st
  }

  /** A pair with a positive count has a group. */
  lemma {:induction false} CountedPairHasGroup(g: seq<Tally>, q: int, st: Status)
    requires CountOf(g, q, st) > 0
    ensures exists i :: 0 <= i < |g| && Key(g[i]) == (q, st)
  {
    if Key(g[0]) != (q, st) {
      CountedPairHasGroup(g[1..], q, st);
      var i :| 0 <= i < |g[1..]| && Key(g[1..][i]) == (q, st);
      assert Key(g[i + 1]) == (q, st);
    }
  }

  lemma {:induction false} KeyAbsentCountsZero(g: seq<Tally>, q: int, st: Status)
    requires (q, st) !in KeySet(g)
    ensures CountOf(g, q, st) == 0
  {
    if g != [] {
      KeyAbsentCountsZero(g[1..], q, st);
    }
  }

  /** With distinct pairs, a group's count is the count recorded for its pair. */
  lemma {:induction false} GroupCountIsCountOf(g: seq<Tally>, i: int)
    requires DistinctKeys(g) && 0 <= i < |g|
    ensures CountOf(g, g[i].quadrante, g[i].status) == g[i].count
    ensures forall j :: 0 <= j < |g| && j != i ==> Key(g[j]) != Key(g[i])
  {
    if i == 0 {
      KeyAbsentCountsZero(g[1..], g[0].quadrante, g[0].status);
      forall j | 0 < j < |g| ensures Key(g[j]) != Key(g[0]) {
        KeyInKeySet(g[1..], j - 1);
      }
    } else {
      GroupCountIsCountOf(g[1..], i - 1);
      KeyInKeySet(g[1..], i - 1);
      assert g[1..][i - 1] == g[i];
      forall j | 0 < j < |g| && j != i ensures Key(g[j]) != Key(g[i]) {
        assert g[1..][j - 1] == g[j];
      }
    }
  }

  lemma {:induction false} KeyInKeySet(g: seq<Tally>, i: int)
    requires 0 <= i < |g|
    ensures Key(g[i]) in KeySet(g)
  {
    if i > 0 {
      KeyInKeySet(g[1..], i - 1);
    }
  }

  // ---------------------------------------------------------------- statistics

  /** Open rows of one quadrant: `quadrante = q AND status != 'concluida' AND status != 'cancelada'`. */
  function OpenIn(q: int): Tarefa -> bool {
    (x: Tarefa) => x.quadrante == q && IsOpen(x.status)
  }

  /** Rows concluded on the given local day; a NULL completion date never matches. */
  function DoneOn(localDay: Instant -> int, day: int): Tarefa -> bool {
    (x: Tarefa) => x.status == Concluida && x.completedAt.Some? && localDay(x.completedAt.value) == day
  }

  /** A group row of the response describes its pair exactly. */
  predicate GroupMeans(t: Table, gc: GroupCount) {
    && 1 <= gc.quadrante <= 4
    && ParseStatus(gc.status).Some?
    && AllDigits(gc.total)
    && ParseDigits(gc.total) == |Matching(t.Values, PairIs(gc.quadrante, ParseStatus(gc.status).value))|
    && ParseDigits(gc.total) > 0
  }

  function AsGroupCount(g: Tally): GroupCount {
    GroupCount(g.quadrante, StatusName(g.status), NatToString(g.count))
  }

  function AsGroupCounts(g: seq<Tally>): (r: seq<GroupCount>)
    ensures |r| == |g| && forall i :: 0 <= i < |g| ==> r[i] == AsGroupCount(g[i])
  {
    if g == [] then [] else [AsGroupCount(g[0])] + AsGroupCounts(g[1..])
  }

  /**
   * GET /stats: the open tasks of quadrants 1 and 2, the tasks concluded on the
   * current local day, and the count of every (quadrante, status) pair present.
   * `localDay` is the calendar day of an instant in the server's time zone.
   */
  function Estatisticas(t: Table, now: Instant, localDay: Instant -> int): (s: Stats)
    ensures s.urgentes == |Matching(t.Values, OpenIn(1))|
    ensures s.agendadas == |Matching(t.Values, OpenIn(2))|
    ensures s.concluidasHoje == |Matching(t.Values, DoneOn(localDay, localDay(now)))|
    ensures forall i :: 0 <= i < |s.porQuadrante| ==> GroupMeans(t, s.porQuadrante[i])
    ensures forall i, j :: 0 <= i < j < |s.porQuadrante| ==>
      (s.porQuadrante[i].quadrante, s.porQuadrante[i].status) != (s.porQuadrante[j].quadrante, s.porQuadrante[j].status)
    ensures forall x :: x in t.Values ==>
      exists i :: 0 <= i < |s.porQuadrante| && s.porQuadrante[i].quadrante == x.quadrante && s.porQuadrante[i].status == StatusName(x.status)
  {
    var urgentes, agendadas, hoje := CountWhere(t, OpenIn(1)), CountWhere(t, OpenIn(2)), CountWhere(t, DoneOn(localDay, localDay(now)));
    ParseNatToString(urgentes);
    ParseNatToString(agendadas);
    ParseNatToString(hoje);
    var g := Tallies(Rows(t));
    GroupsDescribeTable(t, g);
    Stats(ParseDigits(NatToString(urgentes)), ParseDigits(NatToString(agendadas)),
          ParseDigits(NatToString(hoje)), AsGroupCounts(g))
  }

  /** One group row gives its pair's number of rows. */
  lemma {:induction false} GroupMeansAt(t: Table, g: seq<Tally>, i: int)
    requires g == Tallies(Rows(t)) && 0 <= i < |g|
    ensures GroupMeans(t, AsGroupCount(g[i]))
  {
    var q, st, n := g[i].quadrante, g[i].status, g[i].count;
    GroupCountIsCountOf(g, i);
    TalliesCount(Rows(t), q, st);
    CountRows(t, PairIs(q, st));
    ParseNatToString(n);
    assert ParseStatus(StatusName(st)) == Some(st);
    assert n == |Matching(t.Values, PairIs(q, st))|;
  }

  lemma GroupsDescribeTable(t: Table, g: seq<Tally>)
    requires g == Tallies(Rows(t))
    ensures var r := AsGroupCounts(g);
      && (forall i :: 0 <= i < |r| ==> GroupMeans(t, r[i]))
      && (forall i, j :: 0 <= i < j < |r| ==> (r[i].quadrante, r[i].status) != (r[j].quadrante, r[j].status))
      && (forall x :: x in t.Values ==> exists i :: 0 <= i < |r| && r[i].quadrante == x.quadrante && r[i].status == StatusName(x.status))
  {
    var r := AsGroupCounts(g);
    forall i | 0 <= i < |r| ensures GroupMeans(t, r[i]) {
      GroupMeansAt(t, g, i);
    }
    forall i, j | 0 <= i < j < |r| ensures (r[i].quadrante, r[i].status) != (r[j].quadrante, r[j].status) {
      GroupsDiffer(g, i, j);
    }
    forall x | x in t.Values ensures exists i :: 0 <= i < |r| && r[i].quadrante == x.quadrante && r[i].status == StatusName(x.status) {
      var i := GroupOfRow(t, g, x);
      assert r[i] == AsGroupCount(g[i]);
    }
  }

  /** Two group rows name different pairs. */
  lemma {:induction false} GroupsDiffer(g: seq<Tally>, i: int, j: int)
    requires DistinctKeys(g) && 0 <= i < j < |g|
    ensures (AsGroupCount(g[i]).quadrante, AsGroupCount(g[i]).status) != (AsGroupCount(g[j]).quadrante, AsGroupCount(g[j]).status)
  {
    GroupCountIsCountOf(g, i);
    if StatusName(g[i].status) == StatusName(g[j].status) {
      assert ParseStatus(StatusName(g[i].status)) == Some(g[j].status);
    }
  }

  /** The group row of a row's pair. */
  lemma {:induction false} GroupOfRow(t: Table, g: seq<Tally>, x: Tarefa) returns (i: int)
    requires g == Tallies(Rows(t)) && x in t.Values
    ensures 0 <= i < |g| && Key(g[i]) == (x.quadrante as int, x.status)
  {
    RowsAreTheValues(t);
    assert x in Filter(Rows(t), PairIs(x.quadrante, x.status));
    TalliesCount(Rows(t), x.quadrante, x.status);
    CountedPairHasGroup(g, x.quadrante, x.status);
    i :| 0 <= i < |g| && Key(g[i]) == (x.quadrante as int, x.status);
  }

  /** Sum of the `total` texts, read back as numbers. */
  function SumTotals(r: seq<GroupCount>): int {
    if r == [] then 0
    else (if AllDigits(r[0].total) then ParseDigits(r[0].total) else 0) + SumTotals(r[1..])
  }

  /** Every row falls in exactly one group: the group totals add up to the number of rows. */
  lemma GroupTotalsAddUp(t: Table, now: Instant, localDay: Instant -> int)
    ensures SumTotals(Estatisticas(t, now, localDay).porQuadrante) == |t|
  {
    var g := Tallies(Rows(t));
    SumOfGroups(g);
  }

  lemma {:induction false} SumOfGroups(g: seq<Tally>)
    ensures SumTotals(AsGroupCounts(g)) == Total(g)
  {
    if g != [] {
      SumOfGroups(g[1..]);
      ParseNatToString(g[0].count);
      assert AsGroupCounts(g)[1..] == AsGroupCounts(g[1..]);
    }
  }
}

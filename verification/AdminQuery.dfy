/**
 Searching and paging the administration lists (apps/api/src/admin/admin-query.ts).
 A row is what the statement sees of it: the text of each searched expression and the
 place of each sort expression in the order of its type, both possibly NULL.
 */
module AdminQuery {
  import opened Common
  import opened LikePattern

  type Expression = string

  datatype Row = Row(texts: map<Expression, string>, ranks: map<Expression, int>)

  // ----- WHERE -----

  datatype Truth = True | False | Unknown

  function Or(a: Truth, b: Truth): Truth {
    if a.True? || b.True? then True else if a.Unknown? || b.Unknown? then Unknown else False
  }

  function And(a: Truth, b: Truth): Truth {
    if a.False? || b.False? then False else if a.Unknown? || b.Unknown? then Unknown else True
  }

  function ILikeTruth(fold: char -> char, row: Row, expression: Expression, pattern: string): Truth {
    if expression !in row.texts then Unknown
    else if ILike(fold, row.texts[expression], pattern) then True else False
  }

  // One bracket: expressions joined by OR over one pattern.
  datatype Bracket = Bracket(expressions: seq<Expression>, pattern: string)

  function BracketTruth(fold: char -> char, row: Row, bracket: Bracket): Truth
    decreases |bracket.expressions|
  {
    if bracket.expressions == [] then False
    else
      Or(ILikeTruth(fold, row, bracket.expressions[0], bracket.pattern),
         BracketTruth(fold, row, bracket.(expressions := bracket.expressions[1..])))
  }

  function WhereTruth(fold: char -> char, row: Row, wheres: seq<Bracket>): Truth {
    if wheres == [] then True
    else And(WhereTruth(fold, row, wheres[..|wheres| - 1]), BracketTruth(fold, row, wheres[|wheres| - 1]))
  }

  ghost predicate Found(fold: char -> char, row: Row, expressions: seq<Expression>, search: string) {
    exists e :: e in expressions && e in row.texts && Contains(Folded(fold, row.texts[e]), Folded(fold, search))
  }

  // A bracket is true of exactly the rows one of whose expressions contains the search.
  lemma {:induction false} BracketFindsSubstrings(fold: char -> char, row: Row, expressions: seq<Expression>,
    search: string)
    requires KeepsMetacharacters(fold)
    ensures BracketTruth(fold, row, Bracket(expressions, ContainsPattern(search))).True? <==>
            Found(fold, row, expressions, search)
    decreases |expressions|
  {
    if expressions != [] {
      BracketFindsSubstrings(fold, row, expressions[1..], search);
      if expressions[0] in row.texts {
        MatchesUpToCase(fold, search, row.texts[expressions[0]]);
      }
      assert forall e :: e in expressions <==> e == expressions[0] || e in expressions[1..];
    }
  }

  // ----- ORDER BY -----

  datatype Direction = Asc | Desc

  datatype Order = Order(column: Expression, direction: Direction)

  // NULL counts as larger than every value.
  function CompareRanks(a: Row, b: Row, column: Expression): int {
    if column in a.ranks && column in b.ranks then a.ranks[column] - b.ranks[column]
    else if column in a.ranks then -1
    else if column in b.ranks then 1
    else 0
  }

  function Compare(a: Row, b: Row, orders: seq<Order>): int {
    if orders == [] then 0
    else
      var c := CompareRanks(a, b, orders[0].column);
      if c != 0 then (if orders[0].direction.Asc? then c else -c) else Compare(a, b, orders[1..])
  }

  ghost predicate Sorted(rows: seq<Row>, orders: seq<Order>) {
    forall i, j :: 0 <= i < j < |rows| ==> Compare(rows[i], rows[j], orders) <= 0
  }

  lemma {:induction false} CompareIsAntisymmetric(a: Row, b: Row, orders: seq<Order>)
    ensures (Compare(a, b, orders) <= 0) == (Compare(b, a, orders) >= 0)
    ensures (Compare(a, b, orders) == 0) == (Compare(b, a, orders) == 0)
  {
    if orders != [] { CompareIsAntisymmetric(a, b, orders[1..]); }
  }

  lemma {:induction false} CompareIsTransitive(a: Row, b: Row, c: Row, orders: seq<Order>)
    requires Compare(a, b, orders) <= 0 && Compare(b, c, orders) <= 0
    ensures Compare(a, c, orders) <= 0
  {
    if orders != [] && CompareRanks(a, b, orders[0].column) == 0 && CompareRanks(b, c, orders[0].column) == 0 {
      CompareIsTransitive(a, b, c, orders[1..]);
    }
  }

  function Insert(row: Row, rows: seq<Row>, orders: seq<Order>): (r: seq<Row>)
    ensures multiset(r) == multiset(rows) + multiset{row}
  {
    if rows == [] || Compare(row, rows[0], orders) <= 0 then [row] + rows
    else
      assert rows == [rows[0]] + rows[1..];
      [rows[0]] + Insert(row, rows[1..], orders)
  }

  // What the database answers when it meets the rows in the order of `scan`; each
  // admissible answer is the one for some scan, itself for instance.
  function Answer(scan: seq<Row>, orders: seq<Order>): (r: seq<Row>)
    ensures multiset(r) == multiset(scan)
  {
    if scan == [] then []
    else
      assert scan == [scan[0]] + scan[1..];
      Insert(scan[0], Answer(scan[1..], orders), orders)
  }

  lemma {:induction false} InsertKeepsSorted(row: Row, rows: seq<Row>, orders: seq<Order>)
    requires Sorted(rows, orders)
    ensures Sorted(Insert(row, rows, orders), orders)
  {
    if rows == [] {
    } else if Compare(row, rows[0], orders) <= 0 {
      forall j | 0 <= j < |rows| ensures Compare(row, rows[j], orders) <= 0 {
        if j > 0 { CompareIsTransitive(row, rows[0], rows[j], orders); }
      }
    } else {
      InsertKeepsSorted(row, rows[1..], orders);
      CompareIsAntisymmetric(row, rows[0], orders);
      var tail := Insert(row, rows[1..], orders);
      forall j | 0 <= j < |tail| ensures Compare(rows[0], tail[j], orders) <= 0 {
        assert tail[j] in multiset(tail);
        assert tail[j] == row || tail[j] in rows[1..];
      }
    }
  }

  lemma {:induction false} AnswerIsSorted(scan: seq<Row>, orders: seq<Order>)
    ensures Sorted(Answer(scan, orders), orders)
  {
    if scan != [] {
      AnswerIsSorted(scan[1..], orders);
      InsertKeepsSorted(scan[0], Answer(scan[1..], orders), orders);
    }
  }

  ghost predicate UniqueColumn(rows: seq<Row>, column: Expression) {
    && (forall i :: 0 <= i < |rows| ==> column in rows[i].ranks)
    && (forall i, j :: 0 <= i < j < |rows| ==> rows[i].ranks[column] != rows[j].ranks[column])
  }

  // Only equal rows tie.
  ghost predicate Total(rows: seq<Row>, orders: seq<Order>) {
    forall a, b :: a in rows && b in rows && Compare(a, b, orders) == 0 ==> a == b
  }

  lemma {:induction false} TieMeansEqualColumns(a: Row, b: Row, orders: seq<Order>, order: Order)
    requires order in orders && Compare(a, b, orders) == 0
    ensures CompareRanks(a, b, order.column) == 0
  {
    if orders[0] != order { TieMeansEqualColumns(a, b, orders[1..], order); }
  }

  lemma TieBreakerMakesTotal(rows: seq<Row>, orders: seq<Order>, order: Order)
    requires UniqueColumn(rows, order.column) && order in orders
    ensures Total(rows, orders)
  {
    forall a, b | a in rows && b in rows && Compare(a, b, orders) == 0 ensures a == b {
      TieMeansEqualColumns(a, b, orders, order);
      var i :| 0 <= i < |rows| && rows[i] == a;
      var j :| 0 <= j < |rows| && rows[j] == b;
      assert rows[i].ranks[order.column] == rows[j].ranks[order.column];
    }
  }

  lemma HeadsAgree(x: seq<Row>, y: seq<Row>, orders: seq<Order>)
    requires Sorted(x, orders) && Sorted(y, orders) && Total(x, orders)
    requires x != [] && y != [] && x[0] in y && y[0] in x
    ensures x[0] == y[0]
  {
    var i :| 0 <= i < |x| && x[i] == y[0];
    var j :| 0 <= j < |y| && y[j] == x[0];
    CompareIsAntisymmetric(x[0], y[0], orders);
    if i > 0 && j > 0 {
      assert Compare(x[0], x[i], orders) <= 0 && Compare(y[0], y[j], orders) <= 0;
    }
  }

  lemma TailOf(x: seq<Row>, orders: seq<Order>)
    requires x != [] && Sorted(x, orders) && Total(x, orders)
    ensures multiset(x[1..]) == multiset(x) - multiset{x[0]}
    ensures Sorted(x[1..], orders) && Total(x[1..], orders)
  {
    assert x == [x[0]] + x[1..];
    assert forall row: Row :: row in x[1..] ==> row in x;
  }

  lemma SameMembers(x: seq<Row>, y: seq<Row>)
    requires multiset(x) == multiset(y)
    ensures |x| == |y| && forall row: Row :: row in x <==> row in y
  {
    assert |multiset(x)| == |multiset(y)|;
    forall row: Row ensures row in x <==> row in y {
      assert row in multiset(x) <==> row in multiset(y);
    }
  }

  lemma TailsAgree(x: seq<Row>, y: seq<Row>, orders: seq<Order>)
    requires Sorted(x, orders) && Sorted(y, orders) && multiset(x) == multiset(y) && Total(x, orders) && x != []
    ensures y != [] && x[0] == y[0]
    ensures Sorted(x[1..], orders) && Sorted(y[1..], orders) && multiset(x[1..]) == multiset(y[1..]) &&
            Total(x[1..], orders)
  {
    SameMembers(x, y);
    assert x[0] in x && y[0] in y;
    HeadsAgree(x, y, orders);
    TailOf(x, orders);
    assert Total(y, orders);
    TailOf(y, orders);
  }

  // Under a total order rows can be sorted in one way only.
  lemma {:induction false} SortedIsUnique(x: seq<Row>, y: seq<Row>, orders: seq<Order>)
    requires Sorted(x, orders) && Sorted(y, orders) && multiset(x) == multiset(y) && Total(x, orders)
    ensures x == y
  {
    if x == [] {
      SameMembers(x, y);
    } else {
      TailsAgree(x, y, orders);
      SortedIsUnique(x[1..], y[1..], orders);
      assert x == [x[0]] + x[1..] && y == [y[0]] + y[1..];
    }
  }

  // ----- pages -----

  function Slice(rows: seq<Row>, offset: nat, limit: nat): seq<Row> {
    if offset >= |rows| then [] else if offset + limit >= |rows| then rows[offset..] else rows[offset..offset + limit]
  }

  // How many rows the first `pages` pages hold when they are full.
  function Rows(pages: nat, size: nat): nat {
    if pages == 0 then 0 else Rows(pages - 1, size) + size
  }

  lemma {:induction false} RowsIsProduct(pages: nat, size: nat)
    ensures Rows(pages, size) == pages * size
  {
    if pages > 0 {
      RowsIsProduct(pages - 1, size);
      assert pages * size == (pages - 1) * size + size;
    }
  }

  function Page(rows: seq<Row>, page: nat, size: nat): seq<Row>
    requires page >= 1
  {
    Slice(rows, Rows(page - 1, size), size)
  }

  // A page holds the rows from (page - 1) * size on, as many as there are up to its size.
  lemma PageIsTheSlice(rows: seq<Row>, page: nat, size: nat, from: int)
    requires page >= 1 && from == (page - 1) * size
    ensures |Page(rows, page, size)| ==
            if |rows| <= from then 0 else if |rows| - from < size then |rows| - from else size
    ensures forall k :: 0 <= k < |Page(rows, page, size)| ==>
              0 <= from + k < |rows| && Page(rows, page, size)[k] == rows[from + k]
  {
    RowsIsProduct(page - 1, size);
  }

  function Concat(pages: seq<seq<Row>>): seq<Row> {
    if pages == [] then [] else Concat(pages[..|pages| - 1]) + pages[|pages| - 1]
  }

  function PageCount(count: nat, size: nat): nat
    requires size > 0
  {
    (count + size - 1) / size
  }

  function OrdersFor(orderBy: string, direction: string, sorts: map<string, Expression>, defaultSort: Expression,
                     tieBreaker: Expression): seq<Order> {
    var sort := if orderBy in sorts then sorts[orderBy] else defaultSort;
    var first := Order(sort, if direction == "asc" then Asc else Desc);
    if sort == tieBreaker then [first] else [first, Order(tieBreaker, Asc)]
  }

  function UpTo(rows: seq<Row>, n: nat): seq<Row> {
    if n >= |rows| then rows else rows[..n]
  }

  lemma SliceExtends(rows: seq<Row>, offset: nat, limit: nat)
    ensures UpTo(rows, offset) + Slice(rows, offset, limit) == UpTo(rows, offset + limit)
  {
  }

  lemma {:induction false} PagesAreAPrefix(rows: seq<Row>, pages: seq<seq<Row>>, size: nat)
    requires forall k :: 0 <= k < |pages| ==> pages[k] == Page(rows, k + 1, size)
    ensures Concat(pages) == UpTo(rows, Rows(|pages|, size))
  {
    if pages == [] {
    } else {
      var n := |pages| - 1;
      PagesAreAPrefix(rows, pages[..n], size);
      SliceExtends(rows, Rows(n, size), size);
    }
  }

  lemma PageCountCovers(count: nat, size: nat)
    requires size > 0
    ensures PageCount(count, size) * size >= count
    ensures count > 0 ==> (PageCount(count, size) - 1) * size < count
  {
  }

  lemma AnswersAgree(rows: seq<Row>, scan: seq<Row>, orders: seq<Order>)
    requires Total(rows, orders) && multiset(scan) == multiset(rows)
    ensures forall other: seq<Row> :: multiset(other) == multiset(rows) && Sorted(other, orders) ==>
            other == Answer(scan, orders)
  {
    var answer := Answer(scan, orders);
    AnswerIsSorted(scan, orders);
    SameMembers(rows, answer);
    forall other: seq<Row> | multiset(other) == multiset(rows) && Sorted(other, orders) ensures other == answer {
      SortedIsUnique(answer, other, orders);
    }
  }

  // Whichever order the database meets the rows in while answering each page, pages 1
  // to the last make up the rows, each exactly once, in the only order that is sorted.
  lemma PagesPartition(rows: seq<Row>, scans: seq<seq<Row>>, pages: seq<seq<Row>>, size: nat,
                       orderBy: string, direction: string, sorts: map<string, Expression>, defaultSort: Expression,
                       tieBreaker: Expression)
    requires size > 0 && UniqueColumn(rows, tieBreaker)
    requires |scans| == |pages| == PageCount(|rows|, size)
    requires forall k :: 0 <= k < |scans| ==> multiset(scans[k]) == multiset(rows)
    requires var orders := OrdersFor(orderBy, direction, sorts, defaultSort, tieBreaker);
             forall k :: 0 <= k < |pages| ==> pages[k] == Page(Answer(scans[k], orders), k + 1, size)
    ensures var orders := OrdersFor(orderBy, direction, sorts, defaultSort, tieBreaker);
            && multiset(Concat(pages)) == multiset(rows)
            && Sorted(Concat(pages), orders)
            && forall other: seq<Row> :: multiset(other) == multiset(rows) && Sorted(other, orders) ==>
               other == Concat(pages)
    ensures var all, c := Concat(pages), if orderBy in sorts then sorts[orderBy] else defaultSort;
            forall i, j :: 0 <= i < j < |all| ==>
              var a, b := all[i].ranks, all[j].ranks;
              && (c in a && c in b ==> if direction == "asc" then a[c] <= b[c] else a[c] >= b[c])
              && (if direction == "asc" then c in b ==> c in a else c in a ==> c in b)
              && (c in a && c in b && c != tieBreaker && a[c] == b[c] ==>
                  tieBreaker in a && tieBreaker in b && a[tieBreaker] < b[tieBreaker])
  {
    PagesAreSorted(rows, scans, pages, size, orderBy, direction, sorts, defaultSort, tieBreaker);
    hide Answer, Compare, OrdersFor, Page, Concat, PageCount;
    var all := Concat(pages);
    SameMembers(rows, all);
    forall i, j | 0 <= i < j < |all|
      ensures tieBreaker in all[i].ranks && tieBreaker in all[j].ranks
      ensures all[i].ranks[tieBreaker] != all[j].ranks[tieBreaker]
    {
      UniqueInAnyOrder(rows, all, tieBreaker, i, j);
    }
    forall i, j | 0 <= i < j < |all| {
      PairAsAsked(all[i], all[j], orderBy, direction, sorts, defaultSort, tieBreaker);
    }
  }

  lemma TwoPlacesCountTwice(rows: seq<Row>, i: nat, j: nat)
    requires i < j < |rows| && rows[i] == rows[j]
    ensures multiset(rows)[rows[i]] >= 2
  {
    assert rows == rows[..j] + [rows[j]] + rows[j + 1..];
    assert rows[i] == rows[..j][i];
    assert multiset(rows[..j])[rows[i]] >= 1;
  }

  lemma OnePlaceCountsOnce(rows: seq<Row>, x: nat)
    requires x < |rows| && forall k :: 0 <= k < |rows| && k != x ==> rows[k] != rows[x]
    ensures multiset(rows)[rows[x]] == 1
  {
    assert rows == rows[..x] + [rows[x]] + rows[x + 1..];
    assert rows[x] !in multiset(rows[..x]) && rows[x] !in multiset(rows[x + 1..]);
  }

  lemma UniqueInAnyOrder(rows: seq<Row>, all: seq<Row>, column: Expression, i: nat, j: nat)
    requires multiset(rows) == multiset(all) && UniqueColumn(rows, column) && i < j < |all|
    ensures column in all[i].ranks && column in all[j].ranks && all[i].ranks[column] != all[j].ranks[column]
  {
    SameMembers(rows, all);
    assert all[i] in rows && all[j] in rows;
    var x :| 0 <= x < |rows| && rows[x] == all[i];
    var y :| 0 <= y < |rows| && rows[y] == all[j];
    if x == y {
      TwoPlacesCountTwice(all, i, j);
      OnePlaceCountsOnce(rows, x);
    }
  }

  lemma PagesAreSorted(rows: seq<Row>, scans: seq<seq<Row>>, pages: seq<seq<Row>>, size: nat,
                       orderBy: string, direction: string, sorts: map<string, Expression>, defaultSort: Expression,
                       tieBreaker: Expression)
    requires size > 0 && UniqueColumn(rows, tieBreaker)
    requires |scans| == |pages| == PageCount(|rows|, size)
    requires forall k :: 0 <= k < |scans| ==> multiset(scans[k]) == multiset(rows)
    requires var orders := OrdersFor(orderBy, direction, sorts, defaultSort, tieBreaker);
             forall k :: 0 <= k < |pages| ==> pages[k] == Page(Answer(scans[k], orders), k + 1, size)
    ensures var orders := OrdersFor(orderBy, direction, sorts, defaultSort, tieBreaker);
            && multiset(Concat(pages)) == multiset(rows)
            && Sorted(Concat(pages), orders)
            && forall other: seq<Row> :: multiset(other) == multiset(rows) && Sorted(other, orders) ==>
               other == Concat(pages)
  {
    var orders := OrdersFor(orderBy, direction, sorts, defaultSort, tieBreaker);
    TieBreakerIsLast(orderBy, direction, sorts, defaultSort, tieBreaker);
    TieBreakerMakesTotal(rows, orders, orders[|orders| - 1]);
    var sorted := Answer(rows, orders);
    AnswerIsSorted(rows, orders);
    AnswersAgree(rows, rows, orders);
    forall k: nat | k < |pages| ensures pages[k] == Page(sorted, k + 1, size) {
      AnswersAgree(rows, scans[k], orders);
    }
    SameMembers(rows, sorted);
    PagesAreAPrefix(sorted, pages, size);
    PageCountCovers(|rows|, size);
    RowsIsProduct(|pages|, size);
  }

  lemma TieBreakerIsLast(orderBy: string, direction: string, sorts: map<string, Expression>, defaultSort: Expression,
                       tieBreaker: Expression)
    ensures var orders := OrdersFor(orderBy, direction, sorts, defaultSort, tieBreaker);
            orders[|orders| - 1].column == tieBreaker
  {
  }

  // What comparing as asked means for two rows: the column decides, rising for "asc" and
  // falling otherwise, NULLs last or first; the tie-breaker rises where it ties.
  lemma PairAsAsked(first: Row, second: Row, orderBy: string, direction: string, sorts: map<string, Expression>,
                    defaultSort: Expression, tieBreaker: Expression)
    requires Compare(first, second, OrdersFor(orderBy, direction, sorts, defaultSort, tieBreaker)) <= 0
    ensures var c := if orderBy in sorts then sorts[orderBy] else defaultSort;
            var a, b := first.ranks, second.ranks;
            && (c in a && c in b ==> if direction == "asc" then a[c] <= b[c] else a[c] >= b[c])
            && (if direction == "asc" then c in b ==> c in a else c in a ==> c in b)
            && (c != tieBreaker && (c in a <==> c in b) && (c in a ==> a[c] == b[c]) ==>
                && (tieBreaker in b ==> tieBreaker in a)
                && (tieBreaker in b ==> a[tieBreaker] <= b[tieBreaker]))
  {
    var orders := OrdersFor(orderBy, direction, sorts, defaultSort, tieBreaker);
    if |orders| == 2 {
      assert orders[1..] == [orders[1]] && orders[1..][1..] == [];
    }
  }

  lemma PageIsSorted(scan: seq<Row>, page: nat, size: nat, orders: seq<Order>)
    requires page >= 1
    ensures var list := Page(Answer(scan, orders), page, size);
            && (forall i, j :: 0 <= i < j < |list| ==> Compare(list[i], list[j], orders) <= 0)
            && forall row :: row in list ==> row in scan
  {
    hide Compare, Answer;
    var sorted := Answer(scan, orders);
    AnswerIsSorted(scan, orders);
    forall row | row in sorted ensures row in scan {
      assert row in multiset(sorted);
    }
  }

  lemma PairAnswer(a: Row, b: Row, orders: seq<Order>)
    requires Compare(a, b, orders) == 0
    ensures Answer([a, b], orders) == [a, b]
  {
    assert [a, b][1..] == [b] && [b][1..] == [];
    assert Answer([b], orders) == [b];
  }

  lemma PairPages(a: Row, b: Row, orders: seq<Order>)
    requires Compare(a, b, orders) == 0
    ensures Page(Answer([a, b], orders), 1, 1) == [a] && Page(Answer([a, b], orders), 2, 1) == [b]
  {
    hide Answer, Compare;
    PairAnswer(a, b, orders);
    assert Rows(0, 1) == 0 && Rows(1, 1) == 1;
  }

  lemma ConcatPair(x: seq<Row>, y: seq<Row>)
    ensures Concat([x, y]) == x + y
  {
    assert [x, y][..1] == [x] && [x][..0] == [];
    assert Concat([x]) == x;
  }

  // Any two different rows that tie can make one appear twice and the other never.
  lemma TiesRepeatRows(a: Row, b: Row, orders: seq<Order>)
    requires Compare(a, b, orders) == 0
    ensures Concat([Page(Answer([a, b], orders), 1, 1), Page(Answer([b, a], orders), 2, 1)]) == [a, a]
  {
    CompareIsAntisymmetric(a, b, orders);
    PairPages(a, b, orders);
    PairPages(b, a, orders);
    ConcatPair([a], [a]);
  }

  method RowsBefore(page: nat, size: nat) returns (offset: nat)
    requires page >= 1
    ensures offset == Rows(page - 1, size)
  {
    RowsIsProduct(page - 1, size);
    offset := (page - 1) * size;
  }

  // ----- the query builder the two operations work on -----

  function Matching(fold: char -> char, table: seq<Row>, wheres: seq<Bracket>): (r: seq<Row>)
    ensures forall row :: multiset(r)[row] == if WhereTruth(fold, row, wheres).True? then multiset(table)[row] else 0
  {
    if table == [] then []
    else
      assert table == [table[0]] + table[1..];
      (if WhereTruth(fold, table[0], wheres).True? then [table[0]] else []) + Matching(fold, table[1..], wheres)
  }

  lemma MatchingRows(fold: char -> char, table: seq<Row>, wheres: seq<Bracket>)
    ensures forall row :: row in Matching(fold, table, wheres) <==> row in table && WhereTruth(fold, row, wheres).True?
  {
    hide Matching;
    var matching := Matching(fold, table, wheres);
    forall row ensures row in matching <==> row in table && WhereTruth(fold, row, wheres).True? {
      assert row in matching <==> multiset(matching)[row] > 0;
      assert row in table <==> multiset(table)[row] > 0;
    }
  }

  class QueryBuilder {
    const fold: char -> char
    var wheres: seq<Bracket>
    var orders: seq<Order>
    var limit: Option<nat>
    var offset: nat

    constructor (fold: char -> char)
      ensures this.fold == fold && wheres == [] && orders == [] && limit == None && offset == 0
      ensures forall row: Row :: Admits(row)
    {
      this.fold, wheres, orders, limit, offset := fold, [], [], None, 0;
    }

    predicate Admits(row: Row)
      reads this
    {
      WhereTruth(fold, row, wheres).True?
    }

    // Afterwards the builder admits, of the rows it admitted, those in which some
    // expression contains the search; with nothing to search for, all of them.
    method ApplySearch(expressions: seq<Expression>, search: Option<string>)
      requires KeepsMetacharacters(fold)
      modifies this`wheres
      ensures search == None || search == Some("") || expressions == [] ==> wheres == old(wheres)
      ensures search != None && search != Some("") && expressions != [] ==>
                forall row: Row :: Admits(row) <==> old(Admits(row)) && Found(fold, row, expressions, search.value)
    {
      if search == None || search.value == "" || expressions == [] { return; }
      var alternatives: seq<Expression> := [];
      for i := 0 to |expressions|
        invariant alternatives == expressions[..i]
      {
        alternatives := alternatives + [expressions[i]];
      }
      wheres := wheres + [Bracket(alternatives, ContainsPattern(search.value))];
      assert alternatives == expressions;
      forall row: Row ensures Admits(row) <==> old(Admits(row)) && Found(fold, row, expressions, search.value) {
        BracketFindsSubstrings(fold, row, expressions, search.value);
        assert wheres[..|wheres| - 1] == old(wheres);
      }
    }

    // The statement as built, over the rows in the order the database meets them.
    function GetRawMany(scan: seq<Row>): seq<Row>
      reads this
    {
      var rows := Answer(Matching(fold, scan, wheres), orders);
      Slice(rows, offset, if limit.Some? then limit.value else |rows|)
    }

    // `counted` and `listed` are the table as the two statements meet it.
    method PaginateRaw(page: nat, size: nat, orderBy: string, direction: string, sorts: map<string, Expression>,
                       defaultSort: Expression, tieBreaker: Expression, counted: seq<Row>, listed: seq<Row>)
      returns (list: seq<Row>, count: nat)
      requires page >= 1
      modifies this`orders, this`limit, this`offset
      ensures count == |Matching(fold, counted, wheres)|
      ensures forall row :: row in list ==> row in listed && Admits(row)
      ensures var c := if orderBy in sorts then sorts[orderBy] else defaultSort;
              forall i, j :: 0 <= i < j < |list| ==>
                var a, b := list[i].ranks, list[j].ranks;
                && (c in a && c in b ==> if direction == "asc" then a[c] <= b[c] else a[c] >= b[c])
                && (if direction == "asc" then c in b ==> c in a else c in a ==> c in b)
                && (c != tieBreaker && (c in a <==> c in b) && (c in a ==> a[c] == b[c]) ==>
                    && (tieBreaker in b ==> tieBreaker in a)
                    && (tieBreaker in b ==> a[tieBreaker] <= b[tieBreaker]))
      ensures var asked := OrdersFor(orderBy, direction, sorts, defaultSort, tieBreaker);
              list == Page(Answer(Matching(fold, listed, wheres), asked), page, size)
    {
      count := |Matching(fold, counted, wheres)|;
      var sort := if orderBy in sorts then sorts[orderBy] else defaultSort;
      orders := [Order(sort, if direction == "asc" then Asc else Desc)];
      if sort != tieBreaker { orders := orders + [Order(tieBreaker, Asc)]; }
      limit := Some(size);
      assert orders == OrdersFor(orderBy, direction, sorts, defaultSort, tieBreaker);
      offset := RowsBefore(page, size);
      list := GetRawMany(listed);
      ghost var asked, matching := orders, Matching(fold, listed, wheres);
      assert list == Page(Answer(matching, asked), page, size);
      hide Answer, Compare, OrdersFor, Page, WhereTruth, Matching;
      MatchingRows(fold, listed, wheres);
      PageIsSorted(matching, page, size, asked);
      forall i, j | 0 <= i < j < |list| {
        PairAsAsked(list[i], list[j], orderBy, direction, sorts, defaultSort, tieBreaker);
      }
    }
  }
}

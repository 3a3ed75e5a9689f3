/**
 * Paging through public puzzles newest first (app/lib/paginatedPuzzles.ts).
 * For every query an index document keeps the list `p` of page-start
 * timestamps: page 1 starts at `p[0]`, page k at `p[k-1]`, and page 0 at
 * the current time. Whenever a page turns out to have a successor, the
 * successor's start is recorded in `p[page]`.
 *
 * The document store is the class IndexCollection (its index documents);
 * the puzzle query is the function `runQuery` and the clock is `now`.
 */
module Pagination {
  import opened Wrappers

  /** A Firestore timestamp, as a count of time units. */
  type Timestamp = int

  /** The value a query compares its field with: a string or a boolean. */
  datatype QueryValue = Text(s: string) | Flag(b: bool)

  /** The contents of an index document: valid with its page starts, or failing validation. */
  datatype IndexDoc = Malformed | Cursors(p: seq<Timestamp>)

  /** A query result: the puzzle's id and its `pvu` (publicly-visible-from) timestamp, if any. */
  datatype Row = Row(id: string, pvu: Option<Timestamp>)

  /** The optional `where(field, op, value)` clause of the query. */
  datatype Filter = Filter(field: string, op: string, value: Option<QueryValue>)

  /**
   * The query issued for a page: the optional filter, `pvu <= pvuAtMost`,
   * ordered by `pvu` descending, at most `limit` results.
   */
  datatype Query = Query(filter: Option<Filter>, pvuAtMost: Timestamp, limit: nat)

  /** The errors the function throws. */
  datatype PageError = MissingQueryValue(field: string) | InvalidIndex(key: string)

  /** The puzzles of the page and whether a next page exists. */
  datatype PageResult = PageResult(puzzles: seq<Row>, hasMore: bool)

  // ---------------------------------------------------------------------
  // The index document id
  // ---------------------------------------------------------------------

  /**
   * The decimal digits of `n`, as a JavaScript template literal prints a
   * non-negative integer below 10^21 (larger numbers print in exponent form).
   */
  function Decimal(n: nat): (r: string)
    ensures |r| >= 1
    ensures forall i :: 0 <= i < |r| ==> '0' <= r[i] <= '9'
    ensures n < 10 <==> |r| == 1
  {
    if n < 10 then [Digit(n)] else Decimal(n / 10) + [Digit(n % 10)]
  }

  function Digit(d: nat): (c: char)
    requires d < 10
    ensures '0' <= c <= '9'
  {
    ['0', '1', '2', '3', '4', '5', '6', '7', '8', '9'][d]
  }

  /** Distinct numbers print differently. */
  lemma {:induction false} DecimalInjective(a: nat, b: nat)
    ensures Decimal(a) == Decimal(b) ==> a == b
  {
    if Decimal(a) == Decimal(b) && a >= 10 && b >= 10 {
      var da, db := Decimal(a / 10), Decimal(b / 10);
      assert da == Decimal(a)[..|Decimal(a)| - 1];
      assert db == Decimal(b)[..|Decimal(b)| - 1];
      DecimalInjective(a / 10, b / 10);
      assert Digit(a % 10) == Decimal(a)[|Decimal(a)| - 1] == Digit(b % 10);
    }
  }

  /** The number a string of decimal digits denotes, most significant digit first. */
  function DigitsValue(s: string): nat
    requires forall i :: 0 <= i < |s| ==> '0' <= s[i] <= '9'
  {
    if s == [] then 0 else 10 * DigitsValue(s[..|s| - 1]) + (s[|s| - 1] as int - '0' as int)
  }

  /** The printed page size reads back as the page size: `Decimal` gives its digits, in order. */
  lemma {:induction false} DecimalValue(n: nat)
    ensures DigitsValue(Decimal(n)) == n
  {
    if n >= 10 {
      DecimalValue(n / 10);
      assert Decimal(n)[..|Decimal(n)| - 1] == Decimal(n / 10);
    }
  }

  /** Two strings of one length that differ, differ at some position. */
  lemma DifferAt(s: string, t: string) returns (i: nat)
    requires |s| == |t| && s != t
    ensures i < |s| && s[i] != t[i]
  {
    i :| 0 <= i < |s| && s[i] != t[i];
  }

  /** A query value as a template literal prints it; a missing value prints as `undefined`. */
  function Render(value: Option<QueryValue>): string
  {
    match value
    case None => "undefined"
    case Some(Text(s)) => s
    case Some(Flag(b)) => if b then "true" else "false"
  }

  /**
   * The id of the index document of a query: `<field>-<value>-<pageSize>`
   * when a field is given, `public-<pageSize>` otherwise, followed by
   * `-<op>` when the operator is not `==`.
   */
  function IndexKey(field: string, value: Option<QueryValue>, pageSize: nat, op: string): string
  {
    (if field != "" then field + "-" + Render(value) + "-" + Decimal(pageSize) else "public-" + Decimal(pageSize))
    + (if op != "==" then "-" + op else "")
  }

  /** The head and tail of every index key. */
  lemma IndexKeyShape(field: string, value: Option<QueryValue>, pageSize: nat, op: string)
    ensures field == "" ==> "public-" <= IndexKey(field, value, pageSize, op)
    ensures field != "" ==> field + "-" + Render(value) + "-" <= IndexKey(field, value, pageSize, op)
    ensures var key := IndexKey(field, value, pageSize, op);
            var tail := "-" + Decimal(pageSize) + (if op != "==" then "-" + op else "");
            |tail| <= |key| && key[|key| - |tail|..] == tail
  {
    var key := IndexKey(field, value, pageSize, op);
    var tail := "-" + Decimal(pageSize) + (if op != "==" then "-" + op else "");
    if field == "" {
      assert key == "public" + tail;
    } else {
      assert key == field + "-" + Render(value) + tail;
    }
  }

  /** Two page sizes of the same query keep their page starts in different documents. */
  lemma IndexKeySeparatesPageSizes(field: string, value: Option<QueryValue>, size1: nat, size2: nat, op: string)
    requires size1 != size2
    ensures IndexKey(field, value, size1, op) != IndexKey(field, value, size2, op)
  {
    var head := if field != "" then field + "-" + Render(value) + "-" else "public-";
    var tail := if op != "==" then "-" + op else "";
    var d1, d2 := Decimal(size1), Decimal(size2);
    var k1, k2 := IndexKey(field, value, size1, op), IndexKey(field, value, size2, op);
    assert k1 == head + d1 + tail;
    assert k2 == head + d2 + tail;
    DecimalInjective(size1, size2);
    if |d1| == |d2| {
      var i := DifferAt(d1, d2);
      assert k1[|head| + i] == d1[i];
      assert k2[|head| + i] == d2[i];
    } else {
      assert |k1| != |k2|;
    }
  }

  /** Two operators on the same field, value and page size keep their page starts in different documents. */
  lemma IndexKeySeparatesOperators(field: string, value: Option<QueryValue>, pageSize: nat, op1: string, op2: string)
    requires op1 != op2
    ensures IndexKey(field, value, pageSize, op1) != IndexKey(field, value, pageSize, op2)
  {
    var head := if field != "" then field + "-" + Render(value) + "-" + Decimal(pageSize) else "public-" + Decimal(pageSize);
    var k1, k2 := IndexKey(field, value, pageSize, op1), IndexKey(field, value, pageSize, op2);
    if op1 != "==" && op2 != "==" && |op1| == |op2| {
      assert k1 == head + "-" + op1;
      assert k2 == head + "-" + op2;
      var i := DifferAt(op1, op2);
      assert k1[|head| + 1 + i] == op1[i];
      assert k2[|head| + 1 + i] == op2[i];
    } else {
      assert |k1| != |k2|;
    }
  }

  // ---------------------------------------------------------------------
  // The steps of a page request
  // ---------------------------------------------------------------------

  /**
   * The page starts read from the index document: none yet when the
   * document is absent, an error when it fails validation.
   */
  function LoadIndex(docs: map<string, IndexDoc>, key: string): (r: Result<seq<Timestamp>, PageError>)
    ensures key !in docs ==> r == Success([])
    ensures key in docs ==> (r.Failure? <==> docs[key].Malformed?)
    ensures r.Failure? ==> r.error == InvalidIndex(key)
    ensures key in docs && r.Success? ==> docs[key] == Cursors(r.value)
  {
    if key !in docs then Success([])
    else
      match docs[key]
      case Malformed => Failure(InvalidIndex(key))
      case Cursors(p) => Success(p)
  }

  /**
   * Where a page starts: page 0 at the current time, page k > 0 at the
   * recorded `p[k-1]`, and nowhere when that entry was never recorded.
   * A page with a start never lies beyond the end of `p`.
   */
  function PageStart(p: seq<Timestamp>, page: nat, now: Timestamp): (r: Option<Timestamp>)
    ensures page == 0 ==> r == Some(now)
    ensures page > 0 ==> (r.Some? <==> page <= |p|)
    ensures page > 0 && r.Some? ==> r.value == p[page - 1]
    ensures r.Some? ==> page <= |p|
  {
    if page == 0 then Some(now)
    else if page - 1 < |p| then Some(p[page - 1])
    else None
  }

  /** The query for a page of `pageSize` starting at `start`: one result more than the page holds. */
  function BuildQuery(field: string, value: Option<QueryValue>, op: string, start: Timestamp, pageSize: nat): Query
  {
    Query(if field != "" then Some(Filter(field, op, value)) else None, start, pageSize + 1)
  }

  /** The first `n` rows, or all of them when there are fewer. */
  function Take(rows: seq<Row>, n: nat): (r: seq<Row>)
    ensures |r| == if |rows| < n then |rows| else n
    ensures r <= rows
  {
    if |rows| < n then rows else rows[..n]
  }

  /** A next page exists: the row after the page exists and has a `pvu`. A page with a successor is full. */
  function HasMore(results: seq<Row>, pageSize: nat): (r: bool)
    ensures r ==> |Take(results, pageSize)| == pageSize
  {
    pageSize < |results| && results[pageSize].pvu.Some?
  }

  /**
   * `p` with slot `page` set to `t`: an existing slot is overwritten, the
   * slot just past the end is appended; no other slot changes.
   */
  function SetSlot(p: seq<Timestamp>, page: nat, t: Timestamp): (r: seq<Timestamp>)
    requires page <= |p|
    ensures |r| == if page == |p| then |p| + 1 else |p|
    ensures r[page] == t
    ensures forall i :: 0 <= i < |p| && i != page ==> r[i] == p[i]
  {
    if page == |p| then p + [t] else p[page := t]
  }

  /** The results of a query in the order it promises: `pvu` present, at most `start`, descending. */
  predicate OrderedBelow(results: seq<Row>, start: Timestamp)
  {
    (forall i :: 0 <= i < |results| ==> results[i].pvu.Some? && results[i].pvu.value <= start) &&
    (forall i, j :: 0 <= i < j < |results| ==> results[j].pvu.value <= results[i].pvu.value)
  }

  /**
   * When the store answers the page's query as ordered, recording the next
   * start keeps this page where it was and makes page `page + 1` start at
   * the extra row's `pvu`, which is no later than this page's start and no
   * later than any puzzle shown on this page.
   */
  lemma NextStartBelowPage(p: seq<Timestamp>, page: nat, now: Timestamp, results: seq<Row>, pageSize: nat)
    requires PageStart(p, page, now).Some?
    requires OrderedBelow(results, PageStart(p, page, now).value)
    requires HasMore(results, pageSize)
    ensures var t := results[pageSize].pvu.value;
            var q := SetSlot(p, page, t);
            PageStart(q, page, now) == PageStart(p, page, now) &&
            PageStart(q, page + 1, now) == Some(t) &&
            t <= PageStart(p, page, now).value &&
            forall row :: row in Take(results, pageSize) ==> t <= row.pvu.value
  {
    var t := results[pageSize].pvu.value;
    forall row | row in Take(results, pageSize)
      ensures t <= row.pvu.value
    {
      var i :| 0 <= i < |Take(results, pageSize)| && Take(results, pageSize)[i] == row;
      assert results[i] == row;
    }
  }

  /** The index documents of the store, by id; a missing id is a missing document. */
  class IndexCollection {
    var docs: map<string, IndexDoc>

    constructor (initial: map<string, IndexDoc>)
      ensures docs == initial
    {
      docs := initial;
    }

    /**
     * paginatedPuzzles: the puzzles of page `page` and whether a next page
     * exists, recording the next page's start in the index document when
     * it does. Throws when a field is given without a value or when the
     * index document fails validation; an unknown page start yields an
     * empty last page and no write.
     */
    method PaginatedPuzzles(page: nat, pageSize: nat, field: string, value: Option<QueryValue>, op: string,
                            now: Timestamp, runQuery: Query -> seq<Row>)
      returns (r: Result<PageResult, PageError>)
      modifies this
      ensures field != "" && value.None? ==> r == Failure(MissingQueryValue(field)) && docs == old(docs)
      ensures !(field != "" && value.None?) ==>
                var key := IndexKey(field, value, pageSize, op);
                match LoadIndex(old(docs), key)
                case Failure(e) => r == Failure(e) && docs == old(docs)
                case Success(p) =>
                  match PageStart(p, page, now)
                  case None => r == Success(PageResult([], false)) && docs == old(docs)
                  case Some(start) =>
                    var results := runQuery(BuildQuery(field, value, op, start, pageSize));
                    r == Success(PageResult(Take(results, pageSize), HasMore(results, pageSize))) &&
                    docs == if HasMore(results, pageSize)
                            then old(docs)[key := Cursors(SetSlot(p, page, results[pageSize].pvu.value))]
                            else old(docs)
      ensures r.Success? ==> |r.value.puzzles| <= pageSize
      ensures docs != old(docs) ==> r.Success? && r.value.hasMore
    {
      if field != "" && value.None? {
        return Failure(MissingQueryValue(field));
      }
      var indexDocId := if field != "" then field + "-" + Render(value) + "-" + Decimal(pageSize)
                        else "public-" + Decimal(pageSize);
      if op != "==" {
        indexDocId := indexDocId + "-" + op;
      }
      assert indexDocId == IndexKey(field, value, pageSize, op);
      var index: seq<Timestamp>;
      if indexDocId in docs {
        match docs[indexDocId]
        case Malformed =>
          return Failure(InvalidIndex(indexDocId));
        case Cursors(p) =>
          index := p;
      } else {
        index := [];
      }
      var startTimestamp := now;
      if page != 0 {
        if page - 1 >= |index| {
          return Success(PageResult([], false));
        }
        startTimestamp := index[page - 1];
      }
      var q := Query(None, startTimestamp, pageSize + 1);
      if field != "" {
        q := q.(filter := Some(Filter(field, op, value)));
      }
      var results := runQuery(q);
      var hasMore := false;
      if pageSize < |results| && results[pageSize].pvu.Some? {
        hasMore := true;
        if page < |index| {
          index := index[page := results[pageSize].pvu.value];
        } else {
          index := index + [results[pageSize].pvu.value];
        }
        docs := docs[indexDocId := Cursors(index)];
      }
      r := Success(PageResult(if |results| < pageSize then results else results[..pageSize], hasMore));
    }
  }
}

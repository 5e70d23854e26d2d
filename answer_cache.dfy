/** The answer cache (`SQLDatabase`): an append-only table of
    (question, answer) rows, looked up with `question LIKE '%q%' LIMIT 1`. */
module AnswerCache {
  import opened Wrappers
  import opened Text
  import opened SqlLike
  import opened CallTrace

  /** One row of table `info`; the autoincrement id is its position. */
  datatype Row = Row(question: string, answer: string)

  /** The answer of the first row, in rowid order, whose question matches
      `%q%`, or None when no row matches. */
  function Lookup(rows: seq<Row>, q: string): (r: Option<string>)
    ensures r.None? <==> forall i :: 0 <= i < |rows| ==> !Matches(rows[i].question, q)
    ensures r.Some? ==> exists i :: 0 <= i < |rows| && IsFirstMatch(rows, q, i) && rows[i].answer == r.value
  {
    if rows == [] then None
    else if Matches(rows[0].question, q) then
      assert IsFirstMatch(rows, q, 0);
      Some(rows[0].answer)
    else
      var r := Lookup(rows[1..], q);
      assert forall i :: 1 <= i < |rows| ==> rows[i] == rows[1..][i - 1];
      assert r.Some? ==> exists i :: 0 <= i < |rows| && IsFirstMatch(rows, q, i) && rows[i].answer == r.value by {
        if r.Some? {
          var i :| 0 <= i < |rows[1..]| && IsFirstMatch(rows[1..], q, i) && rows[1..][i].answer == r.value;
          assert IsFirstMatch(rows, q, i + 1);
        }
      }
      r
  }

  /** Row `i` matches `%q%` and no earlier row does. */
  predicate IsFirstMatch(rows: seq<Row>, q: string, i: int) {
    0 <= i < |rows| && Matches(rows[i].question, q)
    && forall j :: 0 <= j < i ==> !Matches(rows[j].question, q)
  }

  /** Appending a row never changes a lookup that already hit: the cache is
      first-come, later rows only answer queries nothing earlier answered. */
  lemma {:induction false} InsertKeepsEarlierHits(rows: seq<Row>, row: Row, q: string)
    requires Lookup(rows, q).Some?
    ensures Lookup(rows + [row], q) == Lookup(rows, q)
  {
    var both := rows + [row];
    assert both[0] == rows[0];
    if !Matches(rows[0].question, q) {
      assert both[1..] == rows[1..] + [row];
      InsertKeepsEarlierHits(rows[1..], row, q);
    }
  }

  /** Appending any number of rows never changes a lookup that already hit. */
  lemma {:induction false} AppendKeepsEarlierHits(rows: seq<Row>, more: seq<Row>, q: string)
    requires Lookup(rows, q).Some?
    ensures Lookup(rows + more, q) == Lookup(rows, q)
  {
    var both := rows + more;
    assert both[0] == rows[0];
    if !Matches(rows[0].question, q) {
      assert both[1..] == rows[1..] + more;
      AppendKeepsEarlierHits(rows[1..], more, q);
    }
  }

  /** A lookup that missed before an insert hits the new row exactly when
      the new row matches. */
  lemma {:induction false} InsertAnswersMissedQuery(rows: seq<Row>, row: Row, q: string)
    requires Lookup(rows, q).None?
    ensures Lookup(rows + [row], q) == if Matches(row.question, q) then Some(row.answer) else None
  {
    var both := rows + [row];
    if rows == [] {
      assert both == [row];
    } else {
      assert both[0] == rows[0];
      assert both[1..] == rows[1..] + [row];
      InsertAnswersMissedQuery(rows[1..], row, q);
    }
  }

  /** Cache round trip: after `insert(q, a)` a lookup of `q` always hits,
      and it returns `a` when no earlier row matched `q`. */
  lemma LookupAfterInsert(rows: seq<Row>, q: string, a: string)
    ensures Lookup(rows + [Row(q, a)], q).Some?
    ensures Lookup(rows, q).None? ==> Lookup(rows + [Row(q, a)], q) == Some(a)
  {
    PatternMatchesItself(q, "");
    assert q + "" == q;
    PercentSkipsPrefix("", q, q + "%");
    assert "" + q == q;
    assert ContainsPattern(q) == "%" + (q + "%");
    if Lookup(rows, q).None? {
      InsertAnswersMissedQuery(rows, Row(q, a), q);
    } else {
      InsertKeepsEarlierHits(rows, Row(q, a), q);
    }
  }

  /** Fuzzy hit: any row whose question contains `q` makes the lookup hit. */
  lemma LookupHitsContainingQuestion(rows: seq<Row>, q: string, i: int)
    requires 0 <= i < |rows| && Contains(rows[i].question, q)
    ensures Lookup(rows, q).Some?
  {
    ContainsImpliesMatches(rows[i].question, q);
  }

  /** Storing ("capital of France", "Paris") answers a lookup of "France". */
  lemma FranceExample()
    ensures Lookup([Row("capital of France", "Paris")], "France") == Some("Paris")
  {
    var s := "capital of France";
    assert OccursAt(s, "France", 11);
    ContainsImpliesMatches(s, "France");
  }

  /** The table `info` of `data.db`. */
  class SqlDatabase {
    var rows: seq<Row>
    /** Where calls into the table are recorded. */
    const trace: CallLog

    /** Opens the store; `CREATE TABLE IF NOT EXISTS` keeps the rows a
        previous process left in the file. */
    constructor (stored: seq<Row>, trace: CallLog)
      ensures rows == stored && this.trace == trace
    {
      rows := stored;
      this.trace := trace;
    }

    /** `INSERT INTO info`, then commit. The storage engine may fail
        (`storageFault`), in which case the call raises and no row is added;
        otherwise exactly one row is appended and no earlier row changes. */
    method Insert(question: string, answer: string, storageFault: bool) returns (ok: bool)
      modifies this, trace
      ensures ok == !storageFault
      ensures rows == if ok then old(rows) + [Row(question, answer)] else old(rows)
      ensures trace.calls == old(trace.calls) + [CacheWrite(question, answer)]
    {
      trace.calls := trace.calls + [CacheWrite(question, answer)];
      ok := !storageFault;
      if ok {
        rows := rows + [Row(question, answer)];
      }
    }

    /** `SELECT answer FROM info WHERE question LIKE '%q%' LIMIT 1`. */
    method Query(question: string) returns (answer: Option<string>)
      modifies trace
      ensures answer == Lookup(rows, question)
      ensures answer.Some? <==> exists i :: 0 <= i < |rows| && Matches(rows[i].question, question)
      ensures trace.calls == old(trace.calls) + [CacheLookup(question)]
    {
      trace.calls := trace.calls + [CacheLookup(question)];
      answer := Lookup(rows, question);
    }
  }
}

/** The `messages` table: an append-only transcript whose ids come from an
    AUTOINCREMENT counter. Rows are kept in insertion order, which is also
    increasing id order; the counter is the largest id ever handed out and
    is never lowered, not even by a delete. */
module Transcript {
  import opened Types

  /** The rows, in insertion order, and the AUTOINCREMENT counter. */
  datatype Log = Log(rows: seq<Message>, lastId: nat)

  /** Ids are positive, strictly increasing in insertion order and never
      above the counter. */
  predicate Valid(l: Log) {
    && (forall m :: m in l.rows ==> 0 < m.id <= l.lastId)
    && IncreasingIds(l.rows)
  }

  /** No two rows share an id. */
  predicate DistinctIds(rows: seq<Message>) {
    forall i, j :: 0 <= i < j < |rows| ==> rows[i].id != rows[j].id
  }

  /** `saveMessage`: inserts one row with the next id and the given fields
      and returns it. Earlier rows are untouched and the new id exceeds every
      id already in the table. */
  function SaveMessage(l: Log, instanceId: string, turn: int, agent: Agent, content: string, now: string)
    : (r: (Log, Message))
    requires Valid(l)
    ensures r.1.instance_id == instanceId && r.1.turn == turn && r.1.agent == agent
    ensures r.1.content == content && r.1.created_at == now
    ensures r.0.rows == l.rows + [r.1]
    ensures forall m :: m in l.rows ==> m.id < r.1.id
    ensures r.0.lastId == r.1.id
    ensures Valid(r.0)
  {
    var id := l.lastId + 1;
    var m := Message(id, instanceId, turn, agent, content, now);
    (Log(l.rows + [m], id), m)
  }

  /** Ids strictly increase along `rows`. */
  predicate IncreasingIds(rows: seq<Message>) {
    forall i, j :: 0 <= i < j < |rows| ==> rows[i].id < rows[j].id
  }

  /** In a sequence with increasing ids, the head's id is below every later id. */
  lemma HeadBelowTail(rows: seq<Message>)
    requires |rows| > 0 && IncreasingIds(rows)
    ensures forall x :: x in rows[1..] ==> rows[0].id < x.id
  {
    forall x | x in rows[1..] ensures rows[0].id < x.id {
      var k :| 0 <= k < |rows[1..]| && rows[1..][k] == x;
      assert rows[k + 1] == x;
    }
  }

  /** Putting the head of an id-increasing sequence in front of an
      id-increasing selection of its tail keeps ids increasing. */
  lemma ConsIncreasing(rows: seq<Message>, rest: seq<Message>)
    requires |rows| > 0
    ensures IncreasingIds(rows) && IncreasingIds(rest) && (forall y :: y in rest ==> y in rows[1..]) ==>
            IncreasingIds([rows[0]] + rest)
  {
    if IncreasingIds(rows) && IncreasingIds(rest) && (forall y :: y in rest ==> y in rows[1..]) {
      HeadBelowTail(rows);
      var r := [rows[0]] + rest;
      forall i, j | 0 <= i < j < |r| ensures r[i].id < r[j].id {
        assert r[j] == rest[j - 1];
        assert rest[j - 1] in rows[1..];
        if i > 0 {
          assert r[i] == rest[i - 1];
        }
      }
    }
  }

  /** The rows satisfying `p`, in their table order. */
  function Filter(rows: seq<Message>, p: Message -> bool): (r: seq<Message>)
    ensures forall m :: m in r <==> m in rows && p(m)
    ensures |r| <= |rows|
    ensures IncreasingIds(rows) ==> IncreasingIds(r)
  {
    if |rows| == 0 then []
    else
      var rest := Filter(rows[1..], p);
      assert rows == [rows[0]] + rows[1..];
      if p(rows[0]) then
        ConsIncreasing(rows, rest);
        [rows[0]] + rest
      else rest
  }

  /** The rows of one instance, in their table order. */
  function RowsOf(rows: seq<Message>, instanceId: string): (r: seq<Message>)
    ensures forall m :: m in r <==> m in rows && m.instance_id == instanceId
    ensures IncreasingIds(rows) ==> IncreasingIds(r)
  {
    Filter(rows, (m: Message) => m.instance_id == instanceId)
  }

  /** `ORDER BY turn ASC, id ASC`. */
  predicate Before(a: Message, b: Message) {
    a.turn < b.turn || (a.turn == b.turn && a.id < b.id)
  }

  predicate SortedByTurn(rows: seq<Message>) {
    forall i, j :: 0 <= i < j < |rows| ==> Before(rows[i], rows[j])
  }

  /** In a sorted sequence the head comes before every later row. */
  lemma HeadBeforeTail(rows: seq<Message>)
    requires |rows| > 0 && SortedByTurn(rows)
    ensures forall x :: x in rows[1..] ==> Before(rows[0], x)
  {
    forall x | x in rows[1..] ensures Before(rows[0], x) {
      var k :| 0 <= k < |rows[1..]| && rows[1..][k] == x;
      assert rows[k + 1] == x;
    }
  }

  /** A row that comes before every row of a sorted sequence can lead it. */
  lemma ConsSorted(x: Message, rest: seq<Message>)
    requires SortedByTurn(rest) && forall y :: y in rest ==> Before(x, y)
    ensures SortedByTurn([x] + rest)
  {
    var r := [x] + rest;
    forall i, j | 0 <= i < j < |r| ensures Before(r[i], r[j]) {
      assert r[j] == rest[j - 1];
      if i > 0 {
        assert r[i] == rest[i - 1];
      }
    }
  }

  /** Inserts `m` into its place in a sorted sequence. */
  function Insert(sorted: seq<Message>, m: Message): (r: seq<Message>)
    requires SortedByTurn(sorted)
    requires forall x :: x in sorted ==> x.id != m.id
    ensures SortedByTurn(r)
    ensures multiset(r) == multiset(sorted) + multiset{m}
  {
    if |sorted| == 0 then [m]
    else if Before(m, sorted[0]) then
      HeadBeforeTail(sorted);
      assert sorted == [sorted[0]] + sorted[1..];
      assert forall y :: y in sorted ==> Before(m, y);
      ConsSorted(m, sorted);
      [m] + sorted
    else
      var head := sorted[0];
      var tail := sorted[1..];
      assert sorted == [head] + tail;
      var rest := Insert(tail, m);
      assert forall x :: x in rest ==> x in tail || x == m by {
        forall x | x in rest ensures x in tail || x == m {
          assert x in multiset(rest);
        }
      }
      HeadBeforeTail(sorted);
      assert Before(head, m);
      ConsSorted(head, rest);
      assert multiset([head] + rest) == multiset{head} + multiset(rest);
      [head] + rest
  }

  /** Sorts rows with distinct ids by turn, then id. */
  function SortRows(rows: seq<Message>): (r: seq<Message>)
    requires DistinctIds(rows)
    ensures SortedByTurn(r)
    ensures multiset(r) == multiset(rows)
  {
    if |rows| == 0 then []
    else
      var init := rows[..|rows| - 1];
      var last := rows[|rows| - 1];
      var sortedInit := SortRows(init);
      assert forall x :: x in sortedInit ==> x.id != last.id by {
        forall x | x in sortedInit ensures x.id != last.id {
          assert x in multiset(init);
          var k :| 0 <= k < |init| && init[k] == x;
        }
      }
      assert rows == init + [last];
      Insert(sortedInit, last)
  }

  /** `getMessages`: the instance's rows, ordered by turn and then id. */
  function GetMessages(l: Log, instanceId: string): (r: seq<Message>)
    requires Valid(l)
    ensures SortedByTurn(r)
    ensures multiset(r) == multiset(RowsOf(l.rows, instanceId))
    ensures forall m :: m in r <==> m in l.rows && m.instance_id == instanceId
  {
    var mine := RowsOf(l.rows, instanceId);
    var r := SortRows(mine);
    assert forall m :: m in r <==> m in mine by {
      forall m ensures m in r <==> m in mine {
        assert m in r <==> m in multiset(r);
      }
    }
    r
  }

  /** `deleteMessages`: drops the instance's rows; the counter stays. */
  function DeleteMessages(l: Log, instanceId: string): (r: Log)
    requires Valid(l)
    ensures forall m :: m in r.rows <==> m in l.rows && m.instance_id != instanceId
    ensures r.lastId == l.lastId
    ensures Valid(r)
  {
    Log(Keep(l.rows, instanceId), l.lastId)
  }

  /** The rows of every other instance, in their table order. */
  function Keep(rows: seq<Message>, instanceId: string): (r: seq<Message>)
    ensures forall m :: m in r <==> m in rows && m.instance_id != instanceId
    ensures IncreasingIds(rows) ==> IncreasingIds(r)
  {
    Filter(rows, (m: Message) => m.instance_id != instanceId)
  }

  /** Deleting one instance's transcript leaves every other instance's
      transcript exactly as it was, and leaves none for the deleted one. */
  lemma {:induction false} DeleteKeepsOthers(rows: seq<Message>, gone: string, other: string)
    requires gone != other
    ensures RowsOf(Keep(rows, gone), other) == RowsOf(rows, other)
    ensures RowsOf(Keep(rows, gone), gone) == []
  {
    if |rows| > 0 {
      DeleteKeepsOthers(rows[1..], gone, other);
      var rest := Keep(rows[1..], gone);
      if rows[0].instance_id != gone {
        assert Keep(rows, gone) == [rows[0]] + rest;
        assert ([rows[0]] + rest)[1..] == rest;
      }
    }
  }

  /** After a delete, reading the deleted instance gives nothing and reading
      any other instance gives what it gave before. */
  lemma GetAfterDelete(l: Log, gone: string, other: string)
    requires Valid(l) && gone != other
    ensures GetMessages(DeleteMessages(l, gone), gone) == []
    ensures GetMessages(DeleteMessages(l, gone), other) == GetMessages(l, other)
  {
    DeleteKeepsOthers(l.rows, gone, other);
  }

  /** A saved message is read back with its instance's transcript. */
  lemma SavedMessageIsRead(l: Log, instanceId: string, turn: int, agent: Agent, content: string, now: string)
    requires Valid(l)
    ensures var (l', m) := SaveMessage(l, instanceId, turn, agent, content, now);
      m in GetMessages(l', instanceId)
  {
  }
}

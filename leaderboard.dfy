/** What `top` reads from the backend: the balance rows sorted by descending balance, cut
    to one page by a limit and an offset; and the insertion-ordered map it collects them into. */
module Leaderboard {
  import opened Schema

  /** `k` is a row the backend may emit first: its balance is the largest. Among equal
      balances the model lets the smallest id go first; SQL leaves that order open, and
      `top`'s contract speaks of every ordering allowed by `IsRankingOf`, not of this one. */
  predicate IsLeader(m: map<int, Long>, k: int)
    requires k in m
  {
    && (forall j :: j in m ==> m[j] <= m[k])
    && (forall j :: j in m && m[j] == m[k] ==> k <= j)
  }

  /** Every non-empty table has a leader. */
  lemma {:induction false} LeaderExists(m: map<int, Long>)
    requires |m| > 0
    ensures exists k :: k in m && IsLeader(m, k)
    decreases |m|
  {
    assert (forall j :: j !in m) ==> m == map[];
    var x :| x in m;
    var rest := m - {x};
    assert forall j :: j in m ==> j == x || j in rest;
    if |rest| == 0 {
      assert IsLeader(m, x);
    } else {
      LeaderExists(rest);
      var y :| y in rest && IsLeader(rest, y);
      if m[x] > m[y] || (m[x] == m[y] && x < y) {
        assert IsLeader(m, x);
      } else {
        assert IsLeader(m, y);
      }
    }
  }

  /** Ids of a sequence of rows are pairwise distinct. */
  predicate DistinctIds(rows: seq<Row>) {
    forall i, j :: 0 <= i < j < |rows| ==> rows[i].0 != rows[j].0
  }

  /** Every row is a row of the table. */
  predicate RowsOf(rows: seq<Row>, m: map<int, Long>) {
    forall i :: 0 <= i < |rows| ==> rows[i].0 in m && m[rows[i].0] == rows[i].1
  }

  /** Balances never increase along the sequence. */
  predicate Descending(rows: seq<Row>) {
    forall i, j :: 0 <= i < j < |rows| ==> rows[i].1 >= rows[j].1
  }

  /** Every row of the table appears among the rows. */
  predicate Covers(rows: seq<Row>, m: map<int, Long>) {
    forall id :: id in m ==> exists i :: 0 <= i < |rows| && rows[i] == (id, m[id])
  }

  /** `rows` lists each row of the table exactly once with balances non-increasing: an order
      in which ORDER BY balance DESC may return the table. */
  predicate IsRankingOf(rows: seq<Row>, m: map<int, Long>) {
    |rows| == |m| && RowsOf(rows, m) && DistinctIds(rows) && Descending(rows) && Covers(rows, m)
  }

  /** The whole `balance` table in ORDER BY balance DESC order. */
  function Ranking(m: map<int, Long>): (r: seq<Row>)
    ensures IsRankingOf(r, m)
    decreases |m|
  {
    if |m| == 0 then []
    else
      LeaderExists(m);
      var k :| k in m && IsLeader(m, k);
      var tail := Ranking(m - {k});
      RankingCons(m, k, tail);
      [(k, m[k])] + tail
  }

  /** The leader followed by a ranking of the other rows is a ranking of the table. */
  lemma RankingCons(m: map<int, Long>, k: int, tail: seq<Row>)
    requires k in m && IsLeader(m, k)
    requires IsRankingOf(tail, m - {k})
    ensures IsRankingOf([(k, m[k])] + tail, m)
  {
    var rest := m - {k};
    var r := [(k, m[k])] + tail;
    assert |rest| == |m| - 1;
    assert RowsOf(r, m) by {
      forall i | 0 <= i < |r| ensures r[i].0 in m && m[r[i].0] == r[i].1 {
        if i > 0 { assert r[i] == tail[i - 1]; }
      }
    }
    assert DistinctIds(r) by {
      forall i, j | 0 <= i < j < |r| ensures r[i].0 != r[j].0 {
        assert r[j] == tail[j - 1];
        if i > 0 { assert r[i] == tail[i - 1]; }
      }
    }
    assert Descending(r) by {
      forall i, j | 0 <= i < j < |r| ensures r[i].1 >= r[j].1 {
        assert r[j] == tail[j - 1];
        if i > 0 { assert r[i] == tail[i - 1]; }
      }
    }
    assert Covers(r, m) by {
      forall id | id in m ensures exists i :: 0 <= i < |r| && r[i] == (id, m[id]) {
        if id == k {
          assert r[0] == (id, m[id]);
        } else {
          assert id in rest;
          var i :| 0 <= i < |tail| && tail[i] == (id, rest[id]);
          assert r[i + 1] == (id, m[id]);
        }
      }
    }
  }

  /** LIMIT `limit` OFFSET `offset` applied to an ordered result: the rows from position
      `offset` on, at most `limit` of them. */
  function Page(rows: seq<Row>, limit: nat, offset: nat): (r: seq<Row>)
    ensures |r| == (if offset >= |rows| then 0 else if offset + limit <= |rows| then limit else |rows| - offset)
    ensures forall j :: 0 <= j < |r| ==> r[j] == rows[offset + j]
  {
    if offset >= |rows| then []
    else if offset + limit <= |rows| then rows[offset..offset + limit]
    else rows[offset..]
  }

  /** A page of any ranking of the table, whatever order it gives tied balances: at most
      `limit` rows of the table, distinct, in non-increasing order; empty past the end; and
      every row it skipped ranks at least as high as every row it returns. */
  lemma PageOfRanking(m: map<int, Long>, all: seq<Row>, limit: nat, offset: nat)
    requires IsRankingOf(all, m)
    ensures var r := Page(all, limit, offset);
            && |r| <= limit
            && (offset >= |m| ==> r == [])
            && RowsOf(r, m) && DistinctIds(r) && Descending(r)
            && (forall i, j :: 0 <= i < offset && i < |m| && 0 <= j < |r| ==> all[i].1 >= r[j].1)
  {
    var r := Page(all, limit, offset);
    assert RowsOf(r, m) by {
      forall j | 0 <= j < |r| ensures r[j].0 in m && m[r[j].0] == r[j].1 {
        assert r[j] == all[offset + j];
      }
    }
    assert DistinctIds(r) by {
      forall i, j | 0 <= i < j < |r| ensures r[i].0 != r[j].0 {
        assert r[i] == all[offset + i] && r[j] == all[offset + j];
      }
    }
    assert Descending(r) by {
      forall i, j | 0 <= i < j < |r| ensures r[i].1 >= r[j].1 {
        assert r[i] == all[offset + i] && r[j] == all[offset + j];
      }
    }
    forall i, j | 0 <= i < offset && i < |m| && 0 <= j < |r| ensures all[i].1 >= r[j].1 {
      assert r[j] == all[offset + j];
    }
  }

  /** Java's LinkedHashMap.put on the insertion-ordered entries: an existing key keeps its
      place and takes the new value, a new key goes to the end. */
  function Put(entries: seq<Row>, id: int, b: Long): (r: seq<Row>)
    ensures |r| == |entries| || r == entries + [(id, b)]
  {
    if entries == [] then [(id, b)]
    else if entries[0].0 == id then [(id, b)] + entries[1..]
    else [entries[0]] + Put(entries[1..], id, b)
  }

  /** Putting a key that is not yet present appends it. */
  lemma {:induction false} PutFresh(entries: seq<Row>, id: int, b: Long)
    requires forall i :: 0 <= i < |entries| ==> entries[i].0 != id
    ensures Put(entries, id, b) == entries + [(id, b)]
  {
    if entries != [] {
      PutFresh(entries[1..], id, b);
      assert [entries[0]] + (entries[1..] + [(id, b)]) == entries + [(id, b)];
    }
  }

  /** Putting a key that is present replaces its value in place. */
  lemma {:induction false} PutExisting(entries: seq<Row>, k: nat, b: Long)
    requires k < |entries| && DistinctIds(entries)
    ensures Put(entries, entries[k].0, b) == entries[k := (entries[k].0, b)]
  {
    if k > 0 {
      PutExisting(entries[1..], k - 1, b);
      assert [entries[0]] + entries[1..][k - 1 := (entries[k].0, b)] == entries[k := (entries[k].0, b)];
    }
  }

  /** The balances {1: 300, 2: 100, 3: 200}. */
  function ExampleTable(): (m: map<int, Long>)
    ensures m.Keys == {1, 2, 3} && |m| == 3
  {
    var m := map[1 := 300, 2 := 100, 3 := 200];
    assert m.Keys == {1, 2, 3};
    m
  }

  /** With distinct balances the order is fully determined: ids 1, 3, 2. */
  lemma ExampleRanking(r: seq<Row>)
    requires IsRankingOf(r, ExampleTable())
    ensures r == [(1, 300), (3, 200), (2, 100)]
  {
    var m := ExampleTable();
    assert forall i :: 0 <= i < 3 ==> r[i] == (1, 300) || r[i] == (2, 100) || r[i] == (3, 200) by {
      forall i | 0 <= i < 3 ensures r[i] == (1, 300) || r[i] == (2, 100) || r[i] == (3, 200) {
        assert r[i].0 in m.Keys;
      }
    }
    assert r[0] == (1, 300) && r[1] == (3, 200) && r[2] == (2, 100);
  }

  /** Over {1: 300, 2: 100, 3: 200}: the first page of two is ids 1 and 3, the page of two
      from offset 2 is id 2, and a page from offset 10 is empty. */
  lemma PageExample(rk: seq<Row>)
    requires IsRankingOf(rk, ExampleTable())
    ensures Page(rk, 2, 0) == [(1, 300), (3, 200)]
    ensures Page(rk, 2, 2) == [(2, 100)]
    ensures Page(rk, 5, 10) == []
  {
    ExampleRanking(rk);
  }
}

/** The grounded-focus table of one conversation (persistence/repository.py): upsert, prune, expire and load. */
module Focuses {
  import opened Prelude
  import Clarification

  const MAX_FOCUSES: nat := 5
  const TTL_USER_TURNS: int := 5

  datatype Citation = Citation(
    unitId: string,
    ordinal: nat,
    labelText: string,
    documentId: string,
    articleId: Option<string>,
    clauseId: Option<string>,
    metadata: Clarification.Fields)

  datatype Upsert = Upsert(
    nodeId: string,
    nodeType: Clarification.UnitType,
    labelText: string,
    documentId: string,
    citationOrder: nat,
    articleId: Option<string>,
    clauseId: Option<string>,
    metadata: Clarification.Fields)

  datatype Row = Row(data: Upsert, lastTurn: int)

  predicate Present(value: Option<string>) {
    value.Some? && value.value != ""
  }

  /** `focus_upserts_from_citations`: one focus per citation, on its most specific unit. */
  function FromCitation(c: Citation): Upsert {
    Upsert(
      if Present(c.clauseId) then c.clauseId.value
      else if Present(c.articleId) then c.articleId.value
      else c.documentId,
      if Present(c.clauseId) then Clarification.Clause
      else if Present(c.articleId) then Clarification.Article
      else Clarification.Document,
      c.labelText, c.documentId, c.ordinal, c.articleId, c.clauseId, c.metadata)
  }

  function FromCitations(cs: seq<Citation>): seq<Upsert> {
    seq(|cs|, i requires 0 <= i < |cs| => FromCitation(cs[i]))
  }

  // -- order ------------------------------------------------------------------

  /** ORDER BY last_grounded_user_turn_no DESC, citation_order ASC, node_id ASC. */
  predicate Before(a: Row, b: Row) {
    || a.lastTurn > b.lastTurn
    || (a.lastTurn == b.lastTurn && a.data.citationOrder < b.data.citationOrder)
    || (a.lastTurn == b.lastTurn && a.data.citationOrder == b.data.citationOrder
        && StringLe(a.data.nodeId, b.data.nodeId))
  }

  lemma BeforeIsTotal()
    ensures TotalPreorder(Before)
  {
    forall a, b ensures Before(a, b) || Before(b, a) {
      StringLeTotal(a.data.nodeId, b.data.nodeId);
    }
    forall a, b, c | Before(a, b) && Before(b, c) ensures Before(a, c) {
      if StringLe(a.data.nodeId, b.data.nodeId) && StringLe(b.data.nodeId, c.data.nodeId) {
        StringLeTransitive(a.data.nodeId, b.data.nodeId, c.data.nodeId);
      }
    }
  }

  // -- upsert -------------------------------------------------------------------

  ghost predicate Keyed(rows: seq<Row>) {
    forall i, j | 0 <= i < j < |rows| :: rows[i].data.nodeId != rows[j].data.nodeId
  }

  predicate Has(rows: seq<Row>, nodeId: string) {
    exists i | 0 <= i < |rows| :: rows[i].data.nodeId == nodeId
  }

  /** INSERT ... ON CONFLICT (conversation_id, node_id) DO UPDATE. */
  function UpsertOne(rows: seq<Row>, u: Upsert, turn: int): (r: seq<Row>)
    ensures Keyed(rows) ==> Keyed(r)
  {
    if Has(rows, u.nodeId) then
      seq(|rows|, i requires 0 <= i < |rows| => if rows[i].data.nodeId == u.nodeId then Row(u, turn) else rows[i])
    else
      rows + [Row(u, turn)]
  }

  function UpsertAll(rows: seq<Row>, us: seq<Upsert>, turn: int): (r: seq<Row>)
    ensures Keyed(rows) ==> Keyed(r)
  {
    if us == [] then rows
    else UpsertOne(UpsertAll(rows, us[..|us| - 1], turn), us[|us| - 1], turn)
  }

  predicate Touches(us: seq<Upsert>, nodeId: string) {
    exists i | 0 <= i < |us| :: us[i].nodeId == nodeId
  }

  ghost predicate LastFor(us: seq<Upsert>, u: Upsert) {
    exists i | 0 <= i < |us| :: us[i] == u && forall j | i < j < |us| :: us[j].nodeId != u.nodeId
  }

  /** The table after an upsert is the old one overridden, node by node, by the last upsert for that node. */
  lemma {:induction false} UpsertOverrides(rows: seq<Row>, us: seq<Upsert>, turn: int, row: Row)
    requires Keyed(rows)
    ensures row in UpsertAll(rows, us, turn) <==>
              if Touches(us, row.data.nodeId) then row.lastTurn == turn && LastFor(us, row.data) else row in rows
  {
    if us != [] {
      var init, u := us[..|us| - 1], us[|us| - 1];
      UpsertOverrides(rows, init, turn, row);
      UpsertOneMembers(UpsertAll(rows, init, turn), u, turn, row);
      assert us == init + [u];
      if row.data.nodeId == u.nodeId {
        LastForLast(init, u, row.data);
      } else {
        TouchesExtends(init, u, row.data.nodeId);
        LastForExtends(init, u, row.data);
      }
    }
  }

  lemma LastForLast(init: seq<Upsert>, u: Upsert, d: Upsert)
    requires u.nodeId == d.nodeId
    ensures Touches(init + [u], d.nodeId) && (LastFor(init + [u], d) <==> d == u)
  {
    assert (init + [u])[|init|] == u;
  }

  lemma TouchesExtends(init: seq<Upsert>, u: Upsert, nodeId: string)
    requires u.nodeId != nodeId
    ensures Touches(init + [u], nodeId) <==> Touches(init, nodeId)
  {
    forall i | 0 <= i < |init| ensures (init + [u])[i] == init[i] {}
  }

  lemma LastForExtends(init: seq<Upsert>, u: Upsert, d: Upsert)
    requires u.nodeId != d.nodeId
    ensures LastFor(init + [u], d) <==> LastFor(init, d)
  {
    var us := init + [u];
    if LastFor(us, d) {
      var i :| 0 <= i < |us| && us[i] == d && forall j | i < j < |us| :: us[j].nodeId != d.nodeId;
      assert init[i] == d;
      forall j | i < j < |init| ensures init[j].nodeId != d.nodeId { assert us[j] == init[j]; }
    }
    if LastFor(init, d) {
      var i :| 0 <= i < |init| && init[i] == d && forall j | i < j < |init| :: init[j].nodeId != d.nodeId;
      assert us[i] == d;
    }
  }

  lemma UpsertOneMembers(rows: seq<Row>, u: Upsert, turn: int, row: Row)
    ensures row in UpsertOne(rows, u, turn) <==>
              if row.data.nodeId == u.nodeId then row == Row(u, turn) else row in rows
  {
    var r := UpsertOne(rows, u, turn);
    if Has(rows, u.nodeId) {
      var k :| 0 <= k < |rows| && rows[k].data.nodeId == u.nodeId;
      assert r[k] == Row(u, turn);
      if row in rows && row.data.nodeId != u.nodeId {
        var i :| 0 <= i < |rows| && rows[i] == row;
        assert r[i] == row;
      }
    } else {
      assert r[|rows|] == Row(u, turn);
      if row in rows {
        var i :| 0 <= i < |rows| && rows[i] == row;
        assert r[i] == row;
      }
    }
  }

  // -- prune, expire, load ------------------------------------------------------

  function Ordered(rows: seq<Row>): seq<Row> {
    SortBy(rows, Before)
  }

  function Without(rows: seq<Row>, dropped: seq<Row>): (r: seq<Row>)
    ensures forall x :: x in r <==> x in rows && x !in dropped
    ensures Keyed(rows) ==> Keyed(r)
  {
    if rows == [] then []
    else
      var rest := Without(rows[..|rows| - 1], dropped);
      var last := rows[|rows| - 1];
      assert rows == rows[..|rows| - 1] + [last];
      assert Keyed(rows) ==> forall i | 0 <= i < |rest| :: rest[i] in rows[..|rows| - 1];
      if last in dropped then rest else rest + [last]
  }

  /** DELETE of the rows that the ordered query returns after the first five. */
  function Prune(rows: seq<Row>): seq<Row> {
    if |rows| <= MAX_FOCUSES then rows else Without(rows, Ordered(rows)[MAX_FOCUSES..])
  }

  /** Rows whose last grounding is at most five user turns old survive the load. */
  function Expire(rows: seq<Row>, currentTurn: int): (r: seq<Row>)
    ensures forall x :: x in r <==> x in rows && currentTurn - x.lastTurn <= TTL_USER_TURNS
    ensures Keyed(rows) ==> Keyed(r)
    ensures |r| <= |rows|
  {
    if rows == [] then []
    else
      var rest := Expire(rows[..|rows| - 1], currentTurn);
      var last := rows[|rows| - 1];
      assert rows == rows[..|rows| - 1] + [last];
      if currentTurn - last.lastTurn > TTL_USER_TURNS then rest else rest + [last]
  }

  /** The ordered SELECT ... LIMIT 5 that follows the expiry. */
  function Load(rows: seq<Row>): seq<Row> {
    if |rows| <= MAX_FOCUSES then Ordered(rows) else Ordered(rows)[..MAX_FOCUSES]
  }

  lemma KeyedNoDup(rows: seq<Row>)
    requires Keyed(rows)
    ensures NoDup(rows)
  {}

  /** Two sequences without repeats and with the same members have the same length. */
  lemma SameMembersSameLength(a: seq<Row>, b: seq<Row>)
    requires NoDup(a) && NoDup(b) && forall x :: x in a <==> x in b
    ensures |a| == |b|
  {
    NoDupMultiset(a);
    NoDupMultiset(b);
    forall x ensures multiset(a)[x] == multiset(b)[x] {
      assert x in multiset(a) <==> x in a;
      assert x in multiset(b) <==> x in b;
    }
    assert multiset(a) == multiset(b);
    assert |multiset(a)| == |a| && |multiset(b)| == |b|;
  }

  /** What is left after pruning is the five best rows: at most five, and each precedes every dropped one. */
  lemma PruneKeepsTopFive(rows: seq<Row>)
    requires Keyed(rows)
    ensures var kept := Prune(rows);
      && Keyed(kept)
      && |kept| == (if |rows| < MAX_FOCUSES then |rows| else MAX_FOCUSES)
      && (forall x | x in kept :: x in rows)
      && (forall k, d | k in kept && d in rows && d !in kept :: Before(k, d) && !Before(d, k))
  {
    var sorted := Ordered(rows);
    var kept := Prune(rows);
    BeforeIsTotal();
    SortBySorted(rows, Before);
    SortByMembers(rows, Before);
    KeyedNoDup(rows);
    SortByNoDup(rows, Before);
    if |rows| > MAX_FOCUSES {
      var best, rest := sorted[..MAX_FOCUSES], sorted[MAX_FOCUSES..];
      forall x ensures x in kept <==> x in best {
        assert sorted == best + rest;
        if x in best {
          var i :| 0 <= i < |best| && best[i] == x;
          forall j | 0 <= j < |rest| ensures rest[j] != x { assert sorted[i] != sorted[MAX_FOCUSES + j]; }
        }
      }
      assert NoDup(best) by {
        forall i, j | 0 <= i < j < |best| ensures best[i] != best[j] { assert sorted[i] != sorted[j]; }
      }
      KeyedNoDup(kept);
      SameMembersSameLength(kept, best);
      forall k, d | k in kept && d in rows && d !in kept ensures Before(k, d) && !Before(d, k) {
        var i :| 0 <= i < |best| && best[i] == k;
        assert d in rest;
        var j :| 0 <= j < |rest| && rest[j] == d;
        assert sorted[i] == k && sorted[MAX_FOCUSES + j] == d;
        StringLeTotal(k.data.nodeId, d.data.nodeId);
        var a :| 0 <= a < |rows| && rows[a] == k;
        var b :| 0 <= b < |rows| && rows[b] == d;
        assert k.data.nodeId != d.data.nodeId;
      }
    }
  }

  /** The old table overridden by the upserts: the last upsert for a node wins, other nodes keep their row. */
  ghost predicate Overridden(rows: seq<Row>, us: seq<Upsert>, turn: int, row: Row) {
    if Touches(us, row.data.nodeId) then row.lastTurn == turn && LastFor(us, row.data) else row in rows
  }

  /**
    What an answer's commit leaves in the table: at most five focuses, all of them rows of the overridden table, and a
    row of that table is left out only if five better ones are kept.
   */
  lemma CommitKeepsTopFive(rows: seq<Row>, us: seq<Upsert>, turn: int)
    requires Keyed(rows)
    ensures var kept := Prune(UpsertAll(rows, us, turn));
      && Keyed(kept) && |kept| <= MAX_FOCUSES
      && (forall k | k in kept :: Overridden(rows, us, turn, k))
      && (forall d | Overridden(rows, us, turn, d) && d !in kept ::
            |kept| == MAX_FOCUSES && forall k | k in kept :: Before(k, d) && !Before(d, k))
  {
    var table := UpsertAll(rows, us, turn);
    PruneKeepsTopFive(table);
    forall row ensures row in table <==> Overridden(rows, us, turn, row) {
      UpsertOverrides(rows, us, turn, row);
    }
  }

  /** On a pruned table the LIMIT never drops a row: the load returns exactly the unexpired rows, in order. */
  lemma LoadIsExact(rows: seq<Row>, currentTurn: int)
    requires Keyed(rows) && |rows| <= MAX_FOCUSES
    ensures var loaded := Load(Expire(rows, currentTurn));
      && SortedBy(loaded, Before) && Keyed(loaded)
      && (forall x :: x in loaded <==> x in rows && currentTurn - x.lastTurn <= TTL_USER_TURNS)
  {
    var live := Expire(rows, currentTurn);
    BeforeIsTotal();
    SortBySorted(live, Before);
    SortByMembers(live, Before);
    KeyedNoDup(live);
    SortByNoDup(live, Before);
    var loaded := Load(live);
    forall i, j | 0 <= i < j < |loaded| ensures loaded[i].data.nodeId != loaded[j].data.nodeId {
      assert loaded[i] in live && loaded[j] in live && loaded[i] != loaded[j];
    }
  }
}

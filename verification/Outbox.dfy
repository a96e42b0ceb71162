/** Executions and outbox rows are in bijection, and each row describes its execution. */
module Outbox {
  import opened Rows
  import opened Transactions
  import opened Lineage

  predicate Describes(row: OutboxRow, x: Execution) {
    row.subject == x.kind && row.monitor == x.monitor && row.revision == x.revision
  }

  predicate RowLaw(xs: Executions, rows: seq<OutboxRow>, i: nat) {
    i < |rows| ==> rows[i].execution in xs && Describes(rows[i], xs[rows[i].execution])
  }

  predicate OnceLaw(rows: seq<OutboxRow>, i: nat, j: nat) {
    i < |rows| && j < |rows| && rows[i].execution == rows[j].execution ==> i == j
  }

  ghost predicate Announced(rows: seq<OutboxRow>, e: Id) {
    exists i: nat :: i < |rows| && rows[i].execution == e
  }

  ghost predicate AnnouncedLaw(xs: Executions, rows: seq<OutboxRow>, e: Id) {
    e in xs ==> Announced(rows, e)
  }

  ghost predicate OutboxInv(xs: Executions, rows: seq<OutboxRow>) {
    && (forall i :: RowLaw(xs, rows, i))
    && (forall i, j :: OnceLaw(rows, i, j))
    && (forall e :: AnnouncedLaw(xs, rows, e))
  }

  lemma ProgressKeepsOutbox(xs: Executions, e: Id, y: Execution, rows: seq<OutboxRow>)
    requires OutboxInv(xs, rows) && e in xs && Progressed(xs[e], y)
    ensures OutboxInv(xs[e := y], rows)
  {
    var ys := xs[e := y];
    forall i ensures RowLaw(ys, rows, i) {
      assert RowLaw(xs, rows, i);
    }
    forall d ensures AnnouncedLaw(ys, rows, d) {
      assert AnnouncedLaw(xs, rows, d);
    }
  }

  lemma InsertKeepsOutbox(xs: Executions, e: Id, x: Execution, rows: seq<OutboxRow>, row: OutboxRow)
    requires OutboxInv(xs, rows) && e !in xs && row.execution == e && Describes(row, x)
    ensures OutboxInv(xs[e := x], rows + [row])
  {
    var ys, more := xs[e := x], rows + [row];
    forall i ensures RowLaw(ys, more, i) {
      assert RowLaw(xs, rows, i);
    }
    forall i, j ensures OnceLaw(more, i, j) {
      assert OnceLaw(rows, i, j) && RowLaw(xs, rows, i) && RowLaw(xs, rows, j);
    }
    forall d ensures AnnouncedLaw(ys, more, d) {
      assert AnnouncedLaw(xs, rows, d);
      assert more[|rows|].execution == e;
      if d in xs {
        var i: nat :| i < |rows| && rows[i].execution == d;
        assert more[i].execution == d;
      }
    }
  }

  lemma MarkKeepsOutbox(db: Db, marked: set<nat>)
    requires OutboxInv(db.executions, db.outbox)
    ensures OutboxInv(db.executions, MarkPublished(db, marked).outbox)
  {
    var rows, more := db.outbox, MarkPublished(db, marked).outbox;
    forall i ensures RowLaw(db.executions, more, i) {
      assert RowLaw(db.executions, rows, i);
    }
    forall i, j ensures OnceLaw(more, i, j) {
      assert OnceLaw(rows, i, j);
    }
    forall d ensures AnnouncedLaw(db.executions, more, d) {
      assert AnnouncedLaw(db.executions, rows, d);
      if d in db.executions {
        var i: nat :| i < |rows| && rows[i].execution == d;
        assert more[i].execution == d;
      }
    }
  }
}

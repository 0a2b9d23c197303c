/**
 The owner of the run rows, as the delivery loop sees it: an ordered list of rows still
 pending, and three calls that may fail. A failed write may or may not have been applied.
*/
module DeliveryOwner {
  import opened Basics

  type RunId = string

  datatype Kind = Cron | Background

  datatype Row = Row(id: RunId, kind: Kind, producer: Option<string>, chat: Option<int>, readable: bool, forced: bool)

  // The delivery status that makes a row terminal.
  datatype Status = Delivered | NoTarget | Denied | Failed | Overtaken

  // How a write to the owner ends.
  datatype Ack = Acked | Lost(applied: bool)

  const PENDING_FETCH_BATCH_SIZE: nat := 25
  const OWNER_FETCH_MAX: nat := 100

  ghost predicate Distinct(rows: seq<Row>) {
    forall i, j :: 0 <= i < j < |rows| ==> rows[i].id != rows[j].id
  }

  function Ids(rows: seq<Row>): set<RunId> {
    set r | r in rows :: r.id
  }

  // The rows left when the owner takes `gone` out of the pending list.
  function Keep(rows: seq<Row>, gone: set<RunId>): (kept: seq<Row>)
    ensures forall r :: r in kept <==> r in rows && r.id !in gone
    ensures |kept| <= |rows|
  {
    if rows == [] then []
    else if rows[0].id in gone then Keep(rows[1..], gone)
    else [rows[0]] + Keep(rows[1..], gone)
  }

  // The owner's table: the pending rows in order, and the statuses of the finished ones.
  datatype Table = Table(pending: seq<Row>, outcomes: map<RunId, Status>)

  function Retire(t: Table, gone: set<RunId>, status: Status): Table {
    Table(Keep(t.pending, gone), t.outcomes + (map id | id in gone :: status))
  }

  function MarkedTable(t: Table, id: RunId, status: Status, ack: Ack): Table {
    if ack == Lost(false) then t else Retire(t, {id}, status)
  }

  predicate SameJob(r: Row, producer: string) {
    r.kind.Cron? && r.producer == Some(producer)
  }

  // Rows are listed by finishing time, so the newest row of a job is its last.
  function NewestOf(rows: seq<Row>, producer: string): (newest: Option<Row>)
    ensures newest.Some? ==> newest.value in rows && SameJob(newest.value, producer)
    ensures newest.None? ==> forall r :: r in rows ==> !SameJob(r, producer)
  {
    if rows == [] then None
    else
      var last := |rows| - 1;
      if SameJob(rows[last], producer) then Some(rows[last]) else NewestOf(rows[..last], producer)
  }

  function Superseded(rows: seq<Row>, producer: string, winner: RunId): set<RunId> {
    set r | r in rows && SameJob(r, producer) && r.id != winner :: r.id
  }

  // The winning row as the owner reports it: forced when any row of its group is.
  function Candidate(rows: seq<Row>, producer: string, winner: Row): Row {
    winner.(forced := exists r :: r in rows && SameJob(r, producer) && r.forced)
  }

  // The row count the owner serves for a given request: `limit as u32`, then clamped.
  function Window(inMemory: nat): (n: nat)
    ensures 1 <= n <= OWNER_FETCH_MAX
  {
    Min(OWNER_FETCH_MAX, Max(1, Max(PENDING_FETCH_BATCH_SIZE, inMemory + 1) % 0x1_0000_0000))
  }

  lemma KeepDistinct(rows: seq<Row>, gone: set<RunId>)
    requires Distinct(rows)
    ensures Distinct(Keep(rows, gone))
  {
    if rows != [] {
      KeepDistinct(rows[1..], gone);
      var rest := Keep(rows[1..], gone);
      forall i | 0 <= i < |rest| ensures rest[i].id != rows[0].id {
        assert rest[i] in rows[1..];
      }
    }
  }

  lemma KeepIds(rows: seq<Row>, gone: set<RunId>)
    ensures Ids(Keep(rows, gone)) == Ids(rows) - gone
  {
    var kept := Keep(rows, gone);
    forall id ensures id in Ids(kept) <==> id in Ids(rows) - gone {
      if id in Ids(rows) - gone {
        var r :| r in rows && r.id == id;
        assert r in kept;
      }
    }
  }

  class Owner {
    var table: Table

    constructor (rows: seq<Row>)
      ensures table == Table(rows, map[])
    {
      table := Table(rows, map[]);
    }

    // New results finish while the loop runs.
    method Arrive(rows: seq<Row>)
      modifies this
      ensures table == old(table).(pending := old(table).pending + rows)
    {
      table := table.(pending := table.pending + rows);
    }

    method FetchPending(inMemory: nat) returns (rows: seq<Row>)
      ensures rows == table.pending[..Min(Window(inMemory), |table.pending|)]
      ensures rows <= table.pending && |rows| <= OWNER_FETCH_MAX
      ensures inMemory < OWNER_FETCH_MAX ==>
        |rows| == Min(|table.pending|, Max(PENDING_FETCH_BATCH_SIZE, inMemory + 1))
    {
      rows := table.pending[..Min(Window(inMemory), |table.pending|)];
    }

    method MarkOutcome(id: RunId, status: Status, ack: Ack) returns (ok: bool)
      modifies this
      ensures ok == ack.Acked?
      ensures table == MarkedTable(old(table), id, status, ack)
    {
      if ack != Lost(false) {
        table := Retire(table, {id}, status);
      }
      ok := ack.Acked?;
    }

    method DeduplicateJob(producer: string, ack: Ack) returns (ok: bool, candidate: Option<Row>)
      modifies this
      ensures ok == ack.Acked?
      ensures var newest := NewestOf(old(table).pending, producer);
              && candidate == (if !ok || newest.None? then None
                               else Some(Candidate(old(table).pending, producer, newest.value)))
              && table == if ack == Lost(false) || newest.None? then old(table)
                          else Retire(old(table), Superseded(old(table).pending, producer, newest.value.id), Overtaken)
    {
      var newest := NewestOf(table.pending, producer);
      candidate := None;
      ok := ack.Acked?;
      if newest.Some? {
        if ok { candidate := Some(Candidate(table.pending, producer, newest.value)); }
        if ack != Lost(false) {
          table := Retire(table, Superseded(table.pending, producer, newest.value.id), Overtaken);
        }
      }
    }
  }
}

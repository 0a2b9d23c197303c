/**
 The batched fetch (`fetch_next_pending`): ask for enough rows that one of them cannot be
 a row already delivered in memory, and re-mark the delivered ones on the way.
*/
module DeliveryFetch {
  import opened Basics
  import opened DeliveryOwner

  datatype Scan = Found(row: Row) | Exhausted | OwnerFailed

  datatype Swept = Swept(result: Scan, gone: set<RunId>)

  function AckAt(acks: seq<Ack>): Ack {
    if acks == [] then Acked else acks[0]
  }

  function Rest(acks: seq<Ack>): seq<Ack> {
    if acks == [] then [] else acks[1..]
  }

  /** What the walk over one batch returns, and which rows its marks took off the owner. */
  function Sweep(batch: seq<Row>, inMemory: set<RunId>, acks: seq<Ack>): Swept {
    if batch == [] then Swept(Exhausted, {})
    else if batch[0].id !in inMemory then Swept(Found(batch[0]), {})
    else match AckAt(acks)
      case Lost(applied) => Swept(OwnerFailed, if applied then {batch[0].id} else {})
      case Acked =>
        var rest := Sweep(batch[1..], inMemory, Rest(acks));
        Swept(rest.result, rest.gone + {batch[0].id})
  }

  function Batch(pending: seq<Row>, inMemory: set<RunId>): seq<Row> {
    pending[..Min(Window(|inMemory|), |pending|)]
  }

  /** One whole fetch against an owner holding `pending`. */
  function Fetch(pending: seq<Row>, inMemory: set<RunId>, acks: seq<Ack>): Swept {
    Sweep(Batch(pending, inMemory), inMemory, acks)
  }

  lemma {:induction false} KeepKeep(rows: seq<Row>, a: set<RunId>, b: set<RunId>)
    ensures Keep(Keep(rows, a), b) == Keep(rows, a + b)
  {
    if rows != [] {
      KeepKeep(rows[1..], a, b);
    }
  }

  lemma {:induction false} KeepNothing(rows: seq<Row>)
    ensures Keep(rows, {}) == rows
  {
    if rows != [] {
      KeepNothing(rows[1..]);
    }
  }

  // The walk from row `k` on, one row at a time.
  lemma SweepFrom(batch: seq<Row>, k: nat, inMemory: set<RunId>, acks: seq<Ack>)
    requires k < |batch|
    ensures var rest := Sweep(batch[k + 1..], inMemory, Rest(acks));
            Sweep(batch[k..], inMemory, acks) ==
            if batch[k].id !in inMemory then Swept(Found(batch[k]), {})
            else match AckAt(acks)
              case Lost(applied) => Swept(OwnerFailed, if applied then {batch[k].id} else {})
              case Acked => Swept(rest.result, rest.gone + {batch[k].id})
  {
    assert batch[k..][1..] == batch[k + 1..];
  }

  // A mark honoured or applied is one more row gone.
  lemma MarkIsRetire(before: Table, gone: set<RunId>, id: RunId, ack: Ack)
    ensures MarkedTable(Retire(before, gone, Delivered), id, Delivered, ack) ==
            Retire(before, gone + (if ack == Lost(false) then {} else {id}), Delivered)
  {
    if ack == Lost(false) {
      assert gone + {} == gone;
    } else {
      RetireTwice(before, gone, {id}, Delivered);
    }
  }

  lemma RetireNothing(t: Table)
    ensures Retire(t, {}, Delivered) == t
  {
    KeepNothing(t.pending);
  }

  // Rows gone before, one gone now, and those the rest of the walk takes.
  lemma GoneInTurn(gone: set<RunId>, id: RunId, tail: set<RunId>)
    ensures gone + (tail + {id}) == (gone + {id}) + tail
  {
  }

  method FetchNextPending(owner: Owner, inMemory: set<RunId>, acks: seq<Ack>) returns (result: Scan)
    modifies owner
    ensures var f := Fetch(old(owner.table).pending, inMemory, acks);
            result == f.result && owner.table == Retire(old(owner.table), f.gone, Delivered)
  {
    ghost var before := owner.table;
    var batch := owner.FetchPending(|inMemory|);
    assert batch == Batch(before.pending, inMemory);
    var k, left := 0, acks;
    ghost var gone: set<RunId> := {};
    RetireNothing(before);
    while k < |batch|
      invariant 0 <= k <= |batch|
      invariant owner.table == Retire(before, gone, Delivered)
      invariant var tail := Sweep(batch[k..], inMemory, left);
                Fetch(before.pending, inMemory, acks) == Swept(tail.result, gone + tail.gone)
    {
      var row := batch[k];
      SweepFrom(batch, k, inMemory, left);
      if row.id !in inMemory {
        assert gone + {} == gone;
        return Found(row);
      }
      var ack := AckAt(left);
      var ok := owner.MarkOutcome(row.id, Delivered, ack);
      MarkIsRetire(before, gone, row.id, ack);
      if !ok {
        return OwnerFailed;
      }
      GoneInTurn(gone, row.id, Sweep(batch[k + 1..], inMemory, Rest(left)).gone);
      gone := gone + {row.id};
      left := Rest(left);
      k := k + 1;
    }
    assert batch[k..] == [] && gone + {} == gone;
    result := Exhausted;
  }

  lemma RetireTwice(t: Table, a: set<RunId>, b: set<RunId>, status: Status)
    ensures Retire(Retire(t, a, status), b, status) == Retire(t, a + b, status)
  {
    KeepKeep(t.pending, a, b);
    var twice, once := Retire(Retire(t, a, status), b, status).outcomes, Retire(t, a + b, status).outcomes;
    assert twice.Keys == once.Keys;
    assert forall id :: id in once.Keys ==> twice[id] == once[id];
  }

  // ---- the unbatched fetch this one stands for ----

  function FirstOutside(rows: seq<Row>, inMemory: set<RunId>): Option<Row> {
    if rows == [] then None
    else if rows[0].id !in inMemory then Some(rows[0])
    else FirstOutside(rows[1..], inMemory)
  }

  function AsOption(s: Scan): Option<Row> {
    if s.Found? then Some(s.row) else None
  }

  ghost predicate HonestAcks(acks: seq<Ack>) {
    forall a :: a in acks ==> a.Acked?
  }

  lemma {:induction false} SweepFindsFirst(batch: seq<Row>, inMemory: set<RunId>, acks: seq<Ack>)
    requires HonestAcks(acks)
    ensures AsOption(Sweep(batch, inMemory, acks).result) == FirstOutside(batch, inMemory)
    ensures !Sweep(batch, inMemory, acks).result.OwnerFailed?
    decreases |batch|
  {
    if batch != [] && batch[0].id in inMemory {
      SweepFindsFirst(batch[1..], inMemory, Rest(acks));
    }
  }

  lemma {:induction false} FirstOutsidePrefix(rows: seq<Row>, inMemory: set<RunId>, n: nat)
    requires n <= |rows|
    ensures FirstOutside(rows[..n], inMemory) == FirstOutside(rows, inMemory) <==>
            (exists i :: 0 <= i < n && rows[i].id !in inMemory) || FirstOutside(rows, inMemory).None?
  {
    if rows != [] && n > 0 {
      assert rows[..n][1..] == rows[1..][..n - 1];
      if rows[0].id in inMemory {
        FirstOutsidePrefix(rows[1..], inMemory, n - 1);
        if i :| 0 <= i < n && rows[i].id !in inMemory {
          assert rows[1..][i - 1] == rows[i];
        }
        if i :| 0 <= i < n - 1 && rows[1..][i].id !in inMemory {
          assert rows[i + 1] == rows[1..][i];
        }
      } else {
        assert rows[0].id !in inMemory;
      }
    }
  }

  /**
   On any owner, the batch returns what a walk over the whole pending list would exactly
   when some row of the batch is outside the in-memory set, or no row is.
  */
  lemma BatchRefinesFullFetch(pending: seq<Row>, inMemory: set<RunId>, acks: seq<Ack>)
    requires HonestAcks(acks)
    ensures AsOption(Fetch(pending, inMemory, acks).result) == FirstOutside(pending, inMemory) <==>
            || (exists i :: 0 <= i < |Batch(pending, inMemory)| && pending[i].id !in inMemory)
            || FirstOutside(pending, inMemory).None?
  {
    SweepFindsFirst(Batch(pending, inMemory), inMemory, acks);
    FirstOutsidePrefix(pending, inMemory, Min(Window(|inMemory|), |pending|));
  }

  // ---- pigeonhole ----

  lemma {:induction false} Pigeonhole(rows: seq<Row>, s: set<RunId>)
    requires Distinct(rows) && forall r :: r in rows ==> r.id in s
    ensures |rows| <= |s|
  {
    if rows != [] {
      var id := rows[0].id;
      forall r | r in rows[1..] ensures r.id in s - {id} {
        var i :| 0 <= i < |rows[1..]| && rows[1..][i] == r;
        assert rows[i + 1] == r;
      }
      Pigeonhole(rows[1..], s - {id});
      assert rows[0] in rows;
    }
  }

  lemma {:induction false} NoneMeansAllInside(rows: seq<Row>, inMemory: set<RunId>)
    ensures FirstOutside(rows, inMemory).None? <==> forall i :: 0 <= i < |rows| ==> rows[i].id in inMemory
  {
    if rows != [] {
      NoneMeansAllInside(rows[1..], inMemory);
      assert forall i :: 0 < i < |rows| ==> rows[i] == rows[1..][i - 1];
    }
  }

  /** Below the owner's cap, a batch one longer than the set always reaches past it. */
  lemma SmallSetNeverStarves(pending: seq<Row>, inMemory: set<RunId>, acks: seq<Ack>)
    requires Distinct(pending) && HonestAcks(acks) && |inMemory| < OWNER_FETCH_MAX
    ensures AsOption(Fetch(pending, inMemory, acks).result) == FirstOutside(pending, inMemory)
  {
    var batch := Batch(pending, inMemory);
    if forall i :: 0 <= i < |batch| ==> pending[i].id in inMemory {
      Pigeonhole(batch, inMemory);
      assert |batch| == |pending|;
      NoneMeansAllInside(pending, inMemory);
    }
    BatchRefinesFullFetch(pending, inMemory, acks);
  }

  // ---- the cap is exact ----

  function Plain(id: RunId): Row {
    Row(id, Background, None, None, true, false)
  }

  lemma {:induction false} RowsOf(s: set<RunId>) returns (rows: seq<Row>)
    ensures Distinct(rows) && |rows| == |s|
    ensures forall i :: 0 <= i < |rows| ==> rows[i].id in s
  {
    if s == {} {
      rows := [];
    } else {
      var id :| id in s;
      var rest := RowsOf(s - {id});
      rows := [Plain(id)] + rest;
    }
  }

  lemma {:induction false} FreshId(s: set<RunId>) returns (id: RunId)
    ensures id !in s
    ensures forall x :: x in s ==> |x| < |id|
  {
    if s == {} {
      id := "x";
    } else {
      var x :| x in s;
      var other := FreshId(s - {x});
      id := if |x| < |other| then other else x + "x";
      assert forall y :: y in s ==> y == x || y in s - {x};
    }
  }

  /** At the cap, a full window of remembered rows hides a waiting one. */
  lemma FullWindowHidesARow(inMemory: set<RunId>) returns (pending: seq<Row>)
    requires |inMemory| >= OWNER_FETCH_MAX
    ensures Distinct(pending)
    ensures Fetch(pending, inMemory, []).result.Exhausted? && FirstOutside(pending, inMemory).Some?
  {
    var rows := RowsOf(inMemory);
    var id := FreshId(inMemory);
    pending := rows + [Plain(id)];
    var batch := Batch(pending, inMemory);
    SweepFindsFirst(batch, inMemory, []);
    NoneMeansAllInside(batch, inMemory);
    NoneMeansAllInside(pending, inMemory);
    assert pending[|rows|].id !in inMemory;
  }

  /**
   The batched fetch is as good as the unbatched one on every pending list exactly while
   fewer than 100 delivered rows are waiting for their mark: the client asks for one row
   more than it remembers, but the owner never serves more than 100.
  */
  lemma FetchNeverStarvesIff(inMemory: set<RunId>)
    ensures (forall pending: seq<Row> :: Distinct(pending) ==>
              AsOption(Fetch(pending, inMemory, []).result) == FirstOutside(pending, inMemory))
            <==> |inMemory| < OWNER_FETCH_MAX
  {
    if |inMemory| < OWNER_FETCH_MAX {
      forall pending: seq<Row> | Distinct(pending)
        ensures AsOption(Fetch(pending, inMemory, []).result) == FirstOutside(pending, inMemory)
      {
        SmallSetNeverStarves(pending, inMemory, []);
      }
    } else {
      var pending := FullWindowHidesARow(inMemory);
      assert Distinct(pending);
      assert AsOption(Fetch(pending, inMemory, []).result) != FirstOutside(pending, inMemory);
    }
  }

  lemma {:induction false} SweepTakesTheBatch(batch: seq<Row>, inMemory: set<RunId>, acks: seq<Ack>)
    requires Sweep(batch, inMemory, acks).result.Exhausted?
    ensures Sweep(batch, inMemory, acks).gone == Ids(batch)
    decreases |batch|
  {
    if batch != [] {
      SweepTakesTheBatch(batch[1..], inMemory, Rest(acks));
      assert Ids(batch) == Ids(batch[1..]) + {batch[0].id} by {
        assert batch == [batch[0]] + batch[1..];
      }
    }
  }

  lemma {:induction false} KeepDropsPrefix(rows: seq<Row>, n: nat)
    requires Distinct(rows) && n <= |rows|
    ensures Keep(rows, Ids(rows[..n])) == rows[n..]
  {
    if n == 0 {
      assert Ids(rows[..0]) == {};
      KeepNothing(rows);
    } else {
      var tail := rows[1..];
      assert rows[..n] == [rows[0]] + tail[..n - 1];
      assert Ids(rows[..n]) == {rows[0].id} + Ids(tail[..n - 1]);
      KeepDropsPrefix(tail, n - 1);
      KeepKeep(tail, {rows[0].id}, Ids(tail[..n - 1]));
      KeepAbsent(tail, rows[0].id);
    }
  }

  lemma {:induction false} KeepAbsent(rows: seq<Row>, id: RunId)
    requires forall r :: r in rows ==> r.id != id
    ensures Keep(rows, {id}) == rows
  {
    if rows != [] {
      assert rows[0] in rows;
      KeepAbsent(rows[1..], id);
    }
  }

  /**
   Even a starved fetch makes progress: it takes the whole window off the owner, so the
   hidden row moves up by the window's length.
  */
  lemma StarvedFetchDrainsTheWindow(pending: seq<Row>, inMemory: set<RunId>, acks: seq<Ack>)
    requires Distinct(pending) && Fetch(pending, inMemory, acks).result.Exhausted?
    ensures Keep(pending, Fetch(pending, inMemory, acks).gone) == pending[Min(Window(|inMemory|), |pending|)..]
  {
    SweepTakesTheBatch(Batch(pending, inMemory), inMemory, acks);
    KeepDropsPrefix(pending, Min(Window(|inMemory|), |pending|));
  }
}

/** The collector over any operations of a block: what it has recorded at the end. */
module CollectorUpdates {
  import opened Common
  import opened BalanceLedger
  import opened KeptRecords
  import opened StatsCollector

  // An update that is begun for an address, with what it may have to pay of its penalty.
  datatype Begun = Begun(address: Address, reason: Reason, txHash: Option<Hash>, payment: Option<int>)

  // What the node does between Begin and Complete: the updates begun, and the state before and after.
  datatype Operation = Operation(begun: seq<Begun>, before: State, after: State)

  // No operation begins as a hand-over or a receipt; these come of epoch rewards begun together.
  predicate IsOperation(op: Operation) {
    forall b | b in op.begun :: b.reason != DelegatorEpochRewardReason && b.reason != DelegateeEpochRewardReason
  }

  // Only who has a penalty pays for it.
  function UpdateOf(op: Operation, b: Begun): Record {
    var seen := Observe(op.before, b.address);
    Record(b.address, b.reason, seen, Observe(op.after, b.address), if seen.penaltySeconds > 0 then b.payment else None, b.txHash)
  }

  function UpdatesOf(op: Operation): (us: seq<Record>)
    ensures |us| == |op.begun|
  {
    seq(|op.begun|, i requires 0 <= i < |op.begun| => UpdateOf(op, op.begun[i]))
  }

  // All updates that are recorded each for itself, and all receipts.
  function AllUpdates(ops: seq<Operation>): seq<Record> {
    if |ops| == 0 then [] else AllUpdates(ops[..|ops| - 1]) + OwnUpdates(UpdatesOf(ops[|ops| - 1]))
  }

  function AllReceipts(ops: seq<Operation>): seq<Record> {
    if |ops| == 0 then [] else AllReceipts(ops[..|ops| - 1]) + Receipts(UpdatesOf(ops[|ops| - 1]))
  }

  method Begin(c: Collector, op: Operation)
    requires c.Valid() && c.pending == []
    modifies c`pending
    ensures c.Valid() && fresh(c.pending) && |c.pending| == |op.begun|
    ensures forall i | 0 <= i < |op.begun| ::
              c.pending[i].address == op.begun[i].address &&
              c.pending[i].Value().(after := Observe(op.after, op.begun[i].address)) == UpdatesOf(op)[i]
  {
    hide Observe;
    for i := 0 to |op.begun|
      invariant c.Valid() && fresh(c.pending) && |c.pending| == i
      invariant forall j | 0 <= j < i ::
                  c.pending[j].address == op.begun[j].address &&
                  c.pending[j].Value().(after := Observe(op.after, op.begun[j].address)) == UpdateOf(op, op.begun[j])
    {
      var b := op.begun[i];
      c.AddPendingBalanceUpdate(b.address, op.before, b.reason, b.txHash, b.payment);
    }
  }

  method RecordOperation(c: Collector, op: Operation, ghost us: seq<Record>, ghost received: seq<Record>, ghost all: set<BalanceUpdate>)
    requires c.Valid() && c.pending == [] && IsOperation(op)
    requires Recorded(c.AsLedger(c.balanceUpdates), us, received) && forall x | x in c.balanceUpdates :: x in all
    modifies c, all
    ensures c.Valid() && c.pending == []
    ensures forall x | x in c.balanceUpdates :: x in old(c.balanceUpdates) || fresh(x)
    ensures Recorded(c.AsLedger(c.balanceUpdates), us + OwnUpdates(UpdatesOf(op)), received + Receipts(UpdatesOf(op)))
  {
    hide WF, Recorded, Complete, Observe, Fresh, UpdatesOf;
    ghost var l := c.AsLedger(c.balanceUpdates);
    Begin(c, op);
    assert StatsCollector.Values(c.balanceUpdates) == l.vals;
    ghost var step := c.CompleteBalanceUpdate(op.after);
    StepIsRecorded(l, c.AsLedger(c.balanceUpdates), op, step, us, received);
  }

  lemma StepIsRecorded<Id>(l: Ledger<Id>, l': Ledger<Id>, op: Operation, s: Step<Id>, us: seq<Record>, received: seq<Record>)
    requires Recorded(l, us, received) && WF(l) && Fresh(l, s) && l' == Complete(l, s) && IsOperation(op)
    requires |s.pend| == |op.begun| && forall i | 0 <= i < |s.pend| :: s.pend[i].1 == UpdatesOf(op)[i]
    ensures Recorded(l', us + OwnUpdates(UpdatesOf(op)), received + Receipts(UpdatesOf(op)))
  {
    assert AreBegun(s.pend);
    hide WF, Recorded, Complete, Fresh, UpdatesOf;
    RecordsInAt(s.pend);
    assert RecordsIn(s.pend) == UpdatesOf(op);
    CompleteRecorded(l, s, us, received);
  }

  // Over any operations, in any order, from an empty collector.
  method RecordAll(ops: seq<Operation>) returns (c: Collector)
    requires forall op | op in ops :: IsOperation(op)
    ensures fresh(c) && c.Valid() && c.pending == []
    ensures Recorded(c.AsLedger(c.balanceUpdates), AllUpdates(ops), AllReceipts(ops))
  {
    hide Recorded, WF;
    c := new Collector();
    NothingRecorded<BalanceUpdate>();
    for i := 0 to |ops|
      invariant fresh(c) && c.Valid() && c.pending == [] && forall x | x in c.balanceUpdates :: fresh(x)
      invariant Recorded(c.AsLedger(c.balanceUpdates), AllUpdates(ops[..i]), AllReceipts(ops[..i]))
    {
      assert ops[..i + 1][..i] == ops[..i];
      RecordOperation(c, ops[i], AllUpdates(ops[..i]), AllReceipts(ops[..i]), set x | x in c.balanceUpdates);
    }
    assert ops[..|ops|] == ops;
  }
}

/**
 Indexing one incoming block: what the database holds is brought in line with
 the chain first, whatever reorganisation or new genesis the block shows, and
 whatever calls fail on the way.
 */
module Indexer {
  import opened Common
  import opened CoinTotals

  type Height = h: nat | h > 0 witness 1

  // A block above the genesis block of the node's chain.
  datatype Block = Block(height: Height, touched: set<Address>)

  // The node's chain as seen while a block is indexed.
  datatype Node = Node(genesisHeight: nat, states: nat -> Accounts)

  // The heights saved, with the coin totals saved for each.
  type Saved = map<nat, Totals>

  function UpTo(saved: Saved, height: nat): Saved {
    map h | h in saved && h <= height :: saved[h]
  }

  ghost predicate IsLast(saved: Saved, last: nat) {
    if saved == map[] then last == 0 else last in saved && forall h | h in saved :: h <= last
  }

  // The highest height saved; 0 if there is none.
  ghost function LastOf(saved: Saved): (last: nat)
    ensures IsLast(saved, last)
  {
    LastExists(saved);
    var last :| IsLast(saved, last);
    last
  }

  lemma {:induction false} LastExists(saved: Saved)
    ensures exists last :: IsLast(saved, last)
    decreases |saved|
  {
    if saved == map[] {
      assert IsLast(saved, 0);
    } else {
      var h :| h in saved;
      var rest := saved - {h};
      LastExists(rest);
      var last :| IsLast(rest, last);
      var top := if rest == map[] || last < h then h else last;
      forall k | k in saved ensures k <= top {
        assert k == h || k in rest;
      }
      assert IsLast(saved, top);
    }
  }

  // The database, and whether its next calls and those to the chain's block store succeed; after these all do.
  class Database {
    var saved: Saved
    var script: seq<bool>
    ghost var calls: nat       // made so far
    ghost var resets: nat      // tried so far

    constructor (saved: Saved, script: seq<bool>)
      ensures this.saved == saved && this.script == script
    {
      this.saved, this.script, calls, resets := saved, script, 0, 0;
    }

    // The calls made and the failures still to come: each failure costs a call.
    ghost function Spent(): int
      reads this
    {
      calls + Failures(script)
    }

    method Try() returns (ok: bool)
      modifies this`script, this`calls
      ensures ok == (old(script) == [] || old(script)[0])
      ensures script == if old(script) == [] then [] else old(script)[1..]
      ensures calls == old(calls) + 1 && Failures(script) + (if ok then 0 else 1) == Failures(old(script))
    {
      FailuresNext(script);
      calls := calls + 1;
      if script == [] {
        return true;
      }
      ok, script := script[0], script[1..];
    }

    method GetLastHeight() returns (last: Option<nat>)
      modifies this`script, this`calls
      ensures |script| <= |old(script)| && Failures(script) + (if last.Some? then 0 else 1) == Failures(old(script))
      ensures calls == old(calls) + 1
      ensures last.None? ==> |script| < |old(script)|
      ensures last.Some? ==> last.value == LastOf(saved)
    {
      var ok := Try();
      if !ok {
        return None;
      }
      var top, rest := 0, saved.Keys;
      while rest != {}
        invariant rest <= saved.Keys
        invariant if rest == saved.Keys then top == 0 else top in saved && forall h | h in saved && h !in rest :: h <= top
        decreases rest
      {
        var h :| h in rest;
        top, rest := if rest == saved.Keys || top < h then h else top, rest - {h};
      }
      LastUnique(saved, top, LastOf(saved));
      return Some(top);
    }

    method ResetTo(height: nat) returns (ok: bool)
      modifies this
      ensures saved == if ok then UpTo(old(saved), height) else old(saved)
      ensures |script| <= |old(script)| && Failures(script) + (if ok then 0 else 1) == Failures(old(script))
      ensures !ok ==> |script| < |old(script)|
      ensures calls == old(calls) + 1 && resets == old(resets) + 1
    {
      resets := resets + 1;
      ok := Try();
      if ok {
        saved := UpTo(saved, height);
      }
    }

    // Repeated until it succeeds.
    method Save(height: nat, coins: Totals)
      modifies this
      ensures saved == old(saved)[height := coins] && resets == old(resets)
      ensures |script| <= |old(script)| && Failures(script) <= Failures(old(script)) && Spent() == old(Spent()) + 1
    {
      var ok := false;
      while !ok
        invariant saved == if ok then old(saved)[height := coins] else old(saved)
        invariant resets == old(resets)
        invariant |script| <= |old(script)| && Failures(script) <= Failures(old(script))
        invariant Spent() == old(Spent()) + if ok then 1 else 0
        decreases |script|, !ok
      {
        ok := Try();
        if ok {
          saved := saved[height := coins];
        }
      }
    }
  }

  function Failures(script: seq<bool>): nat {
    if |script| == 0 then 0 else (if script[0] then 0 else 1) + Failures(script[1..])
  }

  lemma FailuresNext(script: seq<bool>)
    ensures script != [] ==> Failures(script) == Failures(script[1..]) + if script[0] then 0 else 1
  {
  }

  lemma LastUnique(saved: Saved, a: nat, b: nat)
    requires IsLast(saved, a) && IsLast(saved, b)
    ensures a == b
  {
  }

  // ---------- What a block demands of the database ----------

  // kept: what stays; the genesis block is saved before the block or not.
  datatype Plan = Plan(kept: Saved, withGenesis: bool) | Impossible(kept: Saved)

  // The block does not follow what is kept: only the first block after the genesis may do that.
  ghost function Skip(kept: Saved, block: Block, genesisHeight: nat): Plan {
    if block.height == genesisHeight + 1 then Plan(kept, true) else Impossible(kept)
  }

  ghost function PlanFor(saved: Saved, block: Block, genesisHeight: nat, firstBlockHeight: nat): Plan
    requires block.height >= 2
  {
    var next := LastOf(saved) + 1;
    if block.height > next then Skip(saved, block, genesisHeight)
    else if block.height == next then Plan(saved, false)
    else
      var withGenesis := block.height != firstBlockHeight && block.height == genesisHeight + 1;
      var kept := UpTo(saved, if withGenesis then block.height - 2 else block.height - 1);
      if block.height > LastOf(kept) + (if withGenesis then 2 else 1) then Skip(kept, block, genesisHeight)
      else Plan(kept, withGenesis)
  }

  datatype Outcome = Indexed | Panic

  datatype State = State(lastIndexedHeight: nat, totals: Option<Totals>)

  // t, moved by what all accounts together change.
  ghost function Moved(t: Totals, prev: Accounts, next: Accounts): Totals {
    Totals(t.balance + Sum(next).balance - Sum(prev).balance, t.stake + Sum(next).stake - Sum(prev).stake)
  }

  class Indexer {
    const db: Database
    var state: State
    var restore: bool
    var firstBlockHeight: nat
    var firstBlockHeightInitialized: bool

    ghost predicate Valid()
      reads this, db
    {
      IsLast(db.saved, state.lastIndexedHeight)
    }

    constructor (db: Database, restore: bool)
      ensures this.db == db && this.restore == restore && !firstBlockHeightInitialized && state == State(0, None)
    {
      this.db, this.restore, state := db, restore, State(0, None);
      firstBlockHeight, firstBlockHeightInitialized := 0, false;
    }

    method LoadState()
      modifies this`state, db`script, db`calls
      ensures Valid() && state.totals == None
      ensures |db.script| <= |old(db.script)| && Failures(db.script) <= Failures(old(db.script))
      ensures db.Spent() == old(db.Spent()) + 1
    {
      while true
        invariant |db.script| <= |old(db.script)| && Failures(db.script) <= Failures(old(db.script))
        invariant db.Spent() == old(db.Spent())
        decreases |db.script|
      {
        var last := db.GetLastHeight();
        if last.Some? {
          state := State(last.value, None);
          return;
        }
      }
    }

    function FirstHeight(node: Node, last: nat): nat {
      if last == 0 then node.genesisHeight else 1
    }

    method InitFirstBlockHeight(node: Node)
      modifies this`firstBlockHeight, this`firstBlockHeightInitialized
      ensures firstBlockHeightInitialized
      ensures firstBlockHeight == if old(firstBlockHeightInitialized) then old(firstBlockHeight)
                                  else FirstHeight(node, state.lastIndexedHeight)
    {
      if firstBlockHeightInitialized {
        return;
      }
      firstBlockHeight := if state.lastIndexedHeight == 0 then node.genesisHeight else 1;
      firstBlockHeightInitialized := true;
    }

    method ResetTo(height: nat, node: Node) returns (ok: bool)
      requires Valid()
      modifies this`state, this`firstBlockHeight, this`firstBlockHeightInitialized, db
      ensures Valid()
      ensures db.saved == if ok then UpTo(old(db.saved), height) else old(db.saved)
      ensures ok ==> state.totals == None && firstBlockHeightInitialized
      ensures !ok ==> state == old(state) && firstBlockHeight == old(firstBlockHeight)
                      && firstBlockHeightInitialized == old(firstBlockHeightInitialized)
      ensures |db.script| <= |old(db.script)| && Failures(db.script) + (if ok then 0 else 1) <= Failures(old(db.script))
      ensures !ok ==> |db.script| < |old(db.script)|
      ensures db.resets == old(db.resets) + 1 && db.Spent() == old(db.Spent()) + if ok then 2 else 0
    {
      ok := db.ResetTo(height);
      if ok {
        LoadState();
        firstBlockHeightInitialized := false;
        InitFirstBlockHeight(node);
      }
    }

    method InitializeStateIfNeeded(block: Block, node: Node)
      modifies this`state
      ensures state.lastIndexedHeight == old(state.lastIndexedHeight)
      ensures state.totals == Some(if old(state.totals).Some? then old(state.totals.value) else Sum(node.states(block.height - 1)))
    {
      if state.totals.None? {
        var totals := ScanAccounts(node.states(block.height - 1));
        state := state.(totals := Some(totals));
      }
    }

    // The totals after a block that leads from prev to next.
    method ConvertTotals(isFirst: bool, touched: set<Address>, prev: Accounts, next: Accounts) returns (totals: Totals)
      requires state.totals.Some? && Touches(touched, prev, next)
      ensures totals == Moved(state.totals.value, prev, next)
    {
      var res, diff := DetermineBalanceUpdates(isFirst, touched, prev, next);
      ChangeIsAll(if isFirst then touched + prev.Keys else touched, prev, next);
      totals := Totals(state.totals.value.balance + diff.balance, state.totals.value.stake + diff.stake);
    }

    // The height up to which the first block is looked for, when the next call comes.
    ghost function First(node: Node): nat
      reads this
    {
      if firstBlockHeightInitialized then firstBlockHeight else FirstHeight(node, state.lastIndexedHeight)
    }

    // Brings the database in line with the chain and adds the block.
    method IndexBlock(block: Block, node: Node) returns (outcome: Outcome)
      requires Valid() && block.height > node.genesisHeight >= 1
      requires Touches(block.touched, node.states(block.height - 1), node.states(block.height))
      modifies this, db
      ensures Valid()
      ensures match PlanFor(old(db.saved), block, node.genesisHeight, old(First(node)))
              case Impossible(kept) => outcome == Panic && db.saved == kept
              case Plan(kept, withGenesis) =>
                && outcome == Indexed
                && state.lastIndexedHeight == block.height
                && Adds(kept, db.saved, block.height, if withGenesis then {node.genesisHeight} else {})
                && (withGenesis ==> db.saved[node.genesisHeight] == BaseFrom(old(state), Incoming(block, node)))
      ensures outcome == Indexed ==>
                && state.totals == Some(Moved(BaseFrom(old(state), Incoming(block, node)), node.states(block.height - 1), node.states(block.height)))
                && db.saved[block.height] == state.totals.value
      ensures outcome == Indexed ==> !restore
      ensures db.resets + Failures(db.script) <= old(db.resets) + 1 + Failures(old(db.script))
      ensures db.Spent() + Failures(db.script) <= old(db.Spent()) + 6 + Failures(old(db.script))
    {
      hide Sum, Touches, PlanFor, Adds, Failures;
      InitFirstBlockHeight(node);
      var withGenesis;
      outcome, withGenesis := Prepare(block, node);
      if outcome == Indexed {
        AddBlock(block, node, withGenesis);
      }
    }

    // Resets the database until the block, or the genesis block before it, is the next to be saved.
    method Prepare(block: Block, node: Node) returns (outcome: Outcome, withGenesis: bool)
      requires Valid() && firstBlockHeightInitialized && block.height > node.genesisHeight >= 1
      modifies this, db
      ensures Valid()
      ensures (if outcome == Panic then Impossible(db.saved) else Plan(db.saved, withGenesis))
           == PlanFor(old(db.saved), block, node.genesisHeight, old(firstBlockHeight))
      ensures outcome == Indexed ==>
                && block.height > state.lastIndexedHeight
                && (withGenesis ==> block.height == node.genesisHeight + 1)
                && (!withGenesis ==> block.height == state.lastIndexedHeight + 1)
      ensures outcome == Indexed ==>
                state.totals == if block.height > old(state.lastIndexedHeight) then old(state.totals) else None
      ensures db.resets + Failures(db.script) <= old(db.resets) + 1 + Failures(old(db.script))
      ensures Failures(db.script) <= Failures(old(db.script))
      ensures db.Spent() + Failures(db.script) <= old(db.Spent()) + 4 + Failures(old(db.script))
    {
      hide Failures, Sum;
      ghost var plan := PlanFor(db.saved, block, node.genesisHeight, firstBlockHeight);
      LastUnique(db.saved, state.lastIndexedHeight, LastOf(db.saved));
      withGenesis := false;
      ghost var reset := false;
      while true
        invariant Valid() && firstBlockHeightInitialized
        invariant |db.script| <= |old(db.script)|
        invariant Failures(db.script) <= Failures(old(db.script))
        invariant db.resets + Failures(db.script) <= old(db.resets) + (if reset then 1 else 0) + Failures(old(db.script))
        invariant db.Spent() + Failures(db.script) <= old(db.Spent()) + (if reset then 3 else 0) + Failures(old(db.script))
        invariant !reset ==> db.saved == old(db.saved) && state == old(state) && firstBlockHeight == old(firstBlockHeight)
        invariant !reset && withGenesis ==>
                    && block.height <= state.lastIndexedHeight
                    && block.height != firstBlockHeight && block.height == node.genesisHeight + 1
        invariant reset ==> state.totals == None && block.height <= old(state.lastIndexedHeight)
        invariant reset ==> block.height >= state.lastIndexedHeight + (if withGenesis then 2 else 1)
        invariant reset && withGenesis ==> block.height == node.genesisHeight + 1
        invariant reset ==> plan == if block.height > state.lastIndexedHeight + (if withGenesis then 2 else 1)
                                    then Skip(db.saved, block, node.genesisHeight) else Plan(db.saved, withGenesis)
        decreases |db.script|, !reset
      {
        var heightToIndex := state.lastIndexedHeight + if withGenesis then 2 else 1;
        if block.height > heightToIndex {
          var found := db.Try();
          if !found {
            continue;
          }
          if block.height != node.genesisHeight + 1 {
            return Panic, false;
          }
          withGenesis := true;
        }
        if block.height < heightToIndex {
          var heightToReset := block.height - 1;
          if block.height != firstBlockHeight && block.height == node.genesisHeight + 1 {
            heightToReset := heightToReset - 1;
            var found := db.Try();
            if !found {
              continue;
            }
            withGenesis := true;
          }
          var ok := ResetTo(heightToReset, node);
          if ok {
            LastUnique(db.saved, state.lastIndexedHeight, LastOf(db.saved));
            assert state.lastIndexedHeight <= heightToReset;
            restore := restore || block.height != firstBlockHeight;
            reset := true;
          }
          continue;
        }
        return Indexed, withGenesis;
      }
    }

    // Saves the block, after the genesis block if that is missing.
    method AddBlock(block: Block, node: Node, withGenesis: bool)
      requires block.height > node.genesisHeight >= 1
      requires withGenesis ==> block.height == node.genesisHeight + 1
      requires forall h | h in db.saved :: h < block.height
      requires Touches(block.touched, node.states(block.height - 1), node.states(block.height))
      modifies this`state, this`restore, db
      ensures Valid() && state.lastIndexedHeight == block.height && !restore
      ensures Adds(old(db.saved), db.saved, block.height, if withGenesis then {node.genesisHeight} else {})
      ensures var base := if old(state.totals).Some? then old(state.totals.value) else Sum(node.states(block.height - 1));
              && state.totals == Some(Moved(base, node.states(block.height - 1), node.states(block.height)))
              && db.saved[block.height] == state.totals.value
              && (withGenesis ==> db.saved[node.genesisHeight] == base)
      ensures db.resets == old(db.resets) && Failures(db.script) <= Failures(old(db.script))
      ensures db.Spent() <= old(db.Spent()) + 2
    {
      hide Sum, Touches, Failures;
      InitializeStateIfNeeded(block, node);
      if withGenesis {
        SaveGenesis(node);
      }
      if restore {
        restore := false;
      }
      var totals := ConvertTotals(block.height == firstBlockHeight, block.touched, node.states(block.height - 1), node.states(block.height));
      db.Save(block.height, totals);
      state := State(block.height, Some(totals));
      assert block.height in db.saved && forall h | h in db.saved :: h <= block.height;
    }

    // The genesis block changes nothing: the state before it is its own.
    method SaveGenesis(node: Node)
      requires state.totals.Some?
      modifies db
      ensures db.saved == old(db.saved)[node.genesisHeight := state.totals.value] && db.resets == old(db.resets)
      ensures Failures(db.script) <= Failures(old(db.script)) && db.Spent() == old(db.Spent()) + 1
    {
      var atGenesis := node.states(node.genesisHeight);
      var coins := ConvertTotals(firstBlockHeight == node.genesisHeight, {}, atGenesis, atGenesis);
      db.Save(node.genesisHeight, coins);
    }
  }

  datatype Incoming = Incoming(block: Block, node: Node)

  ghost predicate IsIncoming(i: Incoming) {
    && i.block.height > i.node.genesisHeight >= 1
    && Touches(i.block.touched, i.node.states(i.block.height - 1), i.node.states(i.block.height))
  }

  // The panic spares the first block of a chain and every block whose predecessor is saved.
  ghost predicate CanIndex(heights: set<nat>, i: Incoming) {
    i.block.height == i.node.genesisHeight + 1 || i.block.height - 1 in heights
  }

  // The heights saved once a block is indexed: nothing above it stays, and its predecessor is there.
  ghost function After(heights: set<nat>, height: Height): set<nat> {
    (set h | h in heights && h < height) + {height - 1, height}
  }

  ghost function Heights(heights: set<nat>, blocks: seq<Incoming>): set<nat> {
    if |blocks| == 0 then heights
    else After(Heights(heights, blocks[..|blocks| - 1]), blocks[|blocks| - 1].block.height)
  }

  ghost predicate AllCanIndex(heights: set<nat>, blocks: seq<Incoming>) {
    |blocks| == 0 ||
    var init := blocks[..|blocks| - 1];
    AllCanIndex(heights, init) && CanIndex(Heights(heights, init), blocks[|blocks| - 1])
  }

  lemma {:induction false} PrefixCanIndex(heights: set<nat>, blocks: seq<Incoming>, n: nat)
    requires n <= |blocks| && AllCanIndex(heights, blocks)
    ensures AllCanIndex(heights, blocks[..n])
  {
    if n == |blocks| {
      assert blocks[..n] == blocks;
    } else {
      PrefixCanIndex(heights, blocks[..|blocks| - 1], n);
      assert blocks[..|blocks| - 1][..n] == blocks[..n];
    }
  }

  // Where a run of blocks leads: the heights saved, and the totals at hand and saved for the last block.
  ghost predicate IsReached(heights: set<nat>, blocks: seq<Incoming>, state: State, saved: Saved) {
    && saved.Keys == Heights(heights, blocks)
    && if |blocks| == 0 then state.totals.None?
       else
         var last := blocks[|blocks| - 1].block.height;
         && state == State(last, Some(RunTotals(blocks)))
         && last in saved && saved[last] == RunTotals(blocks)
  }

  // The totals after a run from a fresh start: carried on from block to block, and counted anew only
  // where the height does not rise.
  ghost function RunTotals(blocks: seq<Incoming>): Totals
    requires |blocks| > 0
  {
    var init, last := blocks[..|blocks| - 1], blocks[|blocks| - 1];
    var before := last.node.states(last.block.height - 1);
    var base := if |init| == 0 || last.block.height <= init[|init| - 1].block.height then Sum(before) else RunTotals(init);
    Moved(base, before, last.node.states(last.block.height))
  }

  // What is saved for height h stays when a higher block comes, unless it is the first of its chain right above h.
  ghost predicate Spares(h: nat, i: Incoming) {
    i.block.height > h && !(i.block.height == h + 1 && i.block.height == i.node.genesisHeight + 1)
  }

  // What is saved for h after a run: the totals of the last block of that height, or what was saved before
  // the run, if all blocks since spare it.
  ghost function SavedFor(before: Saved, blocks: seq<Incoming>, h: nat): Option<Totals> {
    if |blocks| == 0 then if h in before then Some(before[h]) else None
    else
      var last := blocks[|blocks| - 1];
      if h == last.block.height then Some(RunTotals(blocks))
      else if Spares(h, last) then SavedFor(before, blocks[..|blocks| - 1], h)
      else None
  }

  ghost predicate AreSaved(before: Saved, blocks: seq<Incoming>, saved: Saved) {
    forall h | SavedFor(before, blocks, h).Some? :: IsSavedAs(saved, h, SavedFor(before, blocks, h).value)
  }

  ghost predicate IsSavedAs(saved: Saved, h: nat, totals: Totals) {
    h in saved && saved[h] == totals
  }

  // What the plan keeps for a height that is spared.
  lemma SparedIsKept(saved: Saved, i: Incoming, first: nat, h: nat)
    requires i.block.height > i.node.genesisHeight >= 1 && h in saved && Spares(h, i)
    ensures var plan := PlanFor(saved, i.block, i.node.genesisHeight, first);
            plan.Plan? ==> IsSavedAs(plan.kept, h, saved[h]) && (plan.withGenesis ==> h != i.node.genesisHeight)
  {}

  lemma SparedStays(saved: Saved, i: Incoming, first: nat, saved': Saved)
    requires i.block.height > i.node.genesisHeight >= 1
    requires var plan := PlanFor(saved, i.block, i.node.genesisHeight, first);
             plan.Plan? && Adds(plan.kept, saved', i.block.height, if plan.withGenesis then {i.node.genesisHeight} else {})
    ensures forall h | h in saved && Spares(h, i) :: IsSavedAs(saved', h, saved[h])
  {
    forall h | h in saved && Spares(h, i) ensures IsSavedAs(saved', h, saved[h]) {
      SparedIsKept(saved, i, first, h);
      hide PlanFor;
    }
  }

  lemma SavedNext(before: Saved, blocks: seq<Incoming>, saved: Saved, saved': Saved)
    requires |blocks| > 0 && AreSaved(before, blocks[..|blocks| - 1], saved)
    requires forall h | h in saved && Spares(h, blocks[|blocks| - 1]) :: IsSavedAs(saved', h, saved[h])
    requires IsSavedAs(saved', blocks[|blocks| - 1].block.height, RunTotals(blocks))
    ensures AreSaved(before, blocks, saved')
  {
    hide RunTotals, Spares;
    forall h | SavedFor(before, blocks, h).Some?
      ensures IsSavedAs(saved', h, SavedFor(before, blocks, h).value)
    {
      if h != blocks[|blocks| - 1].block.height {
        assert IsSavedAs(saved, h, SavedFor(before, blocks[..|blocks| - 1], h).value);
      }
    }
  }

  // Where a run of blocks leads, and what it leaves saved.
  ghost predicate IsDone(before: Saved, blocks: seq<Incoming>, state: State, saved: Saved) {
    IsReached(before.Keys, blocks, state, saved) && AreSaved(before, blocks, saved)
  }

  lemma DoneNext(before: Saved, blocks: seq<Incoming>, state: State, saved: Saved, first: nat, state': State, saved': Saved)
    requires |blocks| > 0 && IsIncoming(blocks[|blocks| - 1]) && IsDone(before, blocks[..|blocks| - 1], state, saved)
    requires var i := blocks[|blocks| - 1];
             var plan := PlanFor(saved, i.block, i.node.genesisHeight, first);
             plan.Plan? && Adds(plan.kept, saved', i.block.height, if plan.withGenesis then {i.node.genesisHeight} else {})
    requires var i := blocks[|blocks| - 1];
             var h := i.block.height;
             && state' == State(h, Some(Moved(BaseFrom(state, i), i.node.states(h - 1), i.node.states(h))))
             && saved'[h] == state'.totals.value
    ensures IsDone(before, blocks, state', saved')
  {
    hide PlanFor, Adds, Moved, Sum, IsReached, AreSaved, RunTotals, BaseFrom, Touches;
    var i := blocks[|blocks| - 1];
    IndexedLeadsTo(i, state, saved, first, state', saved');
    ReachNext(before.Keys, blocks, state, saved, state', saved');
    SparedStays(saved, i, first, saved');
    LastIsSaved(before.Keys, blocks, state', saved');
    SavedNext(before, blocks, saved, saved');
  }

  // A run of blocks, with reorganisations and new chains as they come, and calls that fail: it ends
  // without a panic exactly if every block is the first of its chain or has its predecessor saved.
  method IndexRun(indexer: Indexer, blocks: seq<Incoming>) returns (outcome: Outcome)
    requires indexer.Valid() && indexer.state.totals.None?
    requires forall i | i in blocks :: IsIncoming(i)
    modifies indexer, indexer.db
    ensures indexer.Valid()
    ensures outcome == Indexed <==> AllCanIndex(old(indexer.db.saved).Keys, blocks)
    ensures outcome == Indexed ==> IsReached(old(indexer.db.saved).Keys, blocks, indexer.state, indexer.db.saved)
    ensures outcome == Indexed ==> AreSaved(old(indexer.db.saved), blocks, indexer.db.saved)
  {
    ghost var before := indexer.db.saved;
    NothingDone(before, indexer.state);
    hide IsIncoming, IsDone, IsReached, AreSaved, AllCanIndex;
    for n := 0 to |blocks|
      invariant indexer.Valid() && AllCanIndex(before.Keys, blocks[..n])
      invariant IsDone(before, blocks[..n], indexer.state, indexer.db.saved)
    {
      assert blocks[n] in blocks && blocks[..n + 1] == blocks[..n] + [blocks[n]];
      outcome := IndexNext(indexer, blocks[n], before, blocks[..n]);
      if outcome == Panic {
        if AllCanIndex(before.Keys, blocks) {
          PrefixCanIndex(before.Keys, blocks, n + 1);
        }
        return;
      }
    }
    assert IsDone(before, blocks[..|blocks|], indexer.state, indexer.db.saved);
    outcome := Indexed;
    assert blocks[..|blocks|] == blocks;
    DoneIs(before, blocks, indexer.state, indexer.db.saved);
  }

  // One more block of a run.
  method IndexNext(indexer: Indexer, i: Incoming, ghost before: Saved, ghost done: seq<Incoming>) returns (outcome: Outcome)
    requires indexer.Valid() && IsIncoming(i)
    requires IsDone(before, done, indexer.state, indexer.db.saved) && AllCanIndex(before.Keys, done)
    modifies indexer, indexer.db
    ensures indexer.Valid()
    ensures outcome == Indexed <==> AllCanIndex(before.Keys, done + [i])
    ensures outcome == Indexed ==> IsDone(before, done + [i], indexer.state, indexer.db.saved)
  {
    hide Sum, Touches, PlanFor, Adds, Failures, Moved, IsDone, AllCanIndex;
    ghost var state, saved, first, blocks := indexer.state, indexer.db.saved, indexer.First(i.node), done + [i];
    assert blocks[..|blocks| - 1] == done && blocks[|blocks| - 1] == i;
    outcome := indexer.IndexBlock(i.block, i.node);
    MayIndex(before, blocks, state, saved, first);
    if outcome == Indexed {
      DoneNext(before, blocks, state, saved, first, indexer.state, indexer.db.saved);
    }
  }

  lemma DoneIs(before: Saved, blocks: seq<Incoming>, state: State, saved: Saved)
    requires IsDone(before, blocks, state, saved)
    ensures IsReached(before.Keys, blocks, state, saved) && AreSaved(before, blocks, saved)
  {}

  lemma LastIsSaved(heights: set<nat>, blocks: seq<Incoming>, state: State, saved: Saved)
    requires |blocks| > 0 && IsReached(heights, blocks, state, saved)
    ensures IsSavedAs(saved, blocks[|blocks| - 1].block.height, RunTotals(blocks))
  {}

  lemma NothingDone(before: Saved, state: State)
    requires state.totals.None?
    ensures IsDone(before, [], state, before)
  {}

  lemma MayIndex(before: Saved, blocks: seq<Incoming>, state: State, saved: Saved, first: nat)
    requires |blocks| > 0 && IsIncoming(blocks[|blocks| - 1])
    requires IsDone(before, blocks[..|blocks| - 1], state, saved) && AllCanIndex(before.Keys, blocks[..|blocks| - 1])
    ensures var i := blocks[|blocks| - 1];
            PlanFor(saved, i.block, i.node.genesisHeight, first).Plan? <==> AllCanIndex(before.Keys, blocks)
  {
    hide PlanFor, AreSaved, RunTotals;
    var i := blocks[|blocks| - 1];
    PlanHeights(saved, i.block, i.node.genesisHeight, first);
  }

  // A block leads from a state and its heights to the next.
  ghost predicate LeadsTo(i: Incoming, state: State, heights: set<nat>, state': State, saved': Saved) {
    var h := i.block.height;
    && h >= 1 && saved'.Keys == After(heights, h)
    && state' == State(h, Some(Moved(BaseFrom(state, i), i.node.states(h - 1), i.node.states(h))))
    && saved'[h] == state'.totals.value
  }

  // A block that is indexed as its plan says leads to the heights that the plan keeps up.
  lemma IndexedLeadsTo(i: Incoming, state: State, saved: Saved, first: nat, state': State, saved': Saved)
    requires IsIncoming(i)
    requires var plan := PlanFor(saved, i.block, i.node.genesisHeight, first);
             plan.Plan? && Adds(plan.kept, saved', i.block.height, if plan.withGenesis then {i.node.genesisHeight} else {})
    requires var h := i.block.height;
             && state' == State(h, Some(Moved(BaseFrom(state, i), i.node.states(h - 1), i.node.states(h))))
             && saved'[h] == state'.totals.value
    ensures LeadsTo(i, state, saved.Keys, state', saved')
  {
    hide PlanFor, Sum, Moved;
    PlanHeights(saved, i.block, i.node.genesisHeight, first);
    assert saved'.Keys == After(saved.Keys, i.block.height);
  }

  // One more block.
  lemma ReachNext(heights: set<nat>, blocks: seq<Incoming>, state: State, saved: Saved, state': State, saved': Saved)
    requires |blocks| > 0 && IsReached(heights, blocks[..|blocks| - 1], state, saved)
    requires LeadsTo(blocks[|blocks| - 1], state, saved.Keys, state', saved')
    ensures IsReached(heights, blocks, state', saved')
  {
    hide Sum, Moved;
  }

  // What the totals of the block are counted from: those at hand unless the database has to be reset,
  // and a full scan of the state before the block otherwise.
  ghost function BaseFrom(state: State, i: Incoming): Totals {
    if state.totals.Some? && i.block.height > state.lastIndexedHeight then state.totals.value
    else Sum(i.node.states(i.block.height - 1))
  }

  // Only the block and the others are new; nothing else is changed.
  ghost predicate Adds(saved: Saved, saved': Saved, block: nat, others: set<nat>) {
    && saved'.Keys == saved.Keys + {block} + others
    && forall h | h in saved && h != block && h !in others :: saved'[h] == saved[h]
  }

  // ---------- What the plans are worth ----------

  ghost predicate Contiguous(heights: set<nat>) {
    forall a, b, h | a in heights && b in heights && a <= h <= b :: h in heights
  }

  ghost function HeightsAfter(plan: Plan, block: nat, genesisHeight: nat): set<nat>
    requires plan.Plan?
  {
    plan.kept.Keys + {block} + if plan.withGenesis then {genesisHeight} else {}
  }

  // No block is saved without the one before it; nothing above it stays; and the heights have no
  // gap, unless the chain starts from a genesis block beyond what has been saved.
  lemma PlanKeepsUp(saved: Saved, block: Block, genesisHeight: nat, first: nat)
    requires block.height > genesisHeight >= 1
    ensures var plan := PlanFor(saved, block, genesisHeight, first);
            plan.Plan? ==>
              var heights := HeightsAfter(plan, block.height, genesisHeight);
              && block.height - 1 in heights
              && (forall h | h in heights :: h <= block.height)
              && (Contiguous(saved.Keys) ==>
                    (Contiguous(heights) <==>
                     (plan.kept == map[] || LastOf(plan.kept) + 1 == if plan.withGenesis then genesisHeight else block.height)))
  {
    var plan := PlanFor(saved, block, genesisHeight, first);
    if plan.Plan? {
      var heights, kept := HeightsAfter(plan, block.height, genesisHeight), plan.kept;
      var last := LastOf(kept);
      assert forall h | h in kept :: h <= last;
      var bottom := if plan.withGenesis then genesisHeight else block.height;
      assert last < bottom;
      if Contiguous(saved.Keys) && kept != map[] {
        if last + 1 == bottom {
          forall a, b, h | a in heights && b in heights && a <= h <= b ensures h in heights {
            if h <= last {
              assert a in kept;
              assert h in saved;
              assert last in kept;
            }
          }
        } else {
          assert last in heights && bottom in heights && last + 1 !in heights;
        }
      }
    }
  }

  // When a block is indexed, and what is saved then, in terms of the heights alone.
  lemma PlanHeights(saved: Saved, block: Block, genesisHeight: nat, first: nat)
    requires block.height > genesisHeight >= 1
    ensures var plan := PlanFor(saved, block, genesisHeight, first);
            && (plan.Plan? <==> block.height == genesisHeight + 1 || block.height - 1 in saved)
            && (plan.Plan? ==> HeightsAfter(plan, block.height, genesisHeight) == After(saved.Keys, block.height))
  {
    var plan, h := PlanFor(saved, block, genesisHeight, first), block.height;
    assert IsLast(saved, LastOf(saved));
    var kept := UpTo(saved, h - 1);
    if h - 1 in saved {
      assert h - 1 in kept;
      LastUnique(kept, h - 1, LastOf(kept));
    }
    if plan.Plan? {
      PlanKeepsUp(saved, block, genesisHeight, first);
      assert forall x :: x in HeightsAfter(plan, h, genesisHeight) <==> x in After(saved.Keys, h);
    }
  }

  // ---------- When the totals are right ----------

  ghost predicate IsRight(blocks: seq<Incoming>)
    requires |blocks| > 0
  {
    var last := blocks[|blocks| - 1];
    RunTotals(blocks) == Sum(last.node.states(last.block.height))
  }

  // A block that is not below the next one has to leave as many coins as the next one starts from.
  ghost predicate Continues(prev: Incoming, next: Incoming) {
    next.block.height <= prev.block.height ||
    Sum(prev.node.states(prev.block.height)) == Sum(next.node.states(next.block.height - 1))
  }

  ghost predicate AllRight(blocks: seq<Incoming>) {
    |blocks| == 0 || (AllRight(blocks[..|blocks| - 1]) && IsRight(blocks))
  }

  ghost predicate AllContinue(blocks: seq<Incoming>) {
    |blocks| <= 1 || (AllContinue(blocks[..|blocks| - 1]) && Continues(blocks[|blocks| - 2], blocks[|blocks| - 1]))
  }

  // The totals are right after every block exactly if every block continues the one before it.
  lemma {:induction false} TotalsAreRight(blocks: seq<Incoming>)
    ensures AllRight(blocks) <==> AllContinue(blocks)
  {
    hide Sum;
    if |blocks| > 0 {
      TotalsAreRight(blocks[..|blocks| - 1]);
    }
  }

  // For a block above the last indexed one: the totals come out right exactly if those at hand are the
  // sums of the state that the block starts from.
  lemma JumpIsRight(state: State, i: Incoming)
    requires state.totals.Some? && i.block.height > state.lastIndexedHeight
    ensures
      var before, after := i.node.states(i.block.height - 1), i.node.states(i.block.height);
      Moved(BaseFrom(state, i), before, after) == Sum(after) <==> state.totals.value == Sum(before)
  {
    hide Sum;
  }

  function Constantly(m: Accounts): nat -> Accounts {
    (h: nat) => m
  }

  // A chain without coins from height 9 on, after one with some at height 2.
  function NewChain(coins: int): seq<Incoming> {
    [Incoming(Block(2, {}), Node(1, Constantly(map[0 := Account(coins, 0)]))), Incoming(Block(10, {}), Node(9, Constantly(map[])))]
  }

  // The totals of the old chain are taken over by a new one that starts above the last indexed block.
  lemma StaleTotals(coins: int)
    requires coins != 0
    ensures forall i | i in NewChain(coins) :: IsIncoming(i)
    ensures AllCanIndex({1}, NewChain(coins)) && !IsRight(NewChain(coins))
  {
    var m: Accounts, blocks := map[0 := Account(coins, 0)], NewChain(coins);
    assert blocks[..1] == [blocks[0]] && [blocks[0]][..0] == [];
    SumWithout(Balances(m), m.Keys, 0);
    assert m.Keys - {0} == {};
    assert Sum(m).balance == coins && Sum(map[]).balance == 0;
    assert RunTotals([blocks[0]]).balance == coins;
    assert RunTotals(blocks).balance == coins;
  }

  // The genesis block of a new chain is saved exactly if the database does not end right there,
  // unless the block counts as the very first and a block of that height is saved already.
  lemma GenesisSaved(saved: Saved, block: Block, genesisHeight: nat, first: nat)
    requires block.height > genesisHeight >= 1
    ensures var plan, last := PlanFor(saved, block, genesisHeight, first), LastOf(saved);
            plan.Plan? && plan.withGenesis <==>
              && block.height == genesisHeight + 1
              && last != genesisHeight
              && !(last > genesisHeight && block.height == first && genesisHeight in saved)
  {
    var last := LastOf(saved);
    if block.height == genesisHeight + 1 && last > genesisHeight {
      var kept := UpTo(saved, genesisHeight);
      if genesisHeight in saved {
        assert genesisHeight in kept;
        LastUnique(kept, genesisHeight, LastOf(kept));
      }
    }
  }
}

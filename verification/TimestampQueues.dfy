/**
 The timestamps of mempool actions, kept until they are saved. Listeners add to the queues at any time,
 while one saver at a time takes all four, saves them together, and puts them back when that fails.
 */
module TimestampQueues {
  datatype Timestamp = Timestamp(address: string, epoch: nat, time: int)

  // Flip key packages, flip keys, answers hashes and short answers: a queue and a listener each.
  const KINDS: nat := 4

  type Kind = k: nat | k < KINDS

  // The steps of a round of saving: taking the four queues, saving, and putting the four queues back.
  const STEPS: nat := 2 * KINDS + 1

  // What the listener of a queue adds just before a step: any interleaving of the listeners with the saver.
  // Before a step that is not taken, it adds while the saver sleeps.
  type Arrivals = (nat, Kind) -> seq<Timestamp>

  // ---------- One queue ----------

  // taken: what the saver holds of the queue.
  datatype Contents = Contents(received: seq<Timestamp>, saved: seq<Timestamp>, cached: seq<Timestamp>, taken: seq<Timestamp>) {
    function Arrive(added: seq<Timestamp>): Contents {
      this.(received := received + added, cached := cached + added)
    }

    function Take(): Contents {
      this.(cached := [], taken := cached)
    }

    function PutBack(): Contents {
      this.(cached := cached + taken, taken := [])
    }

    function Save(): Contents {
      this.(saved := saved + taken, taken := [])
    }

    // Whatever was received is saved, cached or in the saver's hands, as often as it was received.
    ghost predicate IsConserved() {
      multiset(received) == multiset(saved) + multiset(cached) + multiset(taken)
    }
  }

  const NOTHING := Contents([], [], [], [])

  // Step n of the saver, for queue k.
  function Step(c: Contents, arrivals: Arrivals, k: Kind, n: nat): Contents {
    var c := c.Arrive(arrivals(n, k));
    if n == k then c.Take() else if n == KINDS + 1 + k then c.PutBack() else c
  }

  function Steps(c: Contents, arrivals: Arrivals, k: Kind, first: nat, end: nat): Contents
    decreases end
  {
    if end <= first then c else Step(Steps(c, arrivals, k, first, end - 1), arrivals, k, end - 1)
  }

  // A round of saving, for queue k.
  function Round(c: Contents, arrivals: Arrivals, k: Kind, isSaved: bool): Contents {
    var c := Steps(c, arrivals, k, 0, KINDS + 1);
    Steps(if isSaved then c.Save() else c, arrivals, k, KINDS + 1, STEPS)
  }

  // What is added to queue k before the steps from `first` up to, but not including, `end`.
  function Between(arrivals: Arrivals, k: Kind, first: nat, end: nat): seq<Timestamp>
    decreases end
  {
    if end <= first then [] else Between(arrivals, k, first, end - 1) + arrivals(end - 1, k)
  }

  lemma {:induction false} BetweenSplits(arrivals: Arrivals, k: Kind, first: nat, mid: nat, end: nat)
    requires first <= mid <= end
    ensures Between(arrivals, k, first, end) == Between(arrivals, k, first, mid) + Between(arrivals, k, mid, end)
    decreases end
  {
    if mid < end {
      BetweenSplits(arrivals, k, first, mid, end - 1);
    }
  }

  lemma ArriveTwice(c: Contents, a: seq<Timestamp>, b: seq<Timestamp>)
    ensures c.Arrive(a).Arrive(b) == c.Arrive(a + b)
  {
    assert c.received + a + b == c.received + (a + b) && c.cached + a + b == c.cached + (a + b);
  }

  // Steps in which queue k is neither taken nor put back only receive.
  lemma {:induction false} StepsReceive(c: Contents, arrivals: Arrivals, k: Kind, first: nat, end: nat)
    requires first <= end && !(first <= k < end) && !(first <= KINDS + 1 + k < end)
    ensures Steps(c, arrivals, k, first, end) == c.Arrive(Between(arrivals, k, first, end))
    decreases end
  {
    if first < end {
      StepsReceive(c, arrivals, k, first, end - 1);
      ArriveTwice(c, Between(arrivals, k, first, end - 1), arrivals(end - 1, k));
    } else {
      assert c.Arrive([]) == c;
    }
  }

  lemma {:induction false} StepsSplit(c: Contents, arrivals: Arrivals, k: Kind, first: nat, mid: nat, end: nat)
    requires first <= mid <= end
    ensures Steps(c, arrivals, k, first, end) == Steps(Steps(c, arrivals, k, first, mid), arrivals, k, mid, end)
    decreases end
  {
    if mid < end {
      StepsSplit(c, arrivals, k, first, mid, end - 1);
    }
  }

  // Before saving, the saver holds what was cached and what came before it took the queue.
  lemma TakenFirst(c: Contents, arrivals: Arrivals, k: Kind)
    ensures Steps(c, arrivals, k, 0, KINDS + 1) ==
            Contents(c.received + Between(arrivals, k, 0, KINDS + 1), c.saved,
                     Between(arrivals, k, k + 1, KINDS + 1), c.cached + Between(arrivals, k, 0, k + 1))
  {
    hide Steps;
    StepsSplit(c, arrivals, k, 0, k, KINDS + 1);
    StepsReceive(c, arrivals, k, 0, k);
    var before := c.Arrive(Between(arrivals, k, 0, k));
    StepsSplit(before, arrivals, k, k, k + 1, KINDS + 1);
    OneStep(before, arrivals, k, k);
    ArriveTwice(c, Between(arrivals, k, 0, k), arrivals(k, k));
    var taken := c.Arrive(Between(arrivals, k, 0, k + 1)).Take();
    assert Step(before, arrivals, k, k) == taken;
    StepsReceive(taken, arrivals, k, k + 1, KINDS + 1);
    BetweenSplits(arrivals, k, 0, k + 1, KINDS + 1);
  }

  lemma OneStep(c: Contents, arrivals: Arrivals, k: Kind, n: nat)
    ensures Steps(c, arrivals, k, n, n + 1) == Step(c, arrivals, k, n)
  {
    assert Steps(c, arrivals, k, n, n) == c;
  }

  // What is still held after saving is put back, behind what came before that.
  lemma PutBackLast(c: Contents, arrivals: Arrivals, k: Kind)
    ensures Steps(c, arrivals, k, KINDS + 1, STEPS) ==
            Contents(c.received + Between(arrivals, k, KINDS + 1, STEPS), c.saved,
                     c.cached + Between(arrivals, k, KINDS + 1, KINDS + 2 + k) + c.taken + Between(arrivals, k, KINDS + 2 + k, STEPS), [])
  {
    hide Steps;
    var n := KINDS + 1 + k;
    StepsSplit(c, arrivals, k, KINDS + 1, n, STEPS);
    StepsReceive(c, arrivals, k, KINDS + 1, n);
    var before := c.Arrive(Between(arrivals, k, KINDS + 1, n));
    StepsSplit(before, arrivals, k, n, n + 1, STEPS);
    OneStep(before, arrivals, k, n);
    ArriveTwice(c, Between(arrivals, k, KINDS + 1, n), arrivals(n, k));
    var back := c.Arrive(Between(arrivals, k, KINDS + 1, n + 1)).PutBack();
    assert Step(before, arrivals, k, n) == back;
    StepsReceive(back, arrivals, k, n + 1, STEPS);
    BetweenSplits(arrivals, k, KINDS + 1, n + 1, STEPS);
  }

  // A round receives all that arrives. One that succeeds saves what was cached and what came before the
  // queue was taken; one that fails saves nothing, and puts this behind what came meanwhile.
  lemma RoundIs(c: Contents, arrivals: Arrivals, k: Kind, isSaved: bool)
    ensures
      var before, held := Between(arrivals, k, 0, k + 1), Between(arrivals, k, k + 1, KINDS + 2 + k);
      var r := Round(c, arrivals, k, isSaved);
      && r.received == c.received + Between(arrivals, k, 0, STEPS)
      && r.saved == c.saved + (if isSaved then c.cached + before else [])
      && r.cached == held + (if isSaved then [] else c.cached + before) + Between(arrivals, k, KINDS + 2 + k, STEPS)
      && r.taken == []
  {
    hide Steps, Between;
    var c' := Steps(c, arrivals, k, 0, KINDS + 1);
    TakenFirst(c, arrivals, k);
    PutBackLast(if isSaved then c'.Save() else c', arrivals, k);
    BetweenSplits(arrivals, k, 0, KINDS + 1, STEPS);
    BetweenSplits(arrivals, k, k + 1, KINDS + 1, KINDS + 2 + k);
  }

  lemma RoundConserves(c: Contents, arrivals: Arrivals, k: Kind, isSaved: bool)
    requires c.IsConserved() && c.taken == []
    ensures Round(c, arrivals, k, isSaved).IsConserved() && Round(c, arrivals, k, isSaved).taken == []
  {
    hide Round, Between;
    RoundIs(c, arrivals, k, isSaved);
    BetweenSplits(arrivals, k, 0, k + 1, STEPS);
    BetweenSplits(arrivals, k, k + 1, KINDS + 2 + k, STEPS);
  }

  // ---------- All rounds ----------

  datatype RoundOf = RoundOf(arrivals: Arrivals, isSaved: bool)

  function Rounds(rounds: seq<RoundOf>, k: Kind): Contents {
    if |rounds| == 0 then NOTHING
    else
      var last := rounds[|rounds| - 1];
      Round(Rounds(rounds[..|rounds| - 1], k), last.arrivals, k, last.isSaved)
  }

  // All that the listener of queue k has sent.
  function Sent(rounds: seq<RoundOf>, k: Kind): seq<Timestamp> {
    if |rounds| == 0 then []
    else Sent(rounds[..|rounds| - 1], k) + Between(rounds[|rounds| - 1].arrivals, k, 0, STEPS)
  }

  // Whatever the interleaving, and whichever rounds fail: what is saved and what is cached is together
  // exactly what was sent, and a round that succeeds leaves nothing of the rounds before it.
  lemma {:induction false} RoundsConserve(rounds: seq<RoundOf>, k: Kind)
    ensures
      var c := Rounds(rounds, k);
      && c.received == Sent(rounds, k) && c.taken == [] && c.IsConserved()
      && (|rounds| > 0 && rounds[|rounds| - 1].isSaved ==> multiset(Sent(rounds[..|rounds| - 1], k)) <= multiset(c.saved))
      && ((forall r | r in rounds :: !r.isSaved) ==> c.saved == [])
  {
    if |rounds| > 0 {
      hide Round, Between;
      var init, last := rounds[..|rounds| - 1], rounds[|rounds| - 1];
      RoundsConserve(init, k);
      RoundIs(Rounds(init, k), last.arrivals, k, last.isSaved);
      RoundConserves(Rounds(init, k), last.arrivals, k, last.isSaved);
      assert last in rounds && forall r | r in init :: r in rounds;
    }
  }

  // ---------- The queues ----------

  class Queue {
    var cached: seq<Timestamp>
    ghost var received: seq<Timestamp>
    ghost var saved: seq<Timestamp>

    ghost function Value(taken: seq<Timestamp>): Contents
      reads this
    {
      Contents(received, saved, cached, taken)
    }

    constructor ()
      ensures Value([]) == NOTHING
    {
      cached, received, saved := [], [], [];
    }

    // A listener adds one timestamp.
    method Add(timestamp: Timestamp)
      modifies this`cached, this`received
      ensures forall taken :: Value(taken) == old(Value(taken)).Arrive([timestamp])
    {
      cached := cached + [timestamp];
      received := received + [timestamp];
    }

    // The listener adds several timestamps, one after the other.
    method Listen(added: seq<Timestamp>)
      modifies this`cached, this`received
      ensures forall taken :: Value(taken) == old(Value(taken)).Arrive(added)
    {
      for i := 0 to |added|
        invariant forall taken :: Value(taken) == old(Value(taken)).Arrive(added[..i])
      {
        assert added[..i + 1] == added[..i] + [added[i]];
        Add(added[i]);
      }
      assert added[..|added|] == added;
    }

    // The saver puts back what it took.
    method AddAll(timestamps: seq<Timestamp>)
      modifies this`cached
      ensures Value([]) == old(Value(timestamps)).PutBack()
    {
      cached := cached + timestamps;
    }

    method Take() returns (res: seq<Timestamp>)
      modifies this`cached
      ensures Value(res) == old(Value([])).Take()
    {
      res := cached;
      cached := [];
    }

    ghost method Save(timestamps: seq<Timestamp>)
      modifies this`saved
      ensures Value([]) == old(Value(timestamps)).Save()
    {
      saved := saved + timestamps;
    }
  }

  class Indexer {
    const queues: seq<Queue>

    ghost predicate HasQueues() {
      |queues| == KINDS && forall i, j | 0 <= i < j < KINDS :: queues[i] != queues[j]
    }

    // Queue i with what the saver holds of it.
    ghost function Value(i: Kind, data: seq<seq<Timestamp>>): Contents
      requires HasQueues() && |data| == KINDS
      reads queues
    {
      queues[i].Value(data[i])
    }

    constructor ()
      ensures HasQueues() && fresh(queues)
      ensures forall i: Kind :: queues[i].Value([]) == NOTHING
    {
      var packages := new Queue();
      var keys := new Queue();
      var hashes := new Queue();
      var answers := new Queue();
      queues := [packages, keys, hashes, answers];
    }

    // The listeners at work before step n.
    method Listen(arrivals: Arrivals, n: nat, ghost data: seq<seq<Timestamp>>)
      requires HasQueues() && |data| == KINDS
      modifies queues
      ensures forall i: Kind :: Value(i, data) == old(Value(i, data)).Arrive(arrivals(n, i))
    {
      for k := 0 to KINDS
        invariant forall i: Kind :: Value(i, data) == if i < k then old(Value(i, data)).Arrive(arrivals(n, i)) else old(Value(i, data))
      {
        queues[k].Listen(arrivals(n, k));
      }
    }

    method TakeAll(arrivals: Arrivals) returns (data: seq<seq<Timestamp>>)
      requires HasQueues()
      modifies queues
      ensures |data| == KINDS
      ensures forall i: Kind :: Value(i, data) == Steps(old(Value(i, NO_DATA)), arrivals, i, 0, KINDS)
    {
      data := NO_DATA;
      for n := 0 to KINDS
        invariant |data| == KINDS && forall i: Kind | n <= i :: data[i] == []
        invariant forall i: Kind :: Value(i, data) == Steps(old(Value(i, NO_DATA)), arrivals, i, 0, n)
      {
        Listen(arrivals, n, data);
        var timestamps := queues[n].Take();
        data := data[n := timestamps];
      }
    }

    method PutBack(arrivals: Arrivals, data: seq<seq<Timestamp>>)
      requires HasQueues() && |data| == KINDS
      modifies queues
      ensures forall i: Kind :: Value(i, NO_DATA) == Steps(old(Value(i, data)), arrivals, i, KINDS + 1, STEPS)
    {
      ghost var held := data;
      for n := 0 to KINDS
        invariant |held| == KINDS && forall i: Kind :: held[i] == if i < n then [] else data[i]
        invariant forall i: Kind :: Value(i, held) == Steps(old(Value(i, data)), arrivals, i, KINDS + 1, KINDS + 1 + n)
      {
        Listen(arrivals, KINDS + 1 + n, held);
        queues[n].AddAll(data[n]);
        held := held[n := []];
      }
      assert held == NO_DATA;
    }

    // The database saves everything at once.
    ghost method SaveMemPoolData(data: seq<seq<Timestamp>>)
      requires HasQueues() && |data| == KINDS
      modifies queues
      ensures forall i: Kind :: Value(i, NO_DATA) == old(Value(i, data)).Save()
    {
      var held := data;
      for n := 0 to KINDS
        invariant |held| == KINDS && forall i: Kind :: held[i] == if i < n then [] else data[i]
        invariant forall i: Kind :: Value(i, held) == if i < n then old(Value(i, data)).Save() else old(Value(i, data))
      {
        queues[n].Save(data[n]);
        held := held[n := []];
      }
      assert held == NO_DATA;
    }

    // Takes everything and saves it, or puts it back.  The steps before `end` are taken; in those that
    // remain of the round nothing but receiving is left to do.
    method SaveData(arrivals: Arrivals, isSaved: bool) returns (end: nat)
      requires HasQueues()
      modifies queues
      ensures KINDS <= end <= STEPS
      ensures forall i: Kind :: Steps(Value(i, NO_DATA), arrivals, i, end, STEPS) == Round(old(Value(i, NO_DATA)), arrivals, i, isSaved)
    {
      hide Step;
      var data := TakeAll(arrivals);
      if data == NO_DATA {
        forall i: Kind
          ensures Steps(Value(i, NO_DATA), arrivals, i, KINDS, STEPS) == Round(old(Value(i, NO_DATA)), arrivals, i, isSaved)
        {
          NothingToSave(Value(i, NO_DATA), arrivals, i);
          StepsSplit(Value(i, NO_DATA), arrivals, i, KINDS, KINDS + 1, STEPS);
          StepsSplit(old(Value(i, NO_DATA)), arrivals, i, 0, KINDS, KINDS + 1);
        }
        return KINDS;
      }
      Listen(arrivals, KINDS, data);
      forall i: Kind
        ensures Value(i, data) == Steps(old(Value(i, NO_DATA)), arrivals, i, 0, KINDS + 1)
      {
        SavingStep(Steps(old(Value(i, NO_DATA)), arrivals, i, 0, KINDS), arrivals, i);
      }
      if isSaved {
        SaveMemPoolData(data);
        return KINDS + 1;
      }
      PutBack(arrivals, data);
      return STEPS;
    }

    // A round of saving, and the listeners' work until the next one.
    method DoRound(arrivals: Arrivals, isSaved: bool)
      requires HasQueues()
      modifies queues
      ensures forall i: Kind :: Value(i, NO_DATA) == Round(old(Value(i, NO_DATA)), arrivals, i, isSaved)
    {
      hide Round;
      var end := SaveData(arrivals, isSaved);
      for n := end to STEPS
        invariant forall i: Kind :: Steps(Value(i, NO_DATA), arrivals, i, n, STEPS) == Round(old(Value(i, NO_DATA)), arrivals, i, isSaved)
      {
        label before:
        Listen(arrivals, n, NO_DATA);
        forall i: Kind
          ensures Steps(Value(i, NO_DATA), arrivals, i, n + 1, STEPS) == old@before(Steps(Value(i, NO_DATA), arrivals, i, n, STEPS))
        {
          OnlyReceives(old@before(Value(i, NO_DATA)), arrivals, i, n);
        }
      }
    }
  }

  const NO_DATA: seq<seq<Timestamp>> := [[], [], [], []]

  lemma SavingStep(c: Contents, arrivals: Arrivals, k: Kind)
    ensures Step(c, arrivals, k, KINDS) == c.Arrive(arrivals(KINDS, k))
  {}

  lemma NothingToSave(c: Contents, arrivals: Arrivals, k: Kind)
    requires c.taken == []
    ensures var c' := Steps(c, arrivals, k, KINDS, KINDS + 1); c'.Save() == c'
  {
    OneStep(c, arrivals, k, KINDS);
  }

  // With nothing in the saver's hands, the steps after taking only receive.
  lemma OnlyReceives(c: Contents, arrivals: Arrivals, k: Kind, n: nat)
    requires c.taken == [] && KINDS <= n < STEPS
    ensures Steps(c, arrivals, k, n, STEPS) == Steps(c.Arrive(arrivals(n, k)), arrivals, k, n + 1, STEPS)
  {
    StepsSplit(c, arrivals, k, n, n + 1, STEPS);
    OneStep(c, arrivals, k, n);
    var c' := c.Arrive(arrivals(n, k));
    assert c'.PutBack() == c' by {
      assert c'.cached + [] == c'.cached;
    }
  }

  // Over any rounds of saving, each of which may fail, with listeners adding at any moment: saved and
  // cached are together exactly what was sent.
  method Run(rounds: seq<RoundOf>) returns (indexer: Indexer)
    ensures indexer.HasQueues()
    ensures forall k: Kind :: indexer.queues[k].Value([]) == Rounds(rounds, k)
    ensures forall k: Kind ::
              multiset(indexer.queues[k].saved) + multiset(indexer.queues[k].cached) == multiset(Sent(rounds, k))
  {
    indexer := new Indexer();
    for i := 0 to |rounds|
      invariant indexer.HasQueues() && fresh(indexer.queues)
      invariant forall k: Kind :: indexer.Value(k, NO_DATA) == Rounds(rounds[..i], k)
    {
      assert rounds[..i + 1][..i] == rounds[..i];
      indexer.DoRound(rounds[i].arrivals, rounds[i].isSaved);
    }
    assert rounds[..|rounds|] == rounds;
    forall k: Kind
      ensures multiset(indexer.queues[k].saved) + multiset(indexer.queues[k].cached) == multiset(Sent(rounds, k))
    {
      RoundsConserve(rounds, k);
      assert indexer.Value(k, NO_DATA) == indexer.queues[k].Value([]);
    }
  }
}

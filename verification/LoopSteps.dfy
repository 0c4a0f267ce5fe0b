/**
 The loop body as steps of the transition system: a turn of `IngestionLoop.RunOnce`, finished or
 thrown half-way, is a run of `Pipeline` that ends in the same table, memory and ack.
 */
module LoopSteps {
  import opened Wrappers
  import opened AuditTable
  import opened Ingestion
  import opened Pipeline
  import opened Safety

  lemma {:induction false} RunAppend(w: World, s: State, first: seq<Step>, then': seq<Step>)
    requires Run(w, s, first).Some?
    ensures Run(w, s, first + then') == Run(w, Run(w, s, first).value, then')
    decreases |first|
  {
    if first == [] {
      assert first + then' == then';
    } else {
      RunAppend(w, Apply(w, s, first[0]), first[1..], then');
      assert (first + then')[1..] == first[1..] + then';
    }
  }

  lemma RunOne(w: World, s: State, step: Step)
    requires Enabled(w, s, step)
    ensures Run(w, s, [step]) == Some(Apply(w, s, step))
  {
    assert [step][1..] == [];
  }

  // ---------------------------------------------------------------------------------------------
  // Fetching
  // ---------------------------------------------------------------------------------------------

  function Delivers(sequences: seq<nat>): seq<Step> {
    if sequences == [] then []
    else Delivers(sequences[..|sequences| - 1]) + [Deliver(sequences[|sequences| - 1])]
  }

  /** What the consumer hands over when it delivers these sequences. */
  function Handed(w: World, base: nat, sequences: seq<nat>): seq<Delivery>
    requires forall q :: q in sequences ==> 0 <= Position(base, q) < |w.log|
  {
    if sequences == [] then []
    else
      var last := sequences[|sequences| - 1];
      Handed(w, base, sequences[..|sequences| - 1]) + [Delivery(last, w.log[Position(base, last)])]
  }

  lemma {:induction false} RunPrefix(w: World, s: State, first: seq<Step>, then': seq<Step>)
    requires Run(w, s, first + then').Some?
    ensures Run(w, s, first).Some?
    decreases |first|
  {
    if first != [] {
      assert (first + then')[0] == first[0] && (first + then')[1..] == first[1..] + then';
      RunPrefix(w, Apply(w, s, first[0]), first[1..], then');
    }
  }

  /** Delivering one message after another fills the inbox as the fetching loop does. */
  lemma {:induction false} FetchInSteps(w: World, s: State, sequences: seq<nat>)
    requires s.inbox == map[] && Run(w, s, Delivers(sequences)).Some?
    ensures forall q :: q in sequences ==> 0 <= Position(s.base, q) < |w.log|
    ensures
      var s' := Run(w, s, Delivers(sequences)).value;
      && s'.inbox == AcceptAll(Handed(w, s.base, sequences), s.memory.lastStreamSequence)
      && s' == s.(inbox := s'.inbox, cursor := s'.cursor)
    decreases |sequences|
  {
    if sequences != [] {
      var front, q := sequences[..|sequences| - 1], sequences[|sequences| - 1];
      RunPrefix(w, s, Delivers(front), [Deliver(q)]);
      RunAppend(w, s, Delivers(front), [Deliver(q)]);
      FetchInSteps(w, s, front);
      var mid := Run(w, s, Delivers(front)).value;
      RunLast(w, mid, q);
      assert sequences == front + [q];
      OneMoreHanded(w, s.base, front, q, s.memory.lastStreamSequence);
    }
  }

  lemma RunLast(w: World, s: State, q: nat)
    requires Run(w, s, [Deliver(q)]).Some?
    ensures Enabled(w, s, Deliver(q)) && Run(w, s, [Deliver(q)]) == Some(Apply(w, s, Deliver(q)))
  {
    RunOne(w, s, Deliver(q));
  }

  lemma OneMoreHanded(w: World, base: nat, front: seq<nat>, q: nat, last: Option<nat>)
    requires forall k :: k in front + [q] ==> 0 <= Position(base, k) < |w.log|
    ensures forall k :: k in front ==> 0 <= Position(base, k) < |w.log|
    ensures AcceptAll(Handed(w, base, front + [q]), last)
      == Accept(AcceptAll(Handed(w, base, front), last), last, Delivery(q, w.log[Position(base, q)]))
  {
    assert (front + [q])[..|front|] == front;
    assert forall k :: k in front ==> k in front + [q];
    assert q in front + [q];
    var d := Delivery(q, w.log[Position(base, q)]);
    assert Handed(w, base, front + [q]) == Handed(w, base, front) + [d];
    assert (Handed(w, base, front) + [d])[..|Handed(w, base, front)|] == Handed(w, base, front);
  }

  // ---------------------------------------------------------------------------------------------
  // Persisting
  // ---------------------------------------------------------------------------------------------

  function Inserts(n: nat): seq<Step> {
    if n == 0 then [] else [InsertBatch] + Inserts(n - 1)
  }

  function AfterInserts(s: State, n: nat): State
    requires s.phase.Persisting? && n <= |s.phase.batches|
  {
    s.(rows := InsertAll(s.rows, Flatten(s.phase.batches[..n])), phase := Persisting(s.phase.batches[n..], s.phase.ack))
  }

  lemma {:induction false} InsertsInSteps(w: World, s: State, n: nat)
    requires s.phase.Persisting? && n <= |s.phase.batches|
    ensures Run(w, s, Inserts(n)) == Some(AfterInserts(s, n))
    decreases n
  {
    var batches := s.phase.batches;
    if n == 0 {
      assert batches[..0] == [] && batches[0..] == batches;
    } else {
      InsertsInSteps(w, Apply(w, s, InsertBatch), n - 1);
      assert Inserts(n)[0] == InsertBatch && Inserts(n)[1..] == Inserts(n - 1);
      AfterOneMore(w, s, n);
    }
  }

  lemma AfterOneMore(w: World, s: State, n: nat)
    requires s.phase.Persisting? && 0 < n <= |s.phase.batches|
    ensures AfterInserts(Apply(w, s, InsertBatch), n - 1) == AfterInserts(s, n)
  {
    var batches := s.phase.batches;
    assert batches[1..][..n - 1] == batches[..n][1..] && batches[1..][n - 1..] == batches[n..];
    FlattenHead(batches[..n]);
    InsertAllConcat(s.rows, batches[0], Flatten(batches[..n][1..]));
  }

  lemma StitchedAndInserted(w: World, s: State, turn: Turn, n: nat)
    requires s.phase == Fetching && w.config.insertBatchSize > 0 && TakeTurn(w.config, s.memory, s.inbox) == Success(turn)
    requires n <= |Chunk(turn.kept, w.config.insertBatchSize)|
    ensures
      var batches := Chunk(turn.kept, w.config.insertBatchSize);
      Run(w, s, [FinishFetch] + Inserts(n)) ==
      Some(s.(memory := turn.memory, rows := InsertAll(s.rows, Flatten(batches[..n])), phase := Persisting(batches[n..], turn.ack)))
  {
    var s' := Apply(w, s, FinishFetch);
    RunOne(w, s, FinishFetch);
    RunAppend(w, s, [FinishFetch], Inserts(n));
    InsertsInSteps(w, s', n);
  }

  /** Finishing a turn puts its ack on its way, if that is a message of the fetch, and nothing else. */
  lemma FinishTurnSends(w: World, s: State, q: nat)
    requires Enabled(w, s, FinishTurn)
    ensures q in Apply(w, s, FinishTurn).inflight <==>
      q in s.inflight || (s.phase.ack == Some(q) && q != 0 && q in s.inbox)
  {
  }

  /** A turn that ends: the table has everything kept, and the ack is sent if it names a fetched message. */
  lemma TurnInSteps(w: World, s: State, turn: Turn)
    requires s.phase == Fetching && w.config.insertBatchSize > 0 && TakeTurn(w.config, s.memory, s.inbox) == Success(turn)
    ensures
      var steps := [FinishFetch] + Inserts(|Chunk(turn.kept, w.config.insertBatchSize)|) + [FinishTurn];
      var sent := if turn.ack.Some? && turn.ack.value != 0 && turn.ack.value in s.inbox then {turn.ack.value} else {};
      Run(w, s, steps) ==
      Some(s.(memory := turn.memory, rows := InsertAll(s.rows, turn.kept),
              inflight := s.inflight + sent, inbox := map[], phase := Fetching))
  {
    var batches := Chunk(turn.kept, w.config.insertBatchSize);
    var inserting := [FinishFetch] + Inserts(|batches|);
    StitchedAndInserted(w, s, turn, |batches|);
    ChunksCover(turn.kept, w.config.insertBatchSize);
    assert batches[..|batches|] == batches && batches[|batches|..] == [];
    RunAppend(w, s, inserting, [FinishTurn]);
    RunOne(w, Run(w, s, inserting).value, FinishTurn);
  }

  /** A turn that throws at its n-th batch: the batches before it stay, and the worker starts afresh. */
  lemma ThrowInSteps(w: World, s: State, turn: Turn, n: nat)
    requires s.phase == Fetching && w.config.insertBatchSize > 0 && TakeTurn(w.config, s.memory, s.inbox) == Success(turn)
    requires n < |Chunk(turn.kept, w.config.insertBatchSize)|
    ensures
      var batches := Chunk(turn.kept, w.config.insertBatchSize);
      Run(w, s, [FinishFetch] + Inserts(n) + [Crash]) ==
      Some(Booted(s.(rows := InsertAll(s.rows, Flatten(batches[..n])))))
  {
    var inserting := [FinishFetch] + Inserts(n);
    StitchedAndInserted(w, s, turn, n);
    RunAppend(w, s, inserting, [Crash]);
    RunOne(w, Run(w, s, inserting).value, Crash);
  }
}

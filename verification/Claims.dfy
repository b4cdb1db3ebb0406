/** The workers of `add` and `confirm`, which claim flows with an atomic counter (memory.go). */
module Claims {
  import opened Wrappers
  import Seqs

  const CONCURRENCY: nat := 32
  const STEP: nat := 250

  /** A flow: the index stamped into its payload, and the number of its latest exchange. */
  datatype Flow = Flow(index: nat, sequence: nat)

  /** `add` opens the flows from `previous` on; `confirm` exchanges all of them once more. */
  datatype Operation = Add(previous: nat) | Confirm

  /** Between two steps a worker has no index, or has one and is this far with it. */
  datatype Worker =
    | Idle
    | Took(index: nat)
    | Cleared(index: nat)
    | Exchanging(index: nat)
    | Confirmed(index: nat)
    | Exited

  /** `next` is the shared counter; `begun` lists, in order, the indexes whose exchange was begun. */
  datatype Pool = Pool(
    next: nat, workers: seq<Worker>, flows: seq<Option<Flow>>, canceled: bool, begun: seq<nat>)

  /** Cancel comes from outside; each of the others is one atomic step of a worker. */
  datatype Move =
    | Cancel
    | Take(worker: nat)
    | Leave(worker: nat)
    | Clear(worker: nat)
    | Begin(worker: nat)
    | Fail(worker: nat)
    | Succeed(worker: nat)
    | Store(worker: nat)

  function First(operation: Operation): nat { if operation.Add? then operation.previous else 0 }

  function Min(a: nat, b: nat): nat { if a < b then a else b }

  /** The pool when the workers are started; `add` has already extended the list of flows to `count`. */
  function Started(operation: Operation, flows: seq<Option<Flow>>): Pool
    requires First(operation) <= |flows|
  {
    Pool(First(operation), seq(Min(CONCURRENCY, |flows| - First(operation)), _ => Idle), flows, false, [])
  }

  predicate Enabled(operation: Operation, p: Pool, move: Move) {
    move.Cancel? || (move.worker < |p.workers| && MayMove(operation, p, move, p.workers[move.worker]))
  }

  predicate MayMove(operation: Operation, p: Pool, move: Move, worker: Worker) {
    match move
    case Cancel => true
    case Take(_) => worker.Idle?
    case Leave(_) => worker.Took? && (worker.index >= |p.flows| || p.canceled)
    case Clear(_) => worker.Took? && worker.index < |p.flows| && !p.canceled
    case Begin(_) => worker.Cleared?
    case Fail(_) => worker.Exchanging? || (operation.Add? && worker.Cleared?)
    case Succeed(_) => worker.Exchanging?
    case Store(_) => worker.Confirmed?
  }

  function Become(p: Pool, w: nat, worker: Worker): Pool
    requires w < |p.workers|
  {
    p.(workers := p.workers[w := worker])
  }

  /** `exchange` raises the number first, and before that `confirm` reads the flow. */
  function Raised(flow: Option<Flow>): Option<Flow> {
    match flow
    case None => None
    case Some(f) => Some(f.(sequence := f.sequence + 1))
  }

  function After(operation: Operation, p: Pool, move: Move): Pool
    requires Enabled(operation, p, move)
  {
    match move
    case Cancel => p.(canceled := true)
    case Take(w) => Become(p, w, Took(p.next)).(next := p.next + 1)
    case Leave(w) => Become(p, w, Exited)
    case Clear(w) => Become(p, w, Cleared(p.workers[w].index))
    case Begin(w) =>
      var i := p.workers[w].index;
      var q := Become(p, w, Exchanging(i)).(begun := p.begun + [i]);
      if operation.Confirm? && i < |p.flows| then q.(flows := p.flows[i := Raised(p.flows[i])]) else q
    case Fail(w) => Become(p, w, Exited).(canceled := true)
    case Succeed(w) => Become(p, w, Confirmed(p.workers[w].index))
    case Store(w) =>
      var i := p.workers[w].index;
      var q := Become(p, w, Idle);
      if operation.Add? && i < |p.flows| then q.(flows := p.flows[i := Some(Flow(i, 1))]) else q
  }

  /** The pool after some moves, if every one of them was possible. */
  function Run(operation: Operation, p: Pool, moves: seq<Move>): Option<Pool> {
    if moves == [] then Some(p)
    else
      var before := Run(operation, p, moves[..|moves| - 1]);
      var move := moves[|moves| - 1];
      if before.Some? && Enabled(operation, before.value, move) then Some(After(operation, before.value, move)) else None
  }

  // ----- The invariant

  predicate Busy(worker: Worker) { !worker.Idle? && !worker.Exited? }

  predicate Waiting(worker: Worker) { worker.Took? || worker.Cleared? }

  predicate Holds(worker: Worker, i: nat) { Busy(worker) && worker.index == i }

  predicate Apart(v: Worker, w: Worker) { Busy(v) && Busy(w) ==> v.index != w.index }

  /** A claimed index comes from the counter, and is only used if it is one of a flow. */
  predicate Claimed(operation: Operation, next: nat, count: nat, worker: Worker) {
    Busy(worker) ==> First(operation) <= worker.index < next && (!worker.Took? ==> worker.index < count)
  }

  /** The claim of every index is held by at most one worker. */
  ghost predicate Exclusive(operation: Operation, p: Pool) {
    && First(operation) <= p.next
    && (forall w :: 0 <= w < |p.workers| ==> Claimed(operation, p.next, |p.flows|, p.workers[w]))
    && (forall v, w :: 0 <= v < w < |p.workers| ==> Apart(p.workers[v], p.workers[w]))
  }

  function Finished(operation: Operation, i: nat, flow: Option<Flow>): Option<Flow> {
    if operation.Add? then Some(Flow(i, 1)) else Raised(flow)
  }

  /** The flow at an index in the middle of a run. */
  ghost predicate FlowInv(operation: Operation, flows: seq<Option<Flow>>, p: Pool, i: nat)
    requires i < |flows| == |p.flows|
  {
    && (i < First(operation) ==> p.flows[i] == flows[i] && i !in p.begun)
    && (i >= p.next ==> p.flows[i] == flows[i] && i !in p.begun)
    && (i !in p.begun ==> p.flows[i] == flows[i])
    && (i in p.begun && operation.Confirm? ==> p.flows[i] == Raised(flows[i]))
    && (i in p.begun && operation.Add? ==> p.flows[i] == flows[i] || p.flows[i] == Some(Flow(i, 1)))
    && (First(operation) <= i < p.next && !p.canceled ==>
          || (exists w :: 0 <= w < |p.workers| && Holds(p.workers[w], i))
          || (i in p.begun && p.flows[i] == Finished(operation, i, flows[i])))
  }

  /** Every index is begun at most once, and only after it was claimed. */
  ghost predicate Once(operation: Operation, p: Pool) {
    && Seqs.Distinct(p.begun)
    && (forall i :: i in p.begun ==> First(operation) <= i < p.next && i < |p.flows|)
  }

  ghost predicate WorkerInv(p: Pool, worker: Worker) {
    && (worker.Exited? ==> p.canceled || p.next >= |p.flows|)
    && (Waiting(worker) ==> worker.index !in p.begun)
    && (worker.Exchanging? || worker.Confirmed? ==> worker.index in p.begun)
  }

  ghost predicate Inv(operation: Operation, flows: seq<Option<Flow>>, p: Pool) {
    && |p.flows| == |flows| && First(operation) <= |flows|
    && |p.workers| == Min(CONCURRENCY, |flows| - First(operation))
    && Exclusive(operation, p) && Once(operation, p)
    && (forall w :: 0 <= w < |p.workers| ==> WorkerInv(p, p.workers[w]))
    && (forall i :: 0 <= i < |flows| ==> FlowInv(operation, flows, p, i))
  }

  lemma StartedInv(operation: Operation, flows: seq<Option<Flow>>)
    requires First(operation) <= |flows|
    ensures Inv(operation, flows, Started(operation, flows))
  {
  }

  /** What a move does to the worker that makes it. */
  lemma MovedWorker(operation: Operation, p: Pool, move: Move)
    requires Enabled(operation, p, move) && move != Cancel && Claimed(operation, p.next, |p.flows|, p.workers[move.worker])
    requires First(operation) <= p.next
    ensures
      var q := After(operation, p, move);
      var before, after := p.workers[move.worker], q.workers[move.worker];
      && p.next <= q.next && |q.flows| == |p.flows|
      && q.workers == p.workers[move.worker := after]
      && Claimed(operation, q.next, |q.flows|, after)
      && (Busy(after) ==> (Busy(before) && after.index == before.index) || (move.Take? && after.index == p.next))
  {
  }

  lemma ExclusiveStep(operation: Operation, p: Pool, move: Move)
    requires Exclusive(operation, p) && Enabled(operation, p, move)
    ensures Exclusive(operation, After(operation, p, move))
  {
    if move != Cancel {
      MovedWorker(operation, p, move);
      Moved(operation, p, After(operation, p, move), move.worker);
    }
  }

  lemma Moved(operation: Operation, p: Pool, q: Pool, w: nat)
    requires Exclusive(operation, p) && w < |p.workers| == |q.workers| && q.workers == p.workers[w := q.workers[w]]
    requires p.next <= q.next && |q.flows| == |p.flows| && Claimed(operation, q.next, |q.flows|, q.workers[w])
    requires Busy(q.workers[w]) ==>
      (Busy(p.workers[w]) && q.workers[w].index == p.workers[w].index) || q.workers[w].index == p.next
    ensures Exclusive(operation, q)
  {
  }

  lemma OnceStep(operation: Operation, p: Pool, move: Move)
    requires Exclusive(operation, p) && Once(operation, p) && Enabled(operation, p, move)
    requires move.Begin? ==> WorkerInv(p, p.workers[move.worker])
    ensures Once(operation, After(operation, p, move))
  {
  }

  lemma WorkerStep(operation: Operation, p: Pool, move: Move, w: nat)
    requires Exclusive(operation, p) && Once(operation, p) && Enabled(operation, p, move)
    requires w < |p.workers| && WorkerInv(p, p.workers[w])
    ensures WorkerInv(After(operation, p, move), After(operation, p, move).workers[w])
  {
  }

  lemma StepInv(operation: Operation, flows: seq<Option<Flow>>, p: Pool, move: Move)
    requires Inv(operation, flows, p) && Enabled(operation, p, move)
    ensures Inv(operation, flows, After(operation, p, move))
  {
    var q := After(operation, p, move);
    assert |q.flows| == |p.flows| && |q.workers| == |p.workers|;
    hide After, Enabled, Exclusive, Once, WorkerInv, FlowInv;
    ExclusiveStep(operation, p, move);
    OnceStep(operation, p, move);
    forall w | 0 <= w < |p.workers|
      ensures WorkerInv(q, q.workers[w])
    {
      WorkerStep(operation, p, move, w);
    }
    forall i | 0 <= i < |flows|
      ensures FlowInv(operation, flows, q, i)
    {
      FlowStep(operation, flows, p, move, i);
    }
  }

  lemma FlowStep(operation: Operation, flows: seq<Option<Flow>>, p: Pool, move: Move, i: nat)
    requires Inv(operation, flows, p) && Enabled(operation, p, move) && i < |flows|
    ensures FlowInv(operation, flows, After(operation, p, move), i)
  {
    var q := After(operation, p, move);
    assert FlowInv(operation, flows, p, i);
    if move.Take? && i == p.next {
      assert Holds(q.workers[move.worker], i);
    } else if w :| 0 <= w < |p.workers| && Holds(p.workers[w], i) {
      if move.Cancel? || w != move.worker {
        assert q.workers[w] == p.workers[w];
      } else if !move.Leave? && !move.Fail? && !move.Store? {
        assert Holds(q.workers[w], i);
      } else if move.Store? {
        assert i in p.begun;
      }
    }
  }

  lemma {:induction false} RunInv(operation: Operation, flows: seq<Option<Flow>>, moves: seq<Move>)
    requires First(operation) <= |flows|
    requires Run(operation, Started(operation, flows), moves).Some?
    ensures Inv(operation, flows, Run(operation, Started(operation, flows), moves).value)
  {
    if moves == [] {
      StartedInv(operation, flows);
    } else {
      var front := moves[..|moves| - 1];
      RunInv(operation, flows, front);
      StepInv(operation, flows, Run(operation, Started(operation, flows), front).value, moves[|moves| - 1]);
    }
  }

  // ----- What the two operations promise

  /**
   * In every interleaving, and at every moment of it: no index is begun twice, no two workers are at the same flow,
   * and the flows before the first claimed index are untouched. `confirm` never meets an index without a flow.
   */
  lemma ClaimedOnce(operation: Operation, flows: seq<Option<Flow>>, moves: seq<Move>)
    requires First(operation) <= |flows|
    requires Run(operation, Started(operation, flows), moves).Some?
    requires operation.Confirm? ==> forall i :: 0 <= i < |flows| ==> flows[i].Some?
    ensures
      var p := Run(operation, Started(operation, flows), moves).value;
      && Seqs.Distinct(p.begun)
      && (forall v, w :: 0 <= v < w < |p.workers| ==> Apart(p.workers[v], p.workers[w]))
      && |p.flows| == |flows| && p.flows[..First(operation)] == flows[..First(operation)]
      && (forall w :: 0 <= w < |p.workers| && p.workers[w].Cleared? ==> p.workers[w].index < |p.flows|)
      && (operation.Confirm? ==> forall i :: 0 <= i < |flows| ==> p.flows[i].Some?)
  {
    RunInv(operation, flows, moves);
    var p := Run(operation, Started(operation, flows), moves).value;
    forall i | 0 <= i < |flows|
      ensures i < First(operation) ==> p.flows[i] == flows[i]
      ensures operation.Confirm? ==> p.flows[i].Some?
    {
      assert FlowInv(operation, flows, p, i);
    }
  }

  /** The operation returned nil: its workers are gone and nothing was canceled. */
  ghost predicate Returned(operation: Operation, flows: seq<Option<Flow>>, moves: seq<Move>,
                           result: seq<Option<Flow>>) {
    && First(operation) <= |flows|
    && var p := Run(operation, Started(operation, flows), moves);
    && p.Some? && !p.value.canceled && p.value.flows == result
    && forall w :: 0 <= w < |p.value.workers| ==> p.value.workers[w].Exited?
  }

  /** Then every flow from the first index on was exchanged exactly once, and the others are untouched. */
  lemma ReturnedExactly(operation: Operation, flows: seq<Option<Flow>>, moves: seq<Move>, result: seq<Option<Flow>>)
    requires Returned(operation, flows, moves, result)
    ensures |result| == |flows|
    ensures forall i :: 0 <= i < |flows| ==>
      result[i] == if i < First(operation) then flows[i] else Finished(operation, i, flows[i])
    ensures
      var begun := Run(operation, Started(operation, flows), moves).value.begun;
      Seqs.Distinct(begun) && forall i :: i in begun <==> First(operation) <= i < |flows|
  {
    RunInv(operation, flows, moves);
    var p := Run(operation, Started(operation, flows), moves).value;
    if |p.workers| > 0 {
      assert WorkerInv(p, p.workers[0]);
    }
    forall i | 0 <= i < |flows|
      ensures result[i] == if i < First(operation) then flows[i] else Finished(operation, i, flows[i])
      ensures i in p.begun <==> First(operation) <= i
    {
      assert FlowInv(operation, flows, p, i);
      assert i >= First(operation) ==> |p.workers| > 0;
    }
  }

  // ----- Every operation comes to its end

  /** How many moves a worker still has with the index it holds, and then to leave. */
  function Left(count: nat, worker: Worker): nat {
    match worker
    case Exited => 0
    case Took(i) => if i < count then 6 else 1
    case Idle => 2
    case Confirmed(_) => 3
    case Exchanging(_) => 4
    case Cleared(_) => 5
  }

  function AllLeft(count: nat, workers: seq<Worker>): nat {
    if workers == [] then 0 else AllLeft(count, workers[..|workers| - 1]) + Left(count, workers[|workers| - 1])
  }

  /** The moves that are left, if nothing fails; every index that is not claimed yet takes five. */
  function MovesLeft(p: Pool): nat {
    5 * (if p.next < |p.flows| then |p.flows| - p.next else 0) + AllLeft(|p.flows|, p.workers)
  }

  function WorkerMoves(moves: seq<Move>): nat {
    if moves == [] then 0 else WorkerMoves(moves[..|moves| - 1]) + if moves[|moves| - 1] == Cancel then 0 else 1
  }

  lemma {:induction false} LeftUpdate(count: nat, workers: seq<Worker>, w: nat, worker: Worker)
    requires w < |workers|
    ensures AllLeft(count, workers[w := worker]) == AllLeft(count, workers) - Left(count, workers[w]) + Left(count, worker)
  {
    var last := |workers| - 1;
    if w < last {
      assert workers[w := worker][..last] == workers[..last][w := worker];
      LeftUpdate(count, workers[..last], w, worker);
    } else {
      assert workers[w := worker][..last] == workers[..last];
    }
  }

  lemma MoveCounts(operation: Operation, p: Pool, move: Move)
    requires Enabled(operation, p, move) && move != Cancel
    ensures MovesLeft(After(operation, p, move)) < MovesLeft(p)
  {
    hide AllLeft;
    LeftUpdate(|p.flows|, p.workers, move.worker, After(operation, p, move).workers[move.worker]);
  }

  lemma {:induction false} RunCounts(operation: Operation, p: Pool, moves: seq<Move>)
    requires Run(operation, p, moves).Some?
    ensures WorkerMoves(moves) + MovesLeft(Run(operation, p, moves).value) <= MovesLeft(p)
  {
    if moves != [] {
      var front, move := moves[..|moves| - 1], moves[|moves| - 1];
      RunCounts(operation, p, front);
      if move != Cancel {
        MoveCounts(operation, Run(operation, p, front).value, move);
      }
    }
  }

  lemma {:induction false} AllIdle(count: nat, workers: seq<Worker>)
    requires forall w :: 0 <= w < |workers| ==> workers[w] == Idle
    ensures AllLeft(count, workers) == 2 * |workers|
  {
    if workers != [] {
      AllIdle(count, workers[..|workers| - 1]);
    }
  }

  /** A move that a worker can always make. */
  function NextMove(p: Pool, w: nat): Move
    requires w < |p.workers|
  {
    match p.workers[w]
    case Took(i) => if i >= |p.flows| || p.canceled then Leave(w) else Clear(w)
    case Cleared(_) => Begin(w)
    case Exchanging(_) => Succeed(w)
    case Confirmed(_) => Store(w)
    case _ => Take(w)
  }

  lemma NextEnabled(operation: Operation, p: Pool, w: nat)
    requires w < |p.workers|
    ensures p.workers[w] != Exited ==> Enabled(operation, p, NextMove(p, w))
  {
  }

  /**
   * No interleaving is stuck before all workers are gone, and none goes on for ever: five moves for each index and two
   * for each worker are the most there are.
   */
  lemma AlwaysEnds(operation: Operation, flows: seq<Option<Flow>>, moves: seq<Move>)
    requires First(operation) <= |flows| && Run(operation, Started(operation, flows), moves).Some?
    ensures WorkerMoves(moves) <= 5 * (|flows| - First(operation)) + 2 * Min(CONCURRENCY, |flows| - First(operation))
    ensures
      var p := Run(operation, Started(operation, flows), moves).value;
      forall w :: 0 <= w < |p.workers| && p.workers[w] != Exited ==> Enabled(operation, p, NextMove(p, w))
  {
    hide Run, AllLeft;
    RunCounts(operation, Started(operation, flows), moves);
    AllIdle(|flows|, Started(operation, flows).workers);
    forall w | 0 <= w < |Run(operation, Started(operation, flows), moves).value.workers|
      ensures
        var p := Run(operation, Started(operation, flows), moves).value;
        p.workers[w] != Exited ==> Enabled(operation, p, NextMove(p, w))
    {
      NextEnabled(operation, Run(operation, Started(operation, flows), moves).value, w);
    }
  }

  // ----- Cancellation

  predicate Cancels(move: Move) { move.Cancel? || move.Fail? }

  /** The pool is canceled from outside, or by a worker that fails, and not otherwise. */
  lemma {:induction false} CanceledExactly(operation: Operation, flows: seq<Option<Flow>>, moves: seq<Move>)
    requires First(operation) <= |flows| && Run(operation, Started(operation, flows), moves).Some?
    ensures
      Run(operation, Started(operation, flows), moves).value.canceled <==>
        exists k :: 0 <= k < |moves| && Cancels(moves[k])
  {
    if moves != [] {
      var front, move := moves[..|moves| - 1], moves[|moves| - 1];
      CanceledExactly(operation, flows, front);
      CancelsExactly(operation, Run(operation, Started(operation, flows), front).value, move);
      if k :| 0 <= k < |front| && Cancels(front[k]) {
        assert Cancels(moves[k]);
      }
      assert forall k :: 0 <= k < |front| ==> front[k] == moves[k];
    }
  }

  lemma CancelsExactly(operation: Operation, p: Pool, move: Move)
    requires Enabled(operation, p, move)
    ensures After(operation, p, move).canceled <==> p.canceled || Cancels(move)
  {
  }

  /** This index is begun, or a worker has been cleared to begin it. */
  ghost predicate Committed(p: Pool, i: nat) {
    i in p.begun || exists w :: 0 <= w < |p.workers| && p.workers[w] == Cleared(i)
  }

  lemma CommittedStep(operation: Operation, p: Pool, move: Move, i: nat)
    requires Enabled(operation, p, move) && p.canceled && Committed(After(operation, p, move), i)
    ensures Committed(p, i)
  {
    var q := After(operation, p, move);
    if i !in q.begun {
      var w :| 0 <= w < |q.workers| && q.workers[w] == Cleared(i);
      assert p.workers[w] == Cleared(i);
    }
  }

  lemma CanceledMoveCounts(operation: Operation, p: Pool, move: Move)
    requires Enabled(operation, p, move) && move != Cancel && p.canceled
    ensures AllLeft(0, After(operation, p, move).workers) < AllLeft(0, p.workers)
  {
    hide AllLeft;
    LeftUpdate(0, p.workers, move.worker, After(operation, p, move).workers[move.worker]);
  }

  /**
   * Once it is canceled, nothing is begun but by a worker that was cleared before, and the workers are gone after a bounded
   * number of moves, however many indexes are left.
   */
  lemma {:induction false} AfterCancel(operation: Operation, p: Pool, moves: seq<Move>)
    requires p.canceled && Run(operation, p, moves).Some?
    ensures
      var q := Run(operation, p, moves).value;
      && q.canceled
      && (forall i :: Committed(q, i) ==> Committed(p, i))
      && WorkerMoves(moves) + AllLeft(0, q.workers) <= AllLeft(0, p.workers)
      && WorkerMoves(moves) <= 5 * |p.workers|
  {
    hide AllLeft, Committed;
    AtMostFive(p.workers);
    if moves != [] {
      var front, move := moves[..|moves| - 1], moves[|moves| - 1];
      AfterCancel(operation, p, front);
      var q := Run(operation, p, front).value;
      CancelsExactly(operation, q, move);
      forall i | Committed(After(operation, q, move), i)
        ensures Committed(p, i)
      {
        CommittedStep(operation, q, move, i);
      }
      if move != Cancel {
        CanceledMoveCounts(operation, q, move);
      }
    }
  }

  lemma {:induction false} AtMostFive(workers: seq<Worker>)
    ensures AllLeft(0, workers) <= 5 * |workers|
  {
    if workers != [] {
      AtMostFive(workers[..|workers| - 1]);
    }
  }

  // ----- The rounds of a memory case

  /** `add` reslices the list of flows; its capacity holds nils. */
  function Extended(flows: seq<Option<Flow>>, count: nat): seq<Option<Flow>>
    requires |flows| <= count
  {
    flows + seq(count - |flows|, _ => None)
  }

  ghost predicate Returns(operation: Operation, flows: seq<Option<Flow>>, result: seq<Option<Flow>>) {
    exists moves :: Returned(operation, flows, moves, result)
  }

  /** One round of runMemory: add, confirm, wait and measure, confirm. */
  ghost predicate Round(flows: seq<Option<Flow>>, round: nat, added: seq<Option<Flow>>, confirmed: seq<Option<Flow>>,
                        result: seq<Option<Flow>>)
  {
    && |flows| <= STEP * round
    && Returns(Add(|flows|), Extended(flows, STEP * round), added)
    && Returns(Confirm, added, confirmed)
    && Returns(Confirm, confirmed, result)
  }

  /** The flows after so many successful rounds. */
  ghost predicate Rounds(rounds: nat, flows: seq<Option<Flow>>) {
    if rounds == 0 then flows == []
    else exists before, added, confirmed :: Rounds(rounds - 1, before) && Round(before, rounds, added, confirmed, flows)
  }

  lemma AddReturns(flows: seq<Option<Flow>>, count: nat, result: seq<Option<Flow>>)
    requires |flows| <= count && Returns(Add(|flows|), Extended(flows, count), result)
    ensures |result| == count
    ensures forall i :: 0 <= i < count ==> result[i] == if i < |flows| then flows[i] else Some(Flow(i, 1))
  {
    var moves :| Returned(Add(|flows|), Extended(flows, count), moves, result);
    ReturnedExactly(Add(|flows|), Extended(flows, count), moves, result);
  }

  lemma ConfirmReturns(flows: seq<Option<Flow>>, result: seq<Option<Flow>>)
    requires Returns(Confirm, flows, result)
    ensures |result| == |flows| && forall i :: 0 <= i < |flows| ==> result[i] == Raised(flows[i])
  {
    var moves :| Returned(Confirm, flows, moves, result);
    ReturnedExactly(Confirm, flows, moves, result);
  }

  /** The number of a flow after so many rounds. */
  function NumberAfter(rounds: nat, i: nat): int { 1 + 2 * (rounds - i / STEP) }

  function Grown(before: seq<Option<Flow>>, i: nat): Option<Flow> {
    Raised(Raised(if i < |before| then before[i] else Some(Flow(i, 1))))
  }

  lemma RoundReturns(flows: seq<Option<Flow>>, round: nat, added: seq<Option<Flow>>, confirmed: seq<Option<Flow>>,
                     result: seq<Option<Flow>>)
    requires Round(flows, round, added, confirmed, result)
    ensures |flows| <= |result| == STEP * round
    ensures forall i :: 0 <= i < |result| ==> result[i] == Grown(flows, i)
  {
    hide Returns;
    AddReturns(flows, STEP * round, added);
    ConfirmReturns(added, confirmed);
    ConfirmReturns(confirmed, result);
  }

  /** A flow as it should be after so many rounds. */
  ghost predicate Aged(rounds: nat, flow: Option<Flow>, i: nat) {
    flow.Some? && flow.value.index == i && flow.value.sequence == NumberAfter(rounds, i)
  }

  lemma GrownAged(rounds: nat, before: seq<Option<Flow>>, i: nat)
    requires rounds > 0 && |before| == STEP * (rounds - 1) && i < STEP * rounds
    requires i < |before| ==> Aged(rounds - 1, before[i], i)
    ensures Aged(rounds, Grown(before, i), i)
  {
  }

  lemma LastRound(rounds: nat, flows: seq<Option<Flow>>)
    returns (before: seq<Option<Flow>>, added: seq<Option<Flow>>, confirmed: seq<Option<Flow>>)
    requires Rounds(rounds, flows) && rounds > 0
    ensures Rounds(rounds - 1, before) && Round(before, rounds, added, confirmed, flows)
  {
    hide Round;
    before, added, confirmed :| Rounds(rounds - 1, before) && Round(before, rounds, added, confirmed, flows);
  }

  lemma NoRounds(flows: seq<Option<Flow>>)
    requires Rounds(0, flows)
    ensures flows == []
  {
  }

  /**
   * After any number of successful rounds there are STEP flows for each, every flow is the one its index says, and its
   * number says exactly how many rounds it has lived through.
   */
  lemma {:induction false} RoundsExactly(rounds: nat, flows: seq<Option<Flow>>)
    requires Rounds(rounds, flows)
    ensures |flows| == STEP * rounds
    ensures forall i :: 0 <= i < |flows| ==> Aged(rounds, flows[i], i)
  {
    hide Aged, Grown, Round, Rounds;
    if rounds == 0 {
      NoRounds(flows);
    } else {
      var before, added, confirmed := LastRound(rounds, flows);
      RoundReturns(before, rounds, added, confirmed, flows);
      RoundsExactly(rounds - 1, before);
      forall i | 0 <= i < |flows|
        ensures Aged(rounds, flows[i], i)
      {
        GrownAged(rounds, before, i);
      }
    }
  }

  lemma SmallNumber(rounds: nat, i: nat)
    requires rounds <= 4
    ensures NumberAfter(rounds, i) <= 9
  {
  }

  /** A memory case has four rounds with flows, so that no number of a flow comes near wrapping around. */
  lemma NumbersStaySmall(rounds: nat, flows: seq<Option<Flow>>, i: nat)
    requires Rounds(rounds, flows) && rounds <= 4 && i < |flows|
    ensures flows[i].Some? && flows[i].value.sequence <= 9
  {
    hide Rounds, NumberAfter;
    RoundsExactly(rounds, flows);
    SmallNumber(rounds, i);
    assert Aged(rounds, flows[i], i);
  }
}

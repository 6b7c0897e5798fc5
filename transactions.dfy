/**
 * Nested transactions over a connection that supports only one real
 * transaction: a depth counter, a real begin/commit/rollback at the outer
 * level, and savepoints named `trans<depth>` for the inner levels.
 */
module Transactions {
  import opened SqlText
  import opened Connection

  /** The savepoint that opening nesting level `level` creates. */
  function SavepointName(level: int): string
  {
    "trans" + IntText(level)
  }

  /** The three calls of the protocol. */
  datatype TxOp = Begin | Commit | Rollback

  /** The depth after a call, the call's boolean answer, and what it asked of the connection. */
  datatype TxStep = TxStep(count: int, result: bool, actions: seq<Action>)

  /**
   * transaction(): the depth is incremented in every case. From depth 0 the
   * real transaction is begun and `driver` (the connection's answer) is
   * returned; otherwise a savepoint named after the new depth is issued and
   * the answer is whether the new depth is non-negative.
   */
  function BeginStep(count: int, driver: bool): TxStep
  {
    if count == 0 then TxStep(1, driver, [BeginTx])
    else TxStep(count + 1, count + 1 >= 0, [Exec("SAVEPOINT " + SavepointName(count + 1))])
  }

  /**
   * commit(): the depth is decremented first; reaching 0 commits the real
   * transaction, any other depth is absorbed without touching the connection.
   */
  function CommitStep(count: int, driver: bool): TxStep
  {
    if count - 1 == 0 then TxStep(0, driver, [CommitTx])
    else TxStep(count - 1, count - 1 >= 0, [])
  }

  /**
   * rollBack(): the depth is decremented first; a depth other than 0 rolls
   * back to the savepoint of the level just closed and answers true, depth 0
   * rolls back the real transaction.
   */
  function RollbackStep(count: int, driver: bool): TxStep
  {
    if count - 1 != 0 then TxStep(count - 1, true, [Exec("ROLLBACK TO " + SavepointName(count))])
    else TxStep(0, driver, [RollbackTx])
  }

  function Step(count: int, op: TxOp, driver: bool): TxStep
  {
    match op
    case Begin => BeginStep(count, driver)
    case Commit => CommitStep(count, driver)
    case Rollback => RollbackStep(count, driver)
  }

  /** The depth a sequence of calls leaves, starting from depth `count`. */
  function Depth(count: int, ops: seq<TxOp>): int
    decreases |ops|
  {
    if ops == [] then count else Depth(Step(count, ops[0], true).count, ops[1..])
  }

  /** Everything a sequence of calls asks of the connection, in order. */
  function Actions(count: int, ops: seq<TxOp>): seq<Action>
    decreases |ops|
  {
    if ops == [] then []
    else Step(count, ops[0], true).actions + Actions(Step(count, ops[0], true).count, ops[1..])
  }

  function Repeat(op: TxOp, k: nat): (r: seq<TxOp>)
    ensures |r| == k && forall i :: 0 <= i < k ==> r[i] == op
  {
    if k == 0 then [] else [op] + Repeat(op, k - 1)
  }

  /** The savepoints opened for levels `from`, `from + 1`, ..., in order. */
  function Savepoints(from: int, k: nat): seq<Action>
  {
    seq(k, i requires 0 <= i < k => Exec("SAVEPOINT " + SavepointName(from + i)))
  }

  /** The rollbacks issued when closing levels `top`, `top - 1`, ..., in order. */
  function RollbacksTo(top: int, k: nat): seq<Action>
  {
    seq(k, i requires 0 <= i < k => Exec("ROLLBACK TO " + SavepointName(top - i)))
  }

  /** The statement that undoes a savepoint statement: a rollback to the same savepoint. */
  function UndoOf(a: Action): Action
  {
    if a.Exec? && |a.sql| >= 10 && a.sql[..10] == "SAVEPOINT " then Exec("ROLLBACK TO " + a.sql[10..]) else a
  }

  /** `undo` undoes the statements of `saves` one by one, the last one first. */
  predicate UndoesInReverse(undo: seq<Action>, saves: seq<Action>)
  {
    |undo| == |saves| && forall i :: 0 <= i < |undo| ==> undo[i] == UndoOf(saves[|saves| - 1 - i])
  }

  function Occurrences(ops: seq<TxOp>, op: TxOp): nat
  {
    if ops == [] then 0 else (if ops[0] == op then 1 else 0) + Occurrences(ops[1..], op)
  }

  /** The connection's answers decide only what a call returns, never the depth or the actions. */
  lemma AnswerOnlyDecidesResult(count: int, op: TxOp, a: bool, b: bool)
    ensures Step(count, op, a).count == Step(count, op, b).count
    ensures Step(count, op, a).actions == Step(count, op, b).actions
    ensures Step(count, op, a).result != Step(count, op, b).result ==>
              (op == Begin && count == 0) || (op != Begin && count == 1)
  {
  }

  /** Every call moves the depth by exactly one: up for Begin, down for Commit and Rollback. */
  lemma {:induction false} DepthCounts(count: int, ops: seq<TxOp>)
    ensures Depth(count, ops)
              == count + Occurrences(ops, Begin) - Occurrences(ops, Commit) - Occurrences(ops, Rollback)
    decreases |ops|
  {
    if ops != [] {
      DepthCounts(Step(count, ops[0], true).count, ops[1..]);
    }
  }

  /** Running a + b is running a, then b from where a left the depth. */
  lemma {:induction false} RunAppend(count: int, a: seq<TxOp>, b: seq<TxOp>)
    ensures Depth(count, a + b) == Depth(Depth(count, a), b)
    ensures Actions(count, a + b) == Actions(count, a) + Actions(Depth(count, a), b)
    decreases |a|
  {
    if a == [] {
      assert a + b == b;
    } else {
      assert (a + b)[0] == a[0];
      assert (a + b)[1..] == a[1..] + b;
      RunAppend(Step(count, a[0], true).count, a[1..], b);
    }
  }

  /** Opening k levels inside an open transaction issues k savepoints named after the new depths. */
  lemma {:induction false} NestedBegins(n: int, k: nat)
    requires n >= 1
    ensures Depth(n, Repeat(Begin, k)) == n + k
    ensures Actions(n, Repeat(Begin, k)) == Savepoints(n + 1, k)
    decreases k
  {
    if k > 0 {
      NestedBegins(n + 1, k - 1);
      assert Repeat(Begin, k)[1..] == Repeat(Begin, k - 1);
      assert [Exec("SAVEPOINT " + SavepointName(n + 1))] + Savepoints(n + 2, k - 1) == Savepoints(n + 1, k);
    }
  }

  /** Closing n levels by commits touches the connection once: the real commit at the end. */
  lemma {:induction false} CommitsUnwind(n: int)
    requires n >= 1
    ensures Depth(n, Repeat(Commit, n)) == 0
    ensures Actions(n, Repeat(Commit, n)) == [CommitTx]
    decreases n
  {
    assert Repeat(Commit, n)[1..] == Repeat(Commit, n - 1);
    if n > 1 {
      CommitsUnwind(n - 1);
    }
  }

  /**
   * Rolling back k levels above an open outer level undoes the savepoints
   * from the innermost outwards and leaves the outer transaction alone.
   */
  lemma {:induction false} NestedRollbacks(n: int, k: nat)
    requires n >= 1
    ensures Depth(n + k, Repeat(Rollback, k)) == n
    ensures Actions(n + k, Repeat(Rollback, k)) == RollbacksTo(n + k, k)
    decreases k
  {
    if k > 0 {
      NestedRollbacks(n, k - 1);
      assert Repeat(Rollback, k)[1..] == Repeat(Rollback, k - 1);
      assert [Exec("ROLLBACK TO " + SavepointName(n + k))] + RollbacksTo(n + k - 1, k - 1) == RollbacksTo(n + k, k);
    }
  }

  /**
   * k + 1 begins followed by k + 1 commits: one real begin, the k savepoints
   * of the inner levels, one real commit, and the depth back at 0.
   */
  lemma BalancedCommits(k: nat)
    ensures Depth(0, Repeat(Begin, k + 1) + Repeat(Commit, k + 1)) == 0
    ensures Actions(0, Repeat(Begin, k + 1) + Repeat(Commit, k + 1)) == [BeginTx] + Savepoints(2, k) + [CommitTx]
  {
    RunAppend(0, Repeat(Begin, k + 1), Repeat(Commit, k + 1));
    assert Repeat(Begin, k + 1)[1..] == Repeat(Begin, k);
    NestedBegins(1, k);
    CommitsUnwind(k + 1);
  }

  /** Each rollback of a nested level targets the savepoint its begin created, innermost first. */
  lemma RollbacksMatchSavepoints(n: int, k: nat)
    requires n >= 1
    ensures Depth(n, Repeat(Begin, k) + Repeat(Rollback, k)) == n
    ensures Actions(n, Repeat(Begin, k) + Repeat(Rollback, k)) == Savepoints(n + 1, k) + RollbacksTo(n + k, k)
    ensures UndoesInReverse(RollbacksTo(n + k, k), Savepoints(n + 1, k))
  {
    RunAppend(n, Repeat(Begin, k), Repeat(Rollback, k));
    NestedBegins(n, k);
    NestedRollbacks(n, k);
    RollbacksUndoSavepoints(n, k);
  }

  /** The rollbacks from level n + k down to n + 1 undo the savepoints of levels n + 1 up to n + k. */
  lemma RollbacksUndoSavepoints(n: int, k: nat)
    ensures UndoesInReverse(RollbacksTo(n + k, k), Savepoints(n + 1, k))
  {
    var undo, saves := RollbacksTo(n + k, k), Savepoints(n + 1, k);
    forall i | 0 <= i < k
      ensures undo[i] == UndoOf(saves[k - 1 - i])
    {
      var name := SavepointName(n + k - i);
      var text := "SAVEPOINT " + name;
      assert saves[k - 1 - i] == Exec(text);
      assert text[..10] == "SAVEPOINT ";
      assert text[10..] == name;
    }
  }

  /**
   * begin, begin, rollback, commit: the real begin, the savepoint of level 2,
   * the rollback to it, and the real commit of the outer transaction.
   */
  lemma InnerRollbackOuterCommit()
    ensures Depth(0, [Begin, Begin, Rollback, Commit]) == 0
    ensures Actions(0, [Begin, Begin, Rollback, Commit])
              == [BeginTx, Exec("SAVEPOINT " + SavepointName(2)), Exec("ROLLBACK TO " + SavepointName(2)), CommitTx]
  {
    var ops := [Begin, Begin, Rollback, Commit];
    assert ops[1..] == [Begin, Rollback, Commit];
    assert ops[1..][1..] == [Rollback, Commit];
    assert ops[1..][1..][1..] == [Commit];
  }

  /**
   * Depth 0 is not checked: a commit takes it to -1 and answers false, a
   * rollback takes it to -1, issues a rollback to "trans0" and answers true.
   */
  lemma UnopenedClose(driver: bool)
    ensures CommitStep(0, driver) == TxStep(-1, false, [])
    ensures RollbackStep(0, driver) == TxStep(-1, true, [Exec("ROLLBACK TO " + SavepointName(0))])
  {
  }
}

/**
 * Database.cs: the task queue and the dispatcher step that hands each queued
 * task to the first idle connection of the pool.
 *
 * The dispatcher thread is modelled by its steps: `Dequeue` is one successful
 * or failed `TryDequeue`, `Place` is one pass of the scan over `Connections`.
 * A connection is reduced to its `Used` flag (the array `used`) and the task it
 * is running; the end of a connection's work is the step `FinishTask`.
 */
module Pool {
  import opened Wrappers
  import opened Tasks
  import Parser

  datatype ExecuteError = NullCommand

  class Database {
    const connectionString: string
    const parser: Parser.MySqlParser
    /** `used[i]` is `Connections[i].Used`. */
    const used: array<bool>
    /** TaskQueue, head first. */
    var queue: seq<MySqlTask>
    /** The dispatcher's local `task`: dequeued, not yet handed to a connection. */
    var holding: Option<MySqlTask>
    /** The task each busy connection is running. */
    var running: map<nat, MySqlTask>
    /** Identities of the tasks whose Finished flag is set. */
    var finished: set<nat>
    /** Identity the next created task receives. */
    var nextId: nat
    /** Every task handed to a connection so far, in hand-off order. */
    ghost var dispatched: seq<MySqlTask>

    /** Every task ever created, in the order it moves through the dispatcher. */
    ghost function Pipeline(): seq<MySqlTask>
      reads this
    {
      dispatched + (if holding.Some? then [holding.value] else []) + queue
    }

    ghost predicate Valid()
      reads this, used
    {
      // a connection is busy exactly when it runs a task
      && (forall i :: 0 <= i < used.Length ==> (used[i] <==> i in running))
      && (forall i :: i in running ==> i < used.Length)
      // tasks pass through hand-off, holding and queue in creation order, none lost, none twice
      && |Pipeline()| == nextId
      && (forall k :: 0 <= k < |Pipeline()| ==> Pipeline()[k].id == k)
      // a running task was handed off, and to one connection only
      && (forall i :: i in running ==> running[i].id < |dispatched| && dispatched[running[i].id] == running[i])
      && (forall i, j :: i in running && j in running && i != j ==> running[i].id != running[j].id)
      // a finished task was handed off and runs no more
      && (forall id :: id in finished ==> id < |dispatched|)
      && (forall i :: i in running ==> running[i].id !in finished)
    }

    /**
     * A database whose pool of `connections` connections has been opened
     * (InitConnections): every connection is idle and the queue is empty.
     * The parser is a default one (the DateTime writer and reader only) whose
     * CustomMYSQLTypes are the caller's, or empty.
     */
    constructor (connectionString: string, dateTimeWriter: Parser.Value -> Parser.Value,
                 dateTimeReader: Parser.Value -> Parser.Value, connections: nat := 5,
                 customMySqlTypes: Option<map<Parser.ClrType, string>> := None)
      ensures Valid() && fresh(used) && fresh(parser)
      ensures used.Length == connections && forall i :: 0 <= i < connections ==> !used[i]
      ensures queue == [] && holding == None && running == map[] && finished == {} && nextId == 0
      ensures parser.customMySqlTypes == customMySqlTypes.GetOr(map[])
      ensures parser.illegalChars == Parser.DefaultIllegalChars
      ensures parser.customWritings == map[Parser.DateTimeType := dateTimeWriter]
      ensures parser.customReadings == map[Parser.DateTimeType := Parser.CustomConversion(Parser.ULongType, dateTimeReader)]
    {
      this.connectionString := connectionString;
      var p := new Parser.MySqlParser(dateTimeWriter, dateTimeReader);
      p.customMySqlTypes := customMySqlTypes.GetOr(map[]);
      parser := p;
      used := new bool[connections](_ => false);
      queue, holding, running, finished, nextId := [], None, map[], {}, 0;
      dispatched := [];
    }

    /**
     * Execute, up to the point where it starts waiting: a null command is
     * rejected; otherwise one new unfinished task carrying the command and the
     * callback joins the back of the queue.
     */
    method Execute(command: Option<string>, callback: Option<ReaderCallback>) returns (result: Result<nat, ExecuteError>)
      requires Valid()
      modifies this
      ensures Valid()
      ensures command.None? ==> result == Failure(NullCommand) && unchanged(this)
      ensures command.Some? ==> result == Success(old(nextId))
      ensures command.Some? ==> queue == old(queue) + [MySqlTask(old(nextId), command.value, callback)]
      ensures command.Some? ==> nextId == old(nextId) + 1 && old(nextId) !in finished
      ensures holding == old(holding) && running == old(running) && finished == old(finished)
      ensures dispatched == old(dispatched)
    {
      if command.None? {
        return Failure(NullCommand);
      }
      var task := MySqlTask(nextId, command.value, callback);
      queue := queue + [task];
      nextId := nextId + 1;
      assert Pipeline() == old(Pipeline()) + [task];
      result := Success(task.id);
    }

    /** The condition Execute waits on: the task's Finished flag. A finished task had been handed to a connection. */
    method IsFinished(id: nat) returns (done: bool)
      requires Valid()
      ensures done <==> id in finished
      ensures done ==> id < |dispatched| && dispatched[id].id == id
    {
      done := id in finished;
      if done {
        assert Pipeline()[id] == dispatched[id];
      }
    }

    /** TryDequeue: take the head of the queue, if there is one, into the dispatcher's hands. */
    method Dequeue() returns (dequeued: bool)
      requires Valid() && holding.None?
      modifies this
      ensures Valid()
      ensures dequeued <==> old(queue) != []
      ensures dequeued ==> holding == Some(old(queue)[0]) && queue == old(queue)[1..]
      ensures !dequeued ==> holding == None && queue == []
      ensures running == old(running) && finished == old(finished) && nextId == old(nextId)
      ensures dispatched == old(dispatched)
    {
      if queue == [] {
        return false;
      }
      assert Pipeline() == dispatched + [queue[0]] + queue[1..];
      holding := Some(queue[0]);
      queue := queue[1..];
      dequeued := true;
    }

    /** The scan of `Connections` in index order: the first connection that is not Used. */
    method FirstIdle() returns (idle: Option<nat>)
      ensures idle.Some? ==> idle.value < used.Length && !used[idle.value]
      ensures idle.Some? ==> forall j :: 0 <= j < idle.value ==> used[j]
      ensures idle.None? ==> forall j :: 0 <= j < used.Length ==> used[j]
    {
      var i := 0;
      while i < used.Length
        invariant 0 <= i <= used.Length
        invariant forall j :: 0 <= j < i ==> used[j]
      {
        if !used[i] {
          return Some(i);
        }
        i := i + 1;
      }
      return None;
    }

    /**
     * One pass of the placement loop: the held task goes to the lowest-numbered
     * idle connection, which becomes Used; no other flag changes. With every
     * connection Used, nothing changes and the task stays held for the next pass.
     */
    method Place() returns (placedAt: Option<nat>)
      requires Valid() && holding.Some?
      modifies this, used
      ensures Valid()
      ensures placedAt.Some? <==> exists j :: 0 <= j < used.Length && !old(used[j])
      ensures placedAt.Some? ==>
                && placedAt.value < used.Length && !old(used[placedAt.value]) && used[placedAt.value]
                && (forall j :: 0 <= j < placedAt.value ==> old(used[j]))
                && running == old(running)[placedAt.value := old(holding).value]
                && dispatched == old(dispatched) + [old(holding).value]
                && holding == None
      ensures placedAt.None? ==> holding == old(holding) && running == old(running) && dispatched == old(dispatched)
      ensures forall j :: 0 <= j < used.Length && placedAt != Some(j) ==> used[j] == old(used[j])
      ensures queue == old(queue) && finished == old(finished) && nextId == old(nextId)
    {
      var idle := FirstIdle();
      if idle.None? {
        return None;
      }
      var i := idle.value;
      var task := holding.value;
      assert Pipeline() == dispatched + [task] + queue;
      assert Pipeline()[|dispatched|] == task;
      assert task.id == |dispatched| && task.id !in finished;
      used[i] := true;
      running := running[i := task];
      dispatched := dispatched + [task];
      holding := None;
      assert Pipeline() == old(Pipeline());
      placedAt := Some(i);
    }

    /**
     * Tasks move in creation order: the hand-offs so far are tasks 0, 1, 2, ...,
     * the held task is the next one, and the queue holds the most recent tasks,
     * oldest at the head. With Dequeue taking the head, tasks leave the queue in
     * the order Execute put them in.
     */
    lemma CreationOrder()
      requires Valid()
      ensures forall k :: 0 <= k < |dispatched| ==> dispatched[k].id == k
      ensures holding.Some? ==> holding.value.id == |dispatched|
      ensures |queue| <= nextId
      ensures forall j :: 0 <= j < |queue| ==> queue[j].id == nextId - |queue| + j
    {
      var pipeline := Pipeline();
      forall k | 0 <= k < |dispatched|
        ensures dispatched[k].id == k
      {
        assert pipeline[k] == dispatched[k];
      }
      if holding.Some? {
        assert pipeline[|dispatched|] == holding.value;
      }
      forall j | 0 <= j < |queue|
        ensures queue[j].id == nextId - |queue| + j
      {
        assert pipeline[nextId - |queue| + j] == queue[j];
      }
    }

    /** Busy connections each run their own task, so there are never more of them than the pool holds. */
    lemma BusyWithinCapacity()
      requires Valid()
      ensures |running| <= used.Length
    {
      BoundedSetSize(running.Keys, used.Length);
    }

    /** A connection ends its work (HandleTask's last two statements): the task is Finished and the connection idle. */
    method FinishTask(i: nat)
      requires Valid() && i in running
      modifies this, used
      ensures Valid()
      ensures finished == old(finished) + {old(running)[i].id}
      ensures running == old(running) - {i}
      ensures !used[i] && forall j :: 0 <= j < used.Length && j != i ==> used[j] == old(used[j])
      ensures queue == old(queue) && holding == old(holding) && nextId == old(nextId)
      ensures dispatched == old(dispatched)
    {
      finished := finished + {running[i].id};
      running := running - {i};
      used[i] := false;
    }
  }

  /** A set of numbers all below `n` has at most `n` elements. */
  lemma {:induction false} BoundedSetSize(s: set<nat>, n: nat)
    requires forall i :: i in s ==> i < n
    ensures |s| <= n
  {
    if n > 0 {
      BoundedSetSize(s - {n - 1}, n - 1);
    }
  }
}

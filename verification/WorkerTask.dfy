/** The loop around the lifecycle: _worker_task of src/worker/main.py. */
module WorkerTask {
  import opened Common
  import opened TokenBuckets
  import opened SlotMachine
  import opened StorageClients
  import opened WorkerLoop

  /** One turn of the loop before shutdown: what the pop finds, how it is answered, and what happens
      around the lifecycle that follows. */
  datatype Turn = Turn(queue: seq<Message>, a: Answer, script: Script)

  /** An error other than a lost connection escapes the pop, and ends the worker. */
  predicate Escapes(turn: Turn) {
    !turn.a.Ok? && !turn.a.Unavailable?
  }

  function Taken(turn: Turn): seq<(Message, Script)> {
    if turn.a.Ok? && turn.queue != [] then [(turn.queue[|turn.queue| - 1], turn.script)] else []
  }

  /** The messages taken before a pop raises, in order, each with the script of its lifecycle. */
  function TakenIn(turns: seq<Turn>): seq<(Message, Script)> {
    if turns == [] then []
    else if Escapes(turns[0]) then []
    else Taken(turns[0]) + TakenIn(turns[1..])
  }

  lemma TakenFirst(turn: Turn, after: seq<Turn>)
    ensures TakenIn([turn] + after) == if Escapes(turn) then [] else Taken(turn) + TakenIn(after)
  {
    assert ([turn] + after)[1..] == after;
  }

  /** Turn after turn: a turn that finds a message takes the oldest one, `m`; one that finds none or loses
      the connection takes nothing; and nothing is taken from the turn on in which the pop raises. */
  lemma TakenTurnByTurn(before: seq<Turn>, turn: Turn, after: seq<Turn>, rest: seq<Message>, m: Message)
    requires forall k :: 0 <= k < |before| ==> before[k].a.Ok? || before[k].a.Unavailable?
    requires turn.queue == [] || turn.queue == rest + [m]
    ensures TakenIn(before + ([turn] + after)) == TakenIn(before) +
      if turn.a.Ok? && turn.queue != [] then [(m, turn.script)] + TakenIn(after)
      else if turn.a.Ok? || turn.a.Unavailable? then TakenIn(after) else []
  {
    TakenAppend(before, [turn] + after);
    TakenFirst(turn, after);
    assert [] + TakenIn(after) == TakenIn(after);
  }

  lemma {:induction false} TakenAppend(before: seq<Turn>, after: seq<Turn>)
    requires forall k :: 0 <= k < |before| ==> !Escapes(before[k])
    ensures TakenIn(before + after) == TakenIn(before) + TakenIn(after)
  {
    if before == [] {
      assert before + after == after;
    } else {
      TakenAppend(before[1..], after);
      assert (before + after)[1..] == before[1..] + after;
    }
  }

  /** `trail` is the one complete execution of the lifecycle for `m` under `script`. */
  ghost predicate Executed(env: Env, m: Message, script: Script, trail: seq<Hop>) {
    Follows(env, m.job, m.url, script, trail) && trail != [] && End(trail) == Done
  }

  ghost predicate AllExecuted(env: Env, taken: seq<(Message, Script)>, trails: seq<seq<Hop>>) {
    |trails| == |taken| && forall i :: 0 <= i < |taken| ==> Executed(env, taken[i].0, taken[i].1, trails[i])
  }

  /** Every message the worker takes is executed once, to its end, before the next is taken; nothing
      but an escaping pop ends the worker before shutdown. */
  method RunTask(pg: PostgresClient, redis: RedisClient, bucket: TokenBucket, env: Env, turns: seq<Turn>)
    returns (died: bool, ghost trails: seq<seq<Hop>>)
    modifies pg, redis, bucket
    ensures died <==> exists n :: 0 <= n < |turns| && Escapes(turns[n])
    ensures AllExecuted(env, TakenIn(turns), trails)
  {
    died, trails := false, [];
    ghost var taken := [];
    for n := 0 to |turns|
      invariant !died && forall k :: 0 <= k < n ==> !Escapes(turns[k])
      invariant TakenIn(turns) == taken + TakenIn(turns[n..])
      invariant AllExecuted(env, taken, trails)
    {
      var turn := turns[n];
      redis.queue := turn.queue;
      var msg := redis.PopFromQueue(turn.a);
      if msg.Raised? {
        return true, trails;
      }
      assert turns[n..][1..] == turns[n + 1..];
      taken := taken + Taken(turn);
      if msg.value.Some? {
        var m := msg.value.value;
        assert turn.queue[|turn.queue| - 1] == m;
        var lifecycle := new Lifecycle(pg, redis, bucket, env, turn.script, m.job, m.url);
        lifecycle.Execute();
        trails := trails + [lifecycle.trail];
      }
    }
  }
}

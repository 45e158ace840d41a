/** The scheduler of src/app.ts as the program holds it: the two tables
    `userQueues` and `userLocks` are fields updated in place, and each
    method follows the lines it models. The methods that make up a whole
    atomic step or a whole run (the constructor, `Submit`, `EndTask`,
    `RunQueue`, `Welcome`) keep `Valid()`. The others are pieces of one
    step, between which `Valid()` need not hold; each states its effect as
    a `Registry` function of the old `Model()`. */
module App {
  import opened Registry

  class Scheduler {
    /** `userQueues`: user id to the array of pending tasks (line 21). */
    var userQueues: map<UserId, seq<Task>>
    /** `userLocks`: user id to the lock flag (line 22). */
    var userLocks: map<UserId, bool>
    /** One entry per `console.error` line (line 59), naming the user. */
    var errorLog: seq<UserId>

    /** What the program does not store: drain loops running per user, the
        task each suspended loop awaits, and each user's history. */
    ghost var running: multiset<UserId>
    ghost var inFlight: map<UserId, Task>
    ghost var submitted: map<UserId, seq<Task>>
    ghost var processed: map<UserId, seq<Task>>

    ghost function Model(): State
      reads this
    {
      State(userQueues, userLocks, running, inFlight, submitted, processed, errorLog)
    }

    ghost predicate Valid()
      reads this
    {
      Inv(Model())
    }

    /** Lines 21-22: both tables start empty. */
    constructor()
      ensures Valid() && Model() == Init()
      ensures userQueues == map[] && userLocks == map[] && errorLog == []
    {
      userQueues := map[];
      userLocks := map[];
      errorLog := [];
      running := multiset{};
      inFlight := map[];
      submitted := map[];
      processed := map[];
      InitInv();
    }

    /** Lines 143-150: create an empty queue for a user who has none, then
        push the task at its tail. */
    method Enqueue(ctx: Message, with: Collaborators)
      modifies this
      ensures Model() == Registry.Enqueue(old(Model()), Task(ctx, with))
      ensures userQueues[ctx.from] == old(Queue(Model(), ctx.from)) + [Task(ctx, with)]
    {
      var userId := ctx.from;
      if userId !in userQueues {
        userQueues := userQueues[userId := []];
      }
      var queue := userQueues[userId];
      userQueues := userQueues[userId := queue + [Task(ctx, with)]];
      submitted := submitted[userId := Submitted(old(Model()), userId) + [Task(ctx, with)]];
    }

    /** Lines 54-55: lock the user and shift the head of its queue, which
        becomes the task the loop awaits. */
    method TakeHead(userId: UserId) returns (task: Task)
      requires userId in userQueues && userQueues[userId] != []
      modifies this
      ensures (Model(), Some(task)) == Registry.NextTask(old(Model()), userId)
      ensures task == old(userQueues[userId][0]) && userQueues[userId] == old(userQueues[userId][1..])
    {
      userLocks := userLocks[userId := true];
      var queue := userQueues[userId];
      task := queue[0];
      userQueues := userQueues[userId := queue[1..]];
      inFlight := inFlight[userId := task];
    }

    /** Lines 65-66: the queue is empty; delete the lock, then the queue,
        and the loop returns. */
    method DeleteEntries(userId: UserId)
      requires userId in userQueues && userQueues[userId] == []
      modifies this
      ensures (Model(), None) == Registry.NextTask(old(Model()), userId)
    {
      userLocks := userLocks - {userId};
      userQueues := userQueues - {userId};
      running := running - multiset{userId};
    }

    /** The loop test at line 53 and what follows it. */
    method NextTask(userId: UserId) returns (current: Option<Task>)
      requires userId in userQueues
      modifies this
      ensures (Model(), current) == Registry.NextTask(old(Model()), userId)
    {
      if |userQueues[userId]| > 0 {
        var task := TakeHead(userId);
        current := Some(task);
      } else {
        DeleteEntries(userId);
        current := None;
      }
    }

    /** Lines 56-62: the awaited task has settled; a rejection is caught
        and logged (58-59), and the lock is released either way (61). */
    method Release(userId: UserId, outcome: Outcome)
      requires userId in inFlight
      modifies this
      ensures Model() == Registry.Release(old(Model()), userId, outcome)
    {
      if outcome == Failed {
        errorLog := errorLog + [userId];
      }
      userLocks := userLocks[userId := false];
      processed := processed[userId := Processed(Model(), userId) + [inFlight[userId]]];
      inFlight := inFlight - {userId};
    }

    /** Lines 46-55, up to the first `await`: return at once when the user
        is locked; otherwise start the loop. */
    method HandleQueue(userId: UserId) returns (current: Option<Task>)
      requires userId in userQueues
      modifies this
      ensures (Model(), current) == Registry.HandleQueue(old(Model()), userId)
      ensures old(userId in userLocks && userLocks[userId]) ==> current == None && Model() == old(Model())
    {
      if userId in userLocks && userLocks[userId] {
        return None;
      }
      running := running + multiset{userId};
      current := NextTask(userId);
    }

    /** The welcome flow's action (lines 143-155) up to its first `await`:
        push the task, and call `handleQueue` when the user is unlocked and
        the task is the only one queued. A drain starts exactly when the
        user had no entry, and then takes up this very task. */
    method Submit(ctx: Message, with: Collaborators) returns (drain: bool)
      requires Valid()
      modifies this
      ensures Valid()
      ensures (Model(), drain) == Registry.Submit(old(Model()), Task(ctx, with))
      ensures drain <==> ctx.from !in old(userQueues)
      ensures drain ==> inFlight[ctx.from] == Task(ctx, with) && userQueues[ctx.from] == []
      ensures !drain ==> userQueues[ctx.from] == old(userQueues[ctx.from]) + [Task(ctx, with)] &&
                         inFlight == old(inFlight) && userLocks == old(userLocks)
      ensures userQueues - {ctx.from} == old(userQueues) - {ctx.from}
      ensures userLocks - {ctx.from} == old(userLocks) - {ctx.from}
    {
      var userId := ctx.from;
      SubmitSpec(Model(), Task(ctx, with));
      Enqueue(ctx, with);
      drain := !(userId in userLocks && userLocks[userId]) && |userQueues[userId]| == 1;
      if drain {
        var _ := HandleQueue(userId);
      }
    }

    /** The loop resumes after the `await` at line 57: a failure is logged
        (58-59), the lock is released (61), and the loop test runs again. */
    method EndTask(userId: UserId, outcome: Outcome) returns (current: Option<Task>)
      requires Valid() && userId in inFlight
      modifies this
      ensures Valid() && old(userId in userQueues)
      ensures (Model(), current) == Registry.EndTask(old(Model()), userId, outcome)
      ensures Processed(Model(), userId) == old(Processed(Model(), userId)) + [old(inFlight[userId])]
      ensures errorLog == if outcome == Failed then old(errorLog) + [userId] else old(errorLog)
      ensures old(userQueues[userId]) != [] ==> current == Some(old(userQueues[userId][0]))
      ensures old(userQueues[userId]) == [] ==>
        current == None && userQueues == old(userQueues) - {userId} && userLocks == old(userLocks) - {userId}
    {
      EndTaskStep(Model(), userId, outcome);
      Release(userId, outcome);
      current := NextTask(userId);
    }

    /** `handleQueue` (lines 46-67) run from a first push to its return
        while no other step interleaves; `outcomes[i]` is how the `i`-th
        awaited call settles. Every queued task is taken up in order, every
        task of the user ends up processed, each failure is logged once,
        and both entries are deleted. */
    method RunQueue(userId: UserId, outcomes: seq<Outcome>) returns (taken: seq<Task>)
      requires Idle(Model(), userId, 0) && userQueues[userId] != []
      requires |outcomes| == |userQueues[userId]|
      modifies this
      ensures Valid()
      ensures Model() == Drained(Registry.HandleQueue(old(Model()), userId).0, userId, outcomes)
      ensures taken == old(userQueues[userId])
      ensures Processed(Model(), userId) == old(Submitted(Model(), userId))
      ensures userQueues == old(userQueues) - {userId} && userLocks == old(userLocks) - {userId}
      ensures errorLog == old(errorLog) + FailLines(userId, outcomes)
      ensures forall v :: v != userId ==>
        Processed(Model(), v) == old(Processed(Model(), v)) && Submitted(Model(), v) == old(Submitted(Model(), v))
    {
      RunAlone(Model(), userId, outcomes);
      if userId in userLocks && userLocks[userId] {
        return [];
      }
      running := running + multiset{userId};
      taken := DrainLoop(userId, outcomes);
    }

    /** The loop of lines 53-63 and the deletes of lines 65-66, with the
        `await` at line 57 settling as `outcomes` says, one pass each. */
    method DrainLoop(userId: UserId, outcomes: seq<Outcome>) returns (taken: seq<Task>)
      requires userId in userQueues && userId !in inFlight
      requires |outcomes| == |userQueues[userId]|
      modifies this
      ensures Model() == Drained(Registry.NextTask(old(Model()), userId).0, userId, outcomes)
      ensures taken == old(userQueues[userId])
    {
      ghost var target := Drained(Registry.NextTask(Model(), userId).0, userId, outcomes);
      taken := [];
      var i := 0;
      while |userQueues[userId]| > 0
        invariant 0 <= i <= |outcomes|
        invariant userId in userQueues && userId !in inFlight
        invariant |userQueues[userId]| + i == |outcomes|
        invariant taken + userQueues[userId] == old(userQueues[userId])
        invariant Drained(Registry.NextTask(Model(), userId).0, userId, outcomes[i..]) == target
        decreases |outcomes| - i
      {
        LoopPass(Model(), userId, outcomes[i..]);
        HeadThenTail(taken, userQueues[userId]);
        var task := TakeHead(userId);
        taken := taken + [task];
        assert outcomes[i..][1..] == outcomes[i + 1..];
        ghost var rest := userQueues[userId];
        Release(userId, outcomes[i]);
        assert userQueues[userId] == rest;
        i := i + 1;
      }
      DeleteEntries(userId);
    }

    /** The welcome flow's action (lines 143-155) awaited to its end while
        nothing else happens; `outcome` is how the one awaited call
        settles. A first message is processed at once and leaves no entry
        behind; a message for a user with an entry is only queued. */
    method Welcome(ctx: Message, with: Collaborators, outcome: Outcome) returns (taken: seq<Task>)
      requires Valid()
      modifies this
      ensures Valid()
      ensures ctx.from !in old(userQueues) ==>
        taken == [Task(ctx, with)] &&
        Processed(Model(), ctx.from) == old(Submitted(Model(), ctx.from)) + [Task(ctx, with)] &&
        userQueues == old(userQueues) && userLocks == old(userLocks) &&
        errorLog == (if outcome == Failed then old(errorLog) + [ctx.from] else old(errorLog)) &&
        (forall v :: v != ctx.from ==>
          Processed(Model(), v) == old(Processed(Model(), v)) &&
          Submitted(Model(), v) == old(Submitted(Model(), v)))
      ensures ctx.from in old(userQueues) ==>
        taken == [] && Model() == Registry.Submit(old(Model()), Task(ctx, with)).0
    {
      var userId := ctx.from;
      ghost var s0 := Model();
      ghost var s1 := Registry.Enqueue(s0, Task(ctx, with));
      if userId in userQueues {
        SubmitAppends(s0, Task(ctx, with));
      } else {
        FirstMessageAlone(s0, Task(ctx, with), outcome);
      }
      Enqueue(ctx, with);
      assert Model() == s1;
      if !(userId in userLocks && userLocks[userId]) && |userQueues[userId]| == 1 {
        assert userId !in s0.queues;
        taken := RunQueue(userId, [outcome]);
      } else {
        taken := [];
      }
    }
  }
}

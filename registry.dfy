/** The per-user message scheduler of src/app.ts, as values.

    The scheduler's shared state is two module-level tables, `userQueues`
    (user id to the array of pending tasks) and `userLocks` (user id to a
    lock flag). JavaScript runs the code between two `await`s without
    interruption, so the scheduler changes state in exactly two kinds of
    atomic step:

    - Submit: the welcome flow's action appends a task and, if it finds the
      user idle, calls `handleQueue`, which runs up to its first `await`
      (the lock check, the loop test, the lock and the `shift`);
    - EndTask: the awaited processing of the task in flight settles, and
      `handleQueue` resumes: it logs a failure, releases the lock, re-tests
      the loop and either locks and shifts the next task or deletes both
      table entries and returns.

    Each step is written here as a function on `State`, built from smaller
    functions that follow the code line by line. Besides the two tables,
    `State` keeps a ghost record of what the program does not store:
    how many drain loops are running per user, the task each loop is
    awaiting, and the per-user history of submitted and processed tasks. */
module Registry {

  /** `ctx.from`: the sender's id, the key of both tables. */
  type UserId(==, !new)

  /** The flow's handles (`flowDynamic`, `state`, `provider`) that travel with
      a task to the processor; the scheduler never looks inside them. */
  type Collaborators

  /** The message text `ctx.body`, which only the processor reads. */
  type Text

  /** The inbound message context `ctx`. */
  datatype Message = Message(from: UserId, body: Text)

  /** One queued unit of work: the object pushed at line 150. */
  datatype Task = Task(ctx: Message, with: Collaborators)

  datatype Option<T> = None | Some(value: T)

  /** How the awaited `processUserMessage` call settled: resolved, or
      rejected (the rejection is caught and logged). */
  datatype Outcome = Completed | Failed

  datatype State = State(
    queues: map<UserId, seq<Task>>,  // userQueues
    locks: map<UserId, bool>,        // userLocks
    running: multiset<UserId>,       // handleQueue calls that got past the lock check and have not returned
    inFlight: map<UserId, Task>,     // the task a suspended loop is awaiting
    submitted: map<UserId, seq<Task>>,
    processed: map<UserId, seq<Task>>,
    errors: seq<UserId>)             // one entry per console.error line, naming the user

  /** Both tables empty, as created at lines 21-22; nothing has happened yet. */
  function Init(): State {
    State(map[], map[], multiset{}, map[], map[], map[], [])
  }

  function Queue(s: State, u: UserId): seq<Task> {
    if u in s.queues then s.queues[u] else []
  }

  function Current(s: State, u: UserId): seq<Task> {
    if u in s.inFlight then [s.inFlight[u]] else []
  }

  function Submitted(s: State, u: UserId): seq<Task> {
    if u in s.submitted then s.submitted[u] else []
  }

  function Processed(s: State, u: UserId): seq<Task> {
    if u in s.processed then s.processed[u] else []
  }

  /** `userLocks.get(userId)` is truthy: a missing entry reads as `undefined`. */
  predicate Locked(s: State, u: UserId) {
    u in s.locks && s.locks[u]
  }

  /** What holds of user `u` whenever no atomic step is under way: the user
      has a table entry exactly when one drain loop is running for it, that
      loop holds the lock and awaits a task, and the tasks processed, then
      the one in flight, then the queued ones are exactly the tasks
      submitted, in submission order. */
  ghost predicate UserInv(s: State, u: UserId) {
    (u in s.queues <==> u in s.locks) &&
    (u in s.queues <==> u in s.inFlight) &&
    (u in s.locks ==> s.locks[u]) &&
    s.running[u] == (if u in s.queues then 1 else 0) &&
    Submitted(s, u) == Processed(s, u) + Current(s, u) + Queue(s, u)
  }

  ghost predicate Inv(s: State) {
    forall u :: UserInv(s, u)
  }

  /** Inside an atomic step, between two lines of the code, user `u` has
      an entry but no task in flight and no lock held, with `loops` drain
      loops running for it (0 just after the push of a first task, 1 just
      after the lock is released), and its history is in order. */
  ghost predicate Between(s: State, u: UserId, loops: nat) {
    u in s.queues && u !in s.inFlight && !Locked(s, u) &&
    s.running[u] == loops &&
    Submitted(s, u) == Processed(s, u) + Queue(s, u)
  }

  /** `Between` for `u`, and every other user as `UserInv` says. */
  ghost predicate Idle(s: State, u: UserId, loops: nat) {
    (forall v :: v != u ==> UserInv(s, v)) && Between(s, u, loops)
  }

  /** Whether `UserInv` holds of `v` depends only on what the state records
      for `v`. */
  lemma UserInvFrame(s: State, s': State, v: UserId)
    requires UserInv(s, v)
    requires (v in s'.queues <==> v in s.queues) && Queue(s', v) == Queue(s, v)
    requires (v in s'.locks <==> v in s.locks) && Locked(s', v) == Locked(s, v)
    requires (v in s'.inFlight <==> v in s.inFlight) && Current(s', v) == Current(s, v)
    requires s'.running[v] == s.running[v]
    requires Submitted(s', v) == Submitted(s, v) && Processed(s', v) == Processed(s, v)
    ensures UserInv(s', v)
  {
  }

  /** Lines 143-150: create an empty queue if the user has none, then push. */
  function Enqueue(s: State, t: Task): (r: State)
    ensures t.ctx.from in r.queues
  {
    var u := t.ctx.from;
    var q := if u in s.queues then s.queues[u] else [];
    s.(queues := s.queues[u := q + [t]],
       submitted := s.submitted[u := Submitted(s, u) + [t]])
  }

  /** The push of lines 145-150 creates the queue when absent and appends
      at its tail, records the submission, and changes nothing else. */
  lemma EnqueueSpec(s: State, t: Task)
    ensures var u := t.ctx.from;
      var r := Enqueue(s, t);
      r.queues[u] == Queue(s, u) + [t] &&
      (u !in s.queues ==> r.queues[u] == [t]) &&
      r.queues - {u} == s.queues - {u} &&
      Submitted(r, u) == Submitted(s, u) + [t] &&
      (forall v :: v != u ==> Submitted(r, v) == Submitted(s, v)) &&
      r.locks == s.locks && r.inFlight == s.inFlight && r.running == s.running &&
      r.processed == s.processed && r.errors == s.errors
  {
    var u := t.ctx.from;
    WithoutKey(s.queues, u, Queue(s, u) + [t]);
  }

  /** Line 153: the user is not locked and the queue holds one task. */
  predicate StartsDrain(s: State, u: UserId)
    requires u in s.queues
  {
    !Locked(s, u) && |s.queues[u]| == 1
  }

  /** The loop test at line 53 and what follows it: with tasks queued, lock
      (54) and shift the head (55), which the loop then awaits (57); with
      none, leave the loop and delete both entries (65-66). */
  function NextTask(s: State, u: UserId): (State, Option<Task>)
    requires u in s.queues
  {
    var q := s.queues[u];
    if |q| > 0 then
      (s.(locks := s.locks[u := true],
          queues := s.queues[u := q[1..]],
          inFlight := s.inFlight[u := q[0]]),
       Some(q[0]))
    else
      (s.(locks := s.locks - {u},
          queues := s.queues - {u},
          running := s.running - multiset{u}),
       None)
  }

  /** Lines 46-55: return at once when the user is locked (49-51);
      otherwise start a loop and run it up to its first `await`. */
  function HandleQueue(s: State, u: UserId): (State, Option<Task>)
    requires u in s.queues
  {
    if Locked(s, u) then (s, None)
    else NextTask(s.(running := s.running + multiset{u}), u)
  }

  /** Lines 56-62: the awaited task settles; a rejection is caught and
      logged (58-59), and the lock is released whatever the outcome (61). */
  function Release(s: State, u: UserId, o: Outcome): State
    requires u in s.inFlight
  {
    s.(locks := s.locks[u := false],
       inFlight := s.inFlight - {u},
       processed := s.processed[u := Processed(s, u) + [s.inFlight[u]]],
       errors := if o == Failed then s.errors + [u] else s.errors)
  }

  /** The Submit step: the welcome flow's action (lines 143-155) up to the
      point where it awaits `handleQueue`. The flag says whether a drain
      loop was started. */
  function Submit(s: State, t: Task): (State, bool) {
    var u := t.ctx.from;
    var s1 := Enqueue(s, t);
    if StartsDrain(s1, u) then (HandleQueue(s1, u).0, true) else (s1, false)
  }

  /** The EndTask step: the loop resumes after the await at line 57 and runs
      to its next await or to its end. */
  function EndTask(s: State, u: UserId, o: Outcome): (State, Option<Task>)
    requires u in s.inFlight && u in s.queues
  {
    NextTask(Release(s, u, o), u)
  }

  lemma InitInv()
    ensures Inv(Init())
  {
  }

  /** The loop test leaves `u` as `UserInv` says. */
  lemma NextTaskSelf(s: State, u: UserId)
    requires Between(s, u, 1)
    ensures UserInv(NextTask(s, u).0, u)
  {
    var s' := NextTask(s, u).0;
    var q := s.queues[u];
    if q != [] {
      assert q == [q[0]] + q[1..];
      assert Submitted(s', u) == Processed(s', u) + [q[0]] + q[1..];
    }
  }

  /** The loop test leaves every user as `UserInv` says. */
  lemma NextTaskInv(s: State, u: UserId)
    requires Idle(s, u, 1)
    ensures Inv(NextTask(s, u).0)
  {
    var s' := NextTask(s, u).0;
    forall v ensures UserInv(s', v) {
      if v != u {
        UserInvFrame(s, s', v);
      } else {
        NextTaskSelf(s, u);
      }
    }
  }

  /** A user's entry lives exactly as long as its drain loop: the loop test
      either takes the head of the queue under the lock, or ends the loop
      and deletes the user's entries, and touches no other user. */
  lemma NextTaskSpec(s: State, u: UserId)
    requires Idle(s, u, 1)
    ensures var s' := NextTask(s, u).0;
      var next := NextTask(s, u).1;
      Inv(s') &&
      s'.queues - {u} == s.queues - {u} &&
      s'.locks - {u} == s.locks - {u} &&
      s'.inFlight - {u} == s.inFlight - {u} &&
      (s.queues[u] != [] ==>
        next == Some(s.queues[u][0]) && s'.inFlight[u] == s.queues[u][0] &&
        s'.queues[u] == s.queues[u][1..] && Locked(s', u)) &&
      (s.queues[u] == [] ==>
        next == None && u !in s'.queues && u !in s'.locks && u !in s'.inFlight &&
        s'.running[u] == 0)
  {
    NextTaskInv(s, u);
  }

  /** Lines 46-55 from the state just after a first push: a drain loop starts
      and takes the head as its task in flight. */
  lemma HandleQueueSpec(s: State, u: UserId)
    requires Idle(s, u, 0)
    ensures var (s', next) := HandleQueue(s, u);
      Inv(s') && s'.running[u] <= 1 &&
      (s.queues[u] != [] ==>
        next == Some(s.queues[u][0]) && s'.inFlight[u] == s.queues[u][0] &&
        s'.queues[u] == s.queues[u][1..] && Locked(s', u))
  {
    var s1 := s.(running := s.running + multiset{u});
    forall v | v != u ensures UserInv(s1, v) {
      UserInvFrame(s, s1, v);
    }
    NextTaskSpec(s1, u);
  }

  /** After the `finally` at line 61 the loop is still running, its task is
      counted as processed, and the lock is released. */
  lemma ReleaseSpec(s: State, u: UserId, o: Outcome)
    requires Inv(s) && u in s.inFlight
    ensures Idle(Release(s, u, o), u, 1)
    ensures Processed(Release(s, u, o), u) == Processed(s, u) + [s.inFlight[u]]
    ensures Release(s, u, o).errors == (if o == Failed then s.errors + [u] else s.errors)
  {
    var s' := Release(s, u, o);
    assert UserInv(s, u);
    forall v | v != u ensures UserInv(s', v) {
      UserInvFrame(s, s', v);
    }
  }

  /** Submitting for a user who has an entry (whose drain loop is running):
      the test at line 153 fails and the task is only appended. */
  lemma SubmitAppends(s: State, t: Task)
    requires Inv(s) && t.ctx.from in s.queues
    ensures Submit(s, t) == (Enqueue(s, t), false)
    ensures Inv(Enqueue(s, t))
  {
    var u := t.ctx.from;
    var s1 := Enqueue(s, t);
    assert UserInv(s, u);
    forall v ensures UserInv(s1, v) {
      if v != u { UserInvFrame(s, s1, v); }
    }
  }

  /** Submitting for a user with no entry: the queue is created holding only
      the new task, the test at line 153 passes and `handleQueue` is called. */
  lemma SubmitStarts(s: State, t: Task)
    requires Inv(s) && t.ctx.from !in s.queues
    ensures var s1 := Enqueue(s, t);
      Submit(s, t) == (HandleQueue(s1, t.ctx.from).0, true) &&
      s1.queues[t.ctx.from] == [t] &&
      Idle(s1, t.ctx.from, 0)
  {
    var u := t.ctx.from;
    var s1 := Enqueue(s, t);
    assert UserInv(s, u);
    forall v | v != u ensures UserInv(s1, v) {
      UserInvFrame(s, s1, v);
    }
  }

  /** The Submit step keeps the invariant. It starts a drain exactly when the
      user has no entry, so never while a task of the user is in flight (at
      most one drain per user); the task goes to the tail of the queue, or
      straight into processing when the queue was just created; no other
      user's entries change. */
  lemma SubmitSpec(s: State, t: Task)
    requires Inv(s)
    ensures var u := t.ctx.from;
      var s' := Submit(s, t).0;
      var drain := Submit(s, t).1;
      Inv(s') &&
      (drain <==> u !in s.queues) &&
      (drain <==> u !in s.inFlight) &&
      Submitted(s', u) == Submitted(s, u) + [t] &&
      s'.errors == s.errors && s'.processed == s.processed &&
      s'.queues - {u} == s.queues - {u} &&
      s'.locks - {u} == s.locks - {u} &&
      s'.inFlight - {u} == s.inFlight - {u} &&
      (drain ==> s'.inFlight[u] == t && s'.queues[u] == [] && Locked(s', u)) &&
      (!drain ==> s'.queues[u] == s.queues[u] + [t] &&
                  s'.locks == s.locks && s'.inFlight == s.inFlight)
  {
    var u := t.ctx.from;
    assert UserInv(s, u);
    if u in s.queues {
      SubmitAppends(s, t);
    } else {
      SubmitStarts(s, t);
      HandleQueueSpec(Enqueue(s, t), u);
    }
  }

  /** The EndTask step keeps the invariant. The settled task joins the
      processed ones whatever its outcome, and a failure adds one entry to
      the error log. The loop then goes on with the head of the queue, or,
      with the queue empty, deletes the user's lock and queue entries; no
      other user's entries change. */
  lemma EndTaskStep(s: State, u: UserId, o: Outcome)
    requires Inv(s) && u in s.inFlight
    ensures u in s.queues
    ensures var s' := EndTask(s, u, o).0;
      var next := EndTask(s, u, o).1;
      Inv(s') &&
      Processed(s', u) == Processed(s, u) + [s.inFlight[u]] &&
      Submitted(s', u) == Submitted(s, u) &&
      s'.errors == (if o == Failed then s.errors + [u] else s.errors) &&
      (forall v :: v != u ==> Submitted(s', v) == Submitted(s, v) && Processed(s', v) == Processed(s, v)) &&
      s'.queues - {u} == s.queues - {u} &&
      s'.locks - {u} == s.locks - {u} &&
      s'.inFlight - {u} == s.inFlight - {u} &&
      (s.queues[u] != [] ==>
        next == Some(s.queues[u][0]) && s'.inFlight[u] == s.queues[u][0] &&
        s'.queues[u] == s.queues[u][1..] && Locked(s', u)) &&
      (s.queues[u] == [] ==>
        next == None && s'.queues == s.queues - {u} && s'.locks == s.locks - {u} &&
        s'.inFlight == s.inFlight - {u})
  {
    assert UserInv(s, u);
    ReleaseSpec(s, u, o);
    NextTaskSpec(Release(s, u, o), u);
  }

  /** A failed task is caught (lines 58-59): the step after it is the same
      as after a success, save the one extra line of the error log. */
  lemma FailureOnlyLogs(s: State, u: UserId)
    requires Inv(s) && u in s.inFlight
    ensures u in s.queues
    ensures var failed := EndTask(s, u, Failed);
      var completed := EndTask(s, u, Completed);
      failed.1 == completed.1 &&
      failed.0 == completed.0.(errors := s.errors + [u]) &&
      completed.0.errors == s.errors
  {
    EndTaskStep(s, u, Failed);
  }

  /** Once a user's entries are gone, the next submission for that user
      finds no entry, creates a fresh queue and starts a new drain loop
      that takes the new task. */
  lemma ResubmitAfterCleanup(s: State, u: UserId, o: Outcome, t: Task)
    requires Inv(s) && u in s.inFlight && u in s.queues && s.queues[u] == [] && t.ctx.from == u
    ensures var s1 := EndTask(s, u, o).0;
      u !in s1.queues && u !in s1.locks &&
      var (s2, drain) := Submit(s1, t);
      drain && s2.inFlight[u] == t && s2.queues[u] == [] && Locked(s2, u)
  {
    EndTaskStep(s, u, o);
    var s1 := EndTask(s, u, o).0;
    SubmitSpec(s1, t);
  }

  /** An interleaving of the two atomic steps, for any users. A settle event
      for a user with no task in flight resumes nothing. */
  datatype Event = Arrive(task: Task) | Settle(user: UserId, outcome: Outcome)

  function Apply(s: State, e: Event): State {
    match e
    case Arrive(t) => Submit(s, t).0
    case Settle(u, o) =>
      if u in s.inFlight && u in s.queues then EndTask(s, u, o).0 else s
  }

  function Run(evs: seq<Event>): State
    decreases |evs|
  {
    if evs == [] then Init() else Apply(Run(evs[..|evs| - 1]), evs[|evs| - 1])
  }

  lemma {:induction false} RunInv(evs: seq<Event>)
    ensures Inv(Run(evs))
    decreases |evs|
  {
    if evs == [] {
      InitInv();
    } else {
      var s := Run(evs[..|evs| - 1]);
      RunInv(evs[..|evs| - 1]);
      match evs[|evs| - 1]
      case Arrive(t) => SubmitSpec(s, t);
      case Settle(u, o) =>
        if u in s.inFlight && u in s.queues {
          EndTaskStep(s, u, o);
        }
    }
  }

  /** The tasks that arrive for `u` in `evs`, in arrival order. */
  function Arrivals(evs: seq<Event>, u: UserId): seq<Task>
    decreases |evs|
  {
    if evs == [] then []
    else
      var e := evs[|evs| - 1];
      Arrivals(evs[..|evs| - 1], u) + (if e.Arrive? && e.task.ctx.from == u then [e.task] else [])
  }

  /** One event adds to the history of `u` exactly the task it brings for
      `u`, if any. */
  lemma ApplyRecords(s: State, e: Event, u: UserId)
    ensures Submitted(Apply(s, e), u) ==
      Submitted(s, u) + (if e.Arrive? && e.task.ctx.from == u then [e.task] else [])
  {
  }

  /** The submission history the model keeps for `u` is exactly the order in
      which messages from `u` arrived. */
  lemma {:induction false} SubmittedIsArrivals(evs: seq<Event>, u: UserId)
    ensures Submitted(Run(evs), u) == Arrivals(evs, u)
    decreases |evs|
  {
    if evs != [] {
      SubmittedIsArrivals(evs[..|evs| - 1], u);
      ApplyRecords(Run(evs[..|evs| - 1]), evs[|evs| - 1], u);
    }
  }

  /** Under every interleaving of submissions and settlements, for every
      user: the processed tasks, then the one in flight, then the queued
      ones are exactly the user's messages in arrival order (nothing
      reordered, dropped or duplicated); at most one drain loop runs; and
      the user holds an entry exactly while a task is in flight, under a
      lock that is set. */
  lemma FifoPerUser(evs: seq<Event>, u: UserId)
    ensures var s := Run(evs);
      Arrivals(evs, u) == Processed(s, u) + Current(s, u) + Queue(s, u) &&
      s.running[u] <= 1 &&
      (u in s.queues <==> u in s.inFlight) &&
      (u in s.queues ==> Locked(s, u)) &&
      (u in s.locks ==> u in s.queues)
  {
    RunInv(evs);
    SubmittedIsArrivals(evs, u);
    assert UserInv(Run(evs), u);
  }

  /** The state after the loop for `u` is resumed once per outcome in `os`;
      once the loop has ended, a resumption resumes nothing. */
  function Drained(s: State, u: UserId, os: seq<Outcome>): State
    decreases |os|
  {
    if os == [] || u !in s.inFlight || u !in s.queues then s
    else Drained(EndTask(s, u, os[0]).0, u, os[1..])
  }

  /** The tasks the loop takes up next during those resumptions, in order. */
  function Taken(s: State, u: UserId, os: seq<Outcome>): seq<Task>
    decreases |os|
  {
    if os == [] || u !in s.inFlight || u !in s.queues then []
    else
      var step := EndTask(s, u, os[0]);
      (if step.1.Some? then [step.1.value] else []) + Taken(step.0, u, os[1..])
  }

  /** One resumption of the loop for `u`: the settled task leaves, and the
      head of the queue, if any, is taken up next. */
  lemma EndTaskShifts(s: State, u: UserId, o: Outcome)
    requires u in s.inFlight && u in s.queues
    ensures var s' := EndTask(s, u, o).0;
      var next := EndTask(s, u, o).1;
      Processed(s', u) == Processed(s, u) + [s.inFlight[u]] &&
      Submitted(s', u) == Submitted(s, u) &&
      (s.queues[u] != [] ==>
        u in s'.inFlight && u in s'.queues && next == Some(s.queues[u][0]) &&
        s'.inFlight[u] == s.queues[u][0] && s'.queues[u] == s.queues[u][1..]) &&
      (s.queues[u] == [] ==> u !in s'.inFlight && u !in s'.queues && next == None)
  {
  }

  /** Setting or deleting key `k` leaves the map without `k` as it was. */
  lemma WithoutKey<K(!new), V>(m: map<K, V>, k: K, x: V)
    ensures m[k := x] - {k} == m - {k}
    ensures (m - {k}) - {k} == m - {k}
  {
    assert (m[k := x] - {k}).Keys == (m - {k}).Keys;
  }

  /** Removing a key that is not there changes nothing. */
  lemma WithoutAbsentKey<K(!new), V>(m: map<K, V>, k: K)
    requires k !in m
    ensures m - {k} == m
  {
  }

  /** One resumption of the loop for `u` changes no other user's entries;
      the user's own are deleted when the loop ends. */
  lemma EndTaskFrame(s: State, u: UserId, o: Outcome)
    requires u in s.inFlight && u in s.queues
    ensures var s' := EndTask(s, u, o).0;
      s'.queues - {u} == s.queues - {u} &&
      s'.locks - {u} == s.locks - {u} &&
      s'.inFlight - {u} == s.inFlight - {u} &&
      (s.queues[u] == [] ==>
        s'.queues == s.queues - {u} && s'.locks == s.locks - {u} &&
        s'.inFlight == s.inFlight - {u})
  {
    var r := Release(s, u, o);
    var q := s.queues[u];
    WithoutKey(s.locks, u, false);
    WithoutKey(s.inFlight, u, s.inFlight[u]);
    if q != [] {
      WithoutKey(r.locks, u, true);
      WithoutKey(r.queues, u, q[1..]);
      WithoutKey(r.inFlight, u, q[0]);
    } else {
      WithoutKey(s.locks, u, false);
    }
  }

  /** The drain takes up the queued tasks, in queue order. */
  lemma {:induction false} DrainTakesQueue(s: State, u: UserId, os: seq<Outcome>)
    requires u in s.inFlight && u in s.queues && |os| == |s.queues[u]| + 1
    ensures Taken(s, u, os) == s.queues[u]
    decreases |os|
  {
    EndTaskShifts(s, u, os[0]);
    TakenStep(s, u, os);
    var s1 := EndTask(s, u, os[0]).0;
    var q := s.queues[u];
    if q == [] {
      assert Taken(s1, u, os[1..]) == [];
    } else {
      DrainTakesQueue(s1, u, os[1..]);
      assert Taken(s, u, os) == [q[0]] + q[1..];
      HeadTail(q);
    }
  }

  lemma HeadTail<T>(q: seq<T>)
    requires q != []
    ensures [q[0]] + q[1..] == q
  {
  }

  lemma Associative<T>(a: seq<T>, b: seq<T>, c: seq<T>)
    ensures a + b + c == a + (b + c)
  {
  }

  lemma HeadThenTail<T>(done: seq<T>, q: seq<T>)
    requires q != []
    ensures done + [q[0]] + q[1..] == done + q
  {
    assert q == [q[0]] + q[1..];
  }

  /** One resumption, then the rest of the drain. */
  lemma TakenStep(s: State, u: UserId, os: seq<Outcome>)
    requires u in s.inFlight && u in s.queues && os != []
    ensures var q := s.queues[u];
      Taken(s, u, os) == (if q == [] then [] else [q[0]]) + Taken(EndTask(s, u, os[0]).0, u, os[1..])
  {
  }

  lemma DrainedStep(s: State, u: UserId, os: seq<Outcome>)
    requires u in s.inFlight && u in s.queues && os != []
    ensures Drained(s, u, os) == Drained(EndTask(s, u, os[0]).0, u, os[1..])
  {
  }

  /** Once over, the drain has processed the task that was in flight and
      then every queued task, in order. */
  lemma {:induction false} DrainProcessesAll(s: State, u: UserId, os: seq<Outcome>)
    requires u in s.inFlight && u in s.queues && |os| == |s.queues[u]| + 1
    ensures Processed(Drained(s, u, os), u) == Processed(s, u) + [s.inFlight[u]] + s.queues[u]
    decreases |os|
  {
    EndTaskShifts(s, u, os[0]);
    DrainedStep(s, u, os);
    var s1 := EndTask(s, u, os[0]).0;
    var q := s.queues[u];
    if q != [] {
      DrainProcessesAll(s1, u, os[1..]);
      var done := Processed(s, u) + [s.inFlight[u]];
      calc {
        Processed(Drained(s, u, os), u);
        Processed(s1, u) + [s1.inFlight[u]] + s1.queues[u];
        done + [q[0]] + q[1..];
        { HeadThenTail(done, q); }
        done + q;
      }
    }
  }

  /** One pass of the loop at lines 53-63 from its test: the loop resumed
      after the pass is the loop resumed with the rest of the outcomes. */
  lemma LoopPass(b: State, u: UserId, os: seq<Outcome>)
    requires u in b.queues && u !in b.inFlight && b.queues[u] != [] && os != []
    ensures var a := NextTask(b, u).0;
      u in a.inFlight && u in a.queues &&
      Drained(a, u, os) == Drained(NextTask(Release(a, u, os[0]), u).0, u, os[1..])
  {
  }

  /** The loop test changes no other user's entries. */
  lemma NextTaskFrame(s: State, u: UserId)
    requires u in s.queues
    ensures var s' := NextTask(s, u).0;
      s'.queues - {u} == s.queues - {u} && s'.locks - {u} == s.locks - {u}
  {
    var q := s.queues[u];
    if q != [] {
      WithoutKey(s.locks, u, true);
      WithoutKey(s.queues, u, q[1..]);
    } else {
      WithoutKey(s.locks, u, false);
      WithoutKey(s.queues, u, q);
    }
  }

  /** Every resumption of the drain keeps the invariant. */
  lemma {:induction false} DrainKeepsInv(s: State, u: UserId, os: seq<Outcome>)
    requires Inv(s)
    ensures Inv(Drained(s, u, os))
    decreases |os|
  {
    if os != [] && u in s.inFlight && u in s.queues {
      EndTaskStep(s, u, os[0]);
      DrainKeepsInv(EndTask(s, u, os[0]).0, u, os[1..]);
    }
  }

  /** Once over, the drain has deleted exactly the user's table entries. */
  lemma {:induction false} DrainDeletesEntries(s: State, u: UserId, os: seq<Outcome>)
    requires u in s.inFlight && u in s.queues && |os| == |s.queues[u]| + 1
    ensures var s' := Drained(s, u, os);
      s'.queues == s.queues - {u} &&
      s'.locks == s.locks - {u} &&
      s'.inFlight == s.inFlight - {u}
    decreases |os|
  {
    EndTaskShifts(s, u, os[0]);
    EndTaskFrame(s, u, os[0]);
    var s1 := EndTask(s, u, os[0]).0;
    if s.queues[u] == [] {
      assert Drained(s, u, os) == s1;
    } else {
      DrainDeletesEntries(s1, u, os[1..]);
    }
  }

  /** The error-log lines a drain with outcomes `os` writes for `u`: one per
      failure, in order. */
  function FailLines(u: UserId, os: seq<Outcome>): seq<UserId>
    decreases |os|
  {
    if os == [] then [] else (if os[0] == Failed then [u] else []) + FailLines(u, os[1..])
  }

  /** One resumption logs one line exactly when its task failed. */
  lemma EndTaskLogs(s: State, u: UserId, o: Outcome)
    requires u in s.inFlight && u in s.queues
    ensures EndTask(s, u, o).0.errors == s.errors + (if o == Failed then [u] else [])
  {
  }

  /** Once over, the drain has logged exactly one line per failed task. */
  lemma {:induction false} DrainLogs(s: State, u: UserId, os: seq<Outcome>)
    requires u in s.inFlight && u in s.queues && |os| == |s.queues[u]| + 1
    ensures Drained(s, u, os).errors == s.errors + FailLines(u, os)
    decreases |os|
  {
    EndTaskShifts(s, u, os[0]);
    EndTaskLogs(s, u, os[0]);
    DrainedStep(s, u, os);
    var s1 := EndTask(s, u, os[0]).0;
    var line := if os[0] == Failed then [u] else [];
    assert FailLines(u, os) == line + FailLines(u, os[1..]);
    if s.queues[u] == [] {
      assert FailLines(u, os[1..]) == [];
    } else {
      DrainLogs(s1, u, os[1..]);
      Associative(s.errors, line, FailLines(u, os[1..]));
    }
  }

  /** A drain for `u` changes no other user's histories. */
  lemma {:induction false} DrainKeepsOther(s: State, u: UserId, os: seq<Outcome>, v: UserId)
    requires v != u
    ensures Submitted(Drained(s, u, os), v) == Submitted(s, v)
    ensures Processed(Drained(s, u, os), v) == Processed(s, v)
    decreases |os|
  {
    if os != [] && u in s.inFlight && u in s.queues {
      DrainKeepsOther(EndTask(s, u, os[0]).0, u, os[1..], v);
    }
  }

  lemma DrainKeepsOthers(s: State, u: UserId, os: seq<Outcome>)
    ensures forall v :: v != u ==>
      Submitted(Drained(s, u, os), v) == Submitted(s, v) &&
      Processed(Drained(s, u, os), v) == Processed(s, v)
  {
    forall v | v != u
      ensures Submitted(Drained(s, u, os), v) == Submitted(s, v)
      ensures Processed(Drained(s, u, os), v) == Processed(s, v)
    {
      DrainKeepsOther(s, u, os, v);
    }
  }

  /** A running loop, resumed once for its task in flight and once per
      queued task, whatever each outcome, takes up every queued task in
      order, processes every task ever submitted for the user, and ends by
      deleting exactly the user's entries. */
  lemma DrainCompletes(s: State, u: UserId, os: seq<Outcome>)
    requires Inv(s) && u in s.inFlight && |os| == |Queue(s, u)| + 1
    ensures var s' := Drained(s, u, os);
      Taken(s, u, os) == Queue(s, u) &&
      Processed(s', u) == Submitted(s, u) &&
      s'.queues == s.queues - {u} &&
      s'.locks == s.locks - {u} &&
      s'.inFlight == s.inFlight - {u}
  {
    assert UserInv(s, u);
    DrainTakesQueue(s, u, os);
    DrainProcessesAll(s, u, os);
    DrainDeletesEntries(s, u, os);
  }

  /** `handleQueue` called on a user just given a first task and run to its
      return while nothing else happens, each awaited call settling as `os`
      says: the invariant holds again, every task submitted for the user is
      processed, one line is logged per failure, exactly the user's queue
      and lock entries are gone, and no other user's history changes. */
  lemma RunAlone(s: State, u: UserId, os: seq<Outcome>)
    requires Idle(s, u, 0) && s.queues[u] != [] && |os| == |s.queues[u]|
    ensures var f := Drained(HandleQueue(s, u).0, u, os);
      Inv(f) &&
      Processed(f, u) == Submitted(s, u) &&
      f.queues == s.queues - {u} && f.locks == s.locks - {u} &&
      f.errors == s.errors + FailLines(u, os) &&
      (forall v :: v != u ==> Processed(f, v) == Processed(s, v) && Submitted(f, v) == Submitted(s, v))
  {
    var s1 := HandleQueue(s, u).0;
    HandleQueueSpec(s, u);
    NextTaskFrame(s.(running := s.running + multiset{u}), u);
    DrainCompletes(s1, u, os);
    DrainKeepsInv(s1, u, os);
    DrainLogs(s1, u, os);
    DrainKeepsOthers(s1, u, os);
  }

  /** The welcome action for a user with no entry, awaited to its end while
      nothing else happens: the message is processed, one line is logged
      exactly when it fails, and the tables are left as they were. */
  lemma FirstMessageAlone(s: State, t: Task, o: Outcome)
    requires Inv(s) && t.ctx.from !in s.queues
    ensures var u := t.ctx.from;
      var s1 := Enqueue(s, t);
      Idle(s1, u, 0) && s1.queues[u] == [t] &&
      var f := Drained(HandleQueue(s1, u).0, u, [o]);
      Inv(f) &&
      Processed(f, u) == Submitted(s, u) + [t] &&
      f.queues == s.queues && f.locks == s.locks &&
      f.errors == (if o == Failed then s.errors + [u] else s.errors) &&
      (forall v :: v != u ==> Processed(f, v) == Processed(s, v) && Submitted(f, v) == Submitted(s, v))
  {
    var u := t.ctx.from;
    var s1 := Enqueue(s, t);
    SubmitStarts(s, t);
    EnqueueSpec(s, t);
    RunAlone(s1, u, [o]);
    assert FailLines(u, [o]) == if o == Failed then [u] else [];
    assert UserInv(s, u);
    WithoutAbsentKey(s.queues, u);
    WithoutAbsentKey(s.locks, u);
  }
}

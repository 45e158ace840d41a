/** Runs of the scheduler of src/app.ts on a fresh object, one per
    behaviour the welcome flow is meant to have. Each method states what
    the scheduler reports along the run, for every outcome of the awaited
    processing. */
module Scenarios {
  import opened Registry
  import opened App

  /** Three messages from one user arrive while the first is processed:
      only the first starts a drain, the loop then takes up the other two
      in arrival order, each failure is logged once, and the user's entries
      are gone at the end. */
  method OneUserBurst(m1: Message, m2: Message, m3: Message, with: Collaborators,
                      o1: Outcome, o2: Outcome, o3: Outcome)
    returns (starts: seq<bool>, next: seq<Option<Task>>, failures: nat, cleared: bool)
    requires m2.from == m1.from && m3.from == m1.from
    ensures starts == [true, false, false]
    ensures next == [Some(Task(m2, with)), Some(Task(m3, with)), None]
    ensures failures == (if o1 == Failed then 1 else 0) + (if o2 == Failed then 1 else 0) +
                        (if o3 == Failed then 1 else 0)
    ensures cleared
  {
    var u := m1.from;
    var scheduler := new Scheduler();
    var d1 := scheduler.Submit(m1, with);
    var d2 := scheduler.Submit(m2, with);
    var d3 := scheduler.Submit(m3, with);
    starts := [d1, d2, d3];
    var n1 := scheduler.EndTask(u, o1);
    var n2 := scheduler.EndTask(u, o2);
    var n3 := scheduler.EndTask(u, o3);
    next := [n1, n2, n3];
    failures := |scheduler.errorLog|;
    cleared := u !in scheduler.userQueues && u !in scheduler.userLocks;
  }

  /** A second user's first message starts its own drain although the
      first user is busy, and neither user's queue receives the other's
      messages. */
  method TwoUsers(m1: Message, m2: Message, m3: Message, with: Collaborators, o: Outcome)
    returns (starts: seq<bool>, next: Option<Task>, otherBusy: bool)
    requires m2.from != m1.from && m3.from == m1.from
    ensures starts == [true, true, false]
    ensures next == Some(Task(m3, with))
    ensures otherBusy
  {
    var scheduler := new Scheduler();
    var d1 := scheduler.Submit(m1, with);
    var d2 := scheduler.Submit(m2, with);
    var d3 := scheduler.Submit(m3, with);
    starts := [d1, d2, d3];
    next := scheduler.EndTask(m1.from, o);
    otherBusy := m2.from in scheduler.userQueues && scheduler.userQueues[m2.from] == [] &&
                 m2.from in scheduler.userLocks && scheduler.userLocks[m2.from];
  }

  /** After the drain has deleted the user's entries, the next message of
      that user finds no queue, creates one and starts a new drain. */
  method ResubmitAfterCleanup(m1: Message, m2: Message, with: Collaborators, o: Outcome)
    returns (starts: seq<bool>, next: Option<Task>, clearedBetween: bool)
    requires m2.from == m1.from
    ensures starts == [true, true]
    ensures next == None
    ensures clearedBetween
  {
    var u := m1.from;
    var scheduler := new Scheduler();
    var d1 := scheduler.Submit(m1, with);
    next := scheduler.EndTask(u, o);
    clearedBetween := u !in scheduler.userQueues && u !in scheduler.userLocks;
    var d2 := scheduler.Submit(m2, with);
    starts := [d1, d2];
  }

  /** Two messages of one user, each awaited to its end before the next
      arrives: each is processed by its own drain, whatever the outcome,
      and no entry is left behind. */
  method OneAtATime(m1: Message, m2: Message, with: Collaborators, o1: Outcome, o2: Outcome)
    returns (first: seq<Task>, second: seq<Task>, cleared: bool)
    requires m2.from == m1.from
    ensures first == [Task(m1, with)] && second == [Task(m2, with)]
    ensures cleared
  {
    var scheduler := new Scheduler();
    first := scheduler.Welcome(m1, with, o1);
    second := scheduler.Welcome(m2, with, o2);
    cleared := scheduler.userQueues == map[] && scheduler.userLocks == map[];
  }
}

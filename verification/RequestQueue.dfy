/** The coalescer in its own form: module dictionaries changed in place by `request_sync`,
    `cancel_account` and the stretches of `_drain` between its awaits. */
module RequestQueue {
  import opened Coalescer

  /** One stretch of code between two awaits is this step of the state machine, whatever the history. */
  ghost predicate IsStep(before: State, step: Step, after: State) {
    forall w: World, slots: nat :: w.s == before && Can(w, slots, step) ==> Apply(w, slots, step).s == after
  }

  lemma AskIsStep(s: State, account: nat, request: Request)
    ensures IsStep(s, Request_(account, request), Ask(s, account, request))
  {
    hide Ask;
  }

  lemma CancelIsStep(s: State, account: nat)
    ensures IsStep(s, Step.CancelAccount(account), Cancel(s, account))
  {
    hide Cancel;
  }

  /** A task that runs for the first time goes to the loop's head. */
  lemma HeadIsStep(s: State, t: nat)
    requires t in s.tasks
    ensures IsStep(s, Start(t), DrainHead(s, t))
  {
  }

  /** So does one whose pass ended, a swallowed cancellation included. */
  lemma ResumeIsStep(s: State, t: nat)
    requires t in s.tasks && s.tasks[t].at.Syncing?
    ensures IsStep(s, Return(t), DrainHead(EndPass(s, t), t))
    ensures IsStep(s, Swallow(t), DrainHead(EndPass(s, t), t))
  {
    hide EndPass;
  }

  /** A delivered cancellation leaves through both cleanups. */
  lemma UnwindIsStep(s: State, t: nat)
    requires t in s.tasks && s.tasks[t].at.Syncing?
    ensures IsStep(s, Unwind(t), Leave(EndPass(s, t), t))
  {
    hide EndPass;
    hide Leave;
  }

  class Requests {
    var running: map<nat, nat>
    var pending: map<nat, Request>
    var pendingActivity: map<nat, nat>
    var retired: set<nat>
    // The event loop's tasks, the open activities and the locks.
    var tasks: map<nat, Task>
    var activities: set<nat>
    var lock: map<nat, Owner>
    var slots: set<nat>
    var nextTask: nat
    var nextActivity: nat

    ghost function View(): State
      reads this
    {
      State(running, pending, pendingActivity, retired, tasks, activities, lock, slots, nextTask, nextActivity)
    }

    /** Ids are handed out in order. */
    ghost predicate Valid()
      reads this
    {
      (forall x :: x in activities ==> x < nextActivity) && forall t :: t in tasks ==> t < nextTask
    }

    constructor ()
      ensures View() == IDLE && Valid()
    {
      running, pending, pendingActivity, retired := map[], map[], map[], {};
      tasks, activities, lock, slots, nextTask, nextActivity := map[], {}, map[], {}, 0, 0;
    }

    method BeginActivity() returns (activity: nat)
      requires Valid()
      modifies this`activities, this`nextActivity
      ensures Valid() && activity == old(nextActivity) && nextActivity == old(nextActivity) + 1
      ensures activity !in old(activities) && activities == old(activities) + {activity}
    {
      activity := nextActivity;
      activities := activities + {activity};
      nextActivity := nextActivity + 1;
    }

    method CreateTask(account: nat) returns (task: nat)
      requires Valid()
      modifies this`tasks, this`nextTask
      ensures Valid() && task == old(nextTask) && nextTask == old(nextTask) + 1
      ensures task !in old(tasks) && tasks == old(tasks)[task := Task(account, false, Unstarted)]
    {
      task := nextTask;
      tasks := tasks[task := Task(account, false, Unstarted)];
      nextTask := nextTask + 1;
    }

    method MergeWithPending(account: nat, request: Request) returns (merged: Request)
      ensures merged == if account in pending then Merge(pending[account], request) else request
    {
      var scope, discover := request.scope, request.discover;
      if account in pending {
        var previous := pending[account];
        if previous.scope.All? || scope.All? {
          scope := All;
        } else {
          scope := Only(previous.scope.folders + scope.folders);
        }
        discover := discover || previous.discover;
      }
      merged := Request(scope, discover);
    }

    /** `request_sync` */
    method RequestSync(account: nat, request: Request) returns (task: nat)
      requires Valid()
      modifies this
      ensures Valid() && View() == Ask(old(View()), account, request)
      ensures IsStep(old(View()), Request_(account, request), View())
      ensures account in running && task == running[account]
    {
      AskIsStep(View(), account, request);
      hide IsStep;
      var merged := MergeWithPending(account, request);
      hide Merge;
      if account !in pendingActivity {
        var activity := BeginActivity();
        pendingActivity := pendingActivity[account := activity];
      }
      pending := pending[account := merged];
      assert View() == Enqueue(old(View()), account, request) && Valid();
      hide Enqueue;
      if account !in running {
        var created := CreateTask(account);
        running := running[account := created];
      }
      task := running[account];
    }

    /** The head of the drain loop: pop and enter a pass, or run the task's `finally` and end. */
    method EnterLoop(t: nat) returns (more: bool)
      requires Valid() && t in tasks && pending.Keys == pendingActivity.Keys
      modifies this
      ensures Valid() && View() == DrainHead(old(View()), t)
      ensures IsStep(old(View()), Start(t), View())
      ensures more <==> old(HasPending(View(), t))
    {
      HeadIsStep(View(), t);
      hide IsStep;
      var account := tasks[t].account;
      if account in pending {
        var request, activity := pending[account], pendingActivity[account];
        pending := pending - {account};
        pendingActivity := pendingActivity - {account};
        tasks := tasks[t := tasks[t].(at := Syncing(request, activity, AwaitLock))];
        return true;
      }
      Deregister(t);
      return false;
    }

    /** The outer `finally`: the registration goes only if it is still this task's. */
    method Deregister(t: nat)
      requires Valid() && t in tasks
      modifies this`running, this`tasks
      ensures Valid() && View() == Leave(old(View()), t)
    {
      var account := tasks[t].account;
      if account in running && running[account] == t {
        running := running - {account};
      }
      tasks := tasks[t := tasks[t].(at := Finished, cancelled := false)];
    }

    /** `sync_account` is left, by return or exception: the lock, the slot and the activity go. */
    method FinishPass(t: nat)
      requires Valid() && t in tasks && tasks[t].at.Syncing?
      modifies this`activities, this`lock, this`slots, this`tasks
      ensures Valid() && View() == EndPass(old(View()), t)
    {
      var account := tasks[t].account;
      activities := activities - {tasks[t].at.activity};
      if account in lock && lock[account] == Pass(t) {
        lock := lock - {account};
      }
      slots := slots - {t};
      tasks := tasks[t := tasks[t].(cancelled := false)];
    }

    /** From the end of one pass to the next await: around the loop, or out of it. */
    method Resume(t: nat) returns (more: bool)
      requires Valid() && t in tasks && tasks[t].at.Syncing? && pending.Keys == pendingActivity.Keys
      modifies this
      ensures Valid() && View() == DrainHead(EndPass(old(View()), t), t)
      ensures IsStep(old(View()), Return(t), View()) && IsStep(old(View()), Swallow(t), View())
      ensures more <==> old(HasPending(View(), t))
    {
      ResumeIsStep(View(), t);
      hide IsStep;
      FinishPass(t);
      more := EnterLoop(t);
    }

    /** A delivered cancellation leaves the loop through both `finally` clauses. */
    method Unwound(t: nat)
      requires Valid() && t in tasks && tasks[t].at.Syncing?
      modifies this
      ensures Valid() && View() == Leave(EndPass(old(View()), t), t)
      ensures IsStep(old(View()), Unwind(t), View())
    {
      UnwindIsStep(View(), t);
      hide IsStep;
      FinishPass(t);
      Deregister(t);
    }

    /** `cancel_account` */
    method CancelAccount(account: nat)
      requires Valid() && (account in running ==> running[account] in tasks)
      modifies this
      ensures Valid() && View() == Cancel(old(View()), account)
      ensures IsStep(old(View()), Step.CancelAccount(account), View())
      ensures account !in running && account !in pending && account !in pendingActivity
    {
      CancelIsStep(View(), account);
      hide IsStep;
      pending := pending - {account};
      if account in pendingActivity {
        activities := activities - {pendingActivity[account]};
        pendingActivity := pendingActivity - {account};
      }
      if account in running {
        var task := running[account];
        running := running - {account};
        retired := retired + {task};
        tasks := tasks[task := tasks[task].(cancelled := true)];
      }
    }
  }
}

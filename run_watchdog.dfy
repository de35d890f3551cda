/**
 * The dual-queue dispatcher of the watchdog runner (`WatchdogRunner`): an
 * `incomplete` queue of accounts that crashed with work left, which always
 * goes first, a `normal` rotation queue, the `running_tasks` dictionary of
 * session tasks (kept in insertion order), and the rotation counter.  The account ledger and the KPI
 * store it drives are the `Accounts.AccountMonitor` and `Kpi.KpiManager`
 * objects; the browser, the clock and the tasks themselves are inputs.
 */
module Runner {
  import opened Wrappers
  import opened TextUtil
  import Accounts
  import Kpi
  import ConfigFile

  /** `TASKS_PER_ROTATION`: the most tasks one session does. */
  const TasksPerRotation: int := 100
  /** `WATCHDOG_MAX_RESTARTS`. */
  const MaxRestarts: int := 3
  /** The reason `_on_crash` records. */
  const CrashReason: string := "Watchdog detected browser crash"

  /** What one call of `_spawn_next_browser` did. */
  datatype SpawnOutcome =
    | OutsideHours
    | QueuesEmpty
    | NoPassword(email: string)
    | AlreadyRunning(email: string)
    | Spawned(email: string)

  /**
   * One value of `running_tasks`: the asyncio task of a session, named by the
   * spawn that created it, and whether it has finished (returned, raised or
   * been cancelled to the end of its `finally` block).
   */
  datatype Task = Task(id: nat, done: bool)

  /** How a session's task ended: normally, by an exception, or cancelled (which skips both handlers). */
  datatype SessionEnd = Finished | Raised(error: string) | Cancelled

  /** What one check of the rotation condition in `run` decided. */
  datatype RotationOutcome =
    | NotDue
    | Stopped
    | Blocked(spawnCount: int)
    | NewRotation(spawnCount: int)

  function Min(a: int, b: int): (r: int)
    ensures r <= a && r <= b && (r == a || r == b)
  {
    if a <= b then a else b
  }

  /** The tasks a session is given: what its KPI still needs, capped by the rotation size. */
  function SessionBudget(kpiRemaining: nat): (r: int)
    ensures r <= kpiRemaining && r <= TasksPerRotation
    ensures r == kpiRemaining || r == TasksPerRotation
    ensures r <= 0 <==> kpiRemaining == 0
  {
    Min(kpiRemaining, TasksPerRotation)
  }

  /** Browsers spawned when work hours resume: as many as wanted, but no more than are queued. */
  function ResumeSpawnCount(minBrowsers: int, incompleteCount: nat, normalCount: nat): (r: int)
    ensures r <= minBrowsers && r <= incompleteCount + normalCount
    ensures r == minBrowsers || r == incompleteCount + normalCount
  {
    Min(minBrowsers, normalCount + incompleteCount)
  }

  /** The safety top-up at the end of each pass of `run`: the missing browsers, when anything is queued. */
  function TopUpCount(minBrowsers: int, active: nat, incompleteCount: nat, normalCount: nat): (r: int)
    ensures r > 0 <==> active < minBrowsers && incompleteCount + normalCount > 0
    ensures r > 0 ==> active + r == minBrowsers
  {
    if active < minBrowsers && incompleteCount + normalCount > 0 then minBrowsers - active else 0
  }

  /**
   * The `normal` queue after the requeue block at the end of `_run_account`:
   * untouched once the KPI is met, the account appended after a full session,
   * and after a short one appended only when it waits in neither queue.
   */
  function RequeueAfterSession(email: string, kpiMet: bool, completed: int, maxTasks: int,
                               incomplete: seq<string>, normal: seq<string>): (r: seq<string>)
    ensures kpiMet ==> r == normal
    ensures !kpiMet && completed >= maxTasks ==> r == normal + [email]
    ensures !kpiMet && completed < maxTasks ==>
      r == if email !in incomplete && email !in normal then normal + [email] else normal
    ensures !kpiMet ==> email in r || email in incomplete
    ensures forall x :: x in r ==> x in normal || x == email
  {
    if kpiMet then normal
    else if completed >= maxTasks then normal + [email]
    else if maxTasks - completed > 0 && email !in incomplete && email !in normal then normal + [email]
    else normal
  }

  /**
   * A short session never puts a second copy of its account in the queues; a
   * full one can, when the account was already queued (a crash requeue that
   * raced the session's end).
   */
  lemma RequeueDuplicates(email: string, kpiMet: bool, completed: int, maxTasks: int,
                          incomplete: seq<string>, normal: seq<string>)
    requires Distinct(normal)
    ensures completed < maxTasks ==> Distinct(RequeueAfterSession(email, kpiMet, completed, maxTasks, incomplete, normal))
    ensures !kpiMet && completed >= maxTasks && email in normal ==>
      !Distinct(RequeueAfterSession(email, kpiMet, completed, maxTasks, incomplete, normal))
  {
    var r := RequeueAfterSession(email, kpiMet, completed, maxTasks, incomplete, normal);
    if !kpiMet && completed >= maxTasks && email in normal {
      var k :| 0 <= k < |normal| && normal[k] == email;
      assert r[k] == r[|normal|];
    }
  }

  /**
   * The `normal` queue after the work-hours pause has walked `ids` (the running
   * accounts, in order): each appended unless already in a queue.
   */
  function PauseQueue(ids: seq<string>, incomplete: seq<string>, normal: seq<string>): (r: seq<string>)
    decreases |ids|
  {
    if ids == [] then normal
    else
      var before := PauseQueue(ids[..|ids| - 1], incomplete, normal);
      var e := ids[|ids| - 1];
      if e !in before && e !in incomplete then before + [e] else before
  }

  /**
   * After the pause every paused account waits in a queue, the old `normal`
   * queue is a prefix of the new one, only paused accounts are added, and no
   * account is queued twice.
   */
  lemma {:induction false} PauseQueueProperties(ids: seq<string>, incomplete: seq<string>, normal: seq<string>)
    ensures var r := PauseQueue(ids, incomplete, normal);
      |normal| <= |r| && r[..|normal|] == normal
      && (forall e :: e in ids ==> e in r || e in incomplete)
      && (forall e :: e in r ==> e in normal || e in ids)
      && (Distinct(normal) ==> Distinct(r))
    decreases |ids|
  {
    if ids != [] {
      var rest := ids[..|ids| - 1];
      PauseQueueProperties(rest, incomplete, normal);
      var before := PauseQueue(rest, incomplete, normal);
      var r := PauseQueue(ids, incomplete, normal);
      assert forall e :: e in ids <==> e in rest || e == ids[|ids| - 1];
      assert r[..|normal|] == before[..|normal|];
    }
  }

  /** One more walked account: it is appended exactly when it waits in no queue yet. */
  lemma PauseQueueSnoc(ids: seq<string>, e: string, incomplete: seq<string>, normal: seq<string>)
    ensures PauseQueue(ids + [e], incomplete, normal) ==
      var before := PauseQueue(ids, incomplete, normal);
      if e !in before && e !in incomplete then before + [e] else before
  {
    assert (ids + [e])[..|ids|] == ids;
  }

  /** The keys among `keys` whose task is not done, in order: the tasks `run` counts as running. */
  function LiveKeys(keys: seq<string>, tasks: map<string, Task>): (r: seq<string>)
    ensures forall e :: e in r <==> e in keys && e in tasks && !tasks[e].done
    ensures Distinct(keys) ==> Distinct(r)
    ensures |r| <= |keys|
  {
    if keys == [] then []
    else
      var e := keys[|keys| - 1];
      var rest := keys[..|keys| - 1];
      assert forall x :: x in keys <==> x in rest || x == e;
      assert Distinct(keys) ==> e !in rest;
      LiveKeys(rest, tasks) + if e in tasks && !tasks[e].done then [e] else []
  }

  lemma LiveKeysSnoc(keys: seq<string>, i: nat, tasks: map<string, Task>)
    requires i < |keys|
    ensures LiveKeys(keys[..i + 1], tasks) ==
      LiveKeys(keys[..i], tasks) + if keys[i] in tasks && !tasks[keys[i]].done then [keys[i]] else []
  {
    assert keys[..i + 1][..i] == keys[..i];
  }

  /**
   * `running_tasks` once task `id` of `email` has finished.  The entry is
   * marked done only while it still holds that task: a task that `_on_crash`
   * popped, or whose key a later spawn reassigned, leaves the entry alone.
   */
  function EndTask(tasks: map<string, Task>, email: string, id: nat): (r: map<string, Task>)
    ensures forall e :: e in r <==> e in tasks
    ensures forall e :: e in r && e != email ==> r[e] == tasks[e]
    ensures email in tasks ==> r[email].id == tasks[email].id
    ensures email in tasks ==> (r[email].done <==> tasks[email].done || tasks[email].id == id)
  {
    if email in tasks && tasks[email].id == id then tasks[email := Task(id, true)] else tasks
  }

  /** The first occurrence of each email, in order: the key order of the source's dictionaries. */
  function EmailOrder(accounts: seq<ConfigFile.AccountEntry>): (r: seq<string>)
    ensures Distinct(r)
    ensures forall e :: e in r <==> exists k :: 0 <= k < |accounts| && accounts[k].email == e
  {
    if accounts == [] then []
    else
      var rest := accounts[..|accounts| - 1];
      var last := accounts[|accounts| - 1];
      var before := EmailOrder(rest);
      assert forall k :: 0 <= k < |rest| ==> rest[k] == accounts[k];
      if last.email in before then before else before + [last.email]
  }

  /** `passwords`: each email to its password, a later line overriding an earlier one. */
  function PasswordMap(accounts: seq<ConfigFile.AccountEntry>): (r: map<string, string>)
    ensures forall e :: e in r <==> exists k :: 0 <= k < |accounts| && accounts[k].email == e
  {
    if accounts == [] then map[]
    else
      var rest := accounts[..|accounts| - 1];
      assert forall k :: 0 <= k < |rest| ==> rest[k] == accounts[k];
      PasswordMap(rest)[accounts[|accounts| - 1].email := accounts[|accounts| - 1].password]
  }

  /** `account_kpis`: each email to its KPI, 100 when the line gave none, a later line overriding. */
  function KpiMap(accounts: seq<ConfigFile.AccountEntry>): (r: map<string, int>)
    ensures forall e :: e in r <==> exists k :: 0 <= k < |accounts| && accounts[k].email == e
  {
    if accounts == [] then map[]
    else
      var rest := accounts[..|accounts| - 1];
      var last := accounts[|accounts| - 1];
      assert forall k :: 0 <= k < |rest| ==> rest[k] == accounts[k];
      KpiMap(rest)[last.email := last.kpi.GetOr(ConfigFile.DefaultKpi)]
  }

  /** The last line for an email decides its password and KPI. */
  lemma {:induction false} LastLineWins(accounts: seq<ConfigFile.AccountEntry>, k: int)
    requires 0 <= k < |accounts|
    requires forall j :: k < j < |accounts| ==> accounts[j].email != accounts[k].email
    ensures PasswordMap(accounts)[accounts[k].email] == accounts[k].password
    ensures KpiMap(accounts)[accounts[k].email] == accounts[k].kpi.GetOr(ConfigFile.DefaultKpi)
  {
    var rest := accounts[..|accounts| - 1];
    if k < |accounts| - 1 {
      assert forall j :: k < j < |rest| ==> rest[j] == accounts[j];
      LastLineWins(rest, k);
    }
  }

  /** The ledger entry `_on_crash` leaves: crashed, with the watchdog's reason, restart count untouched. */
  function LostRecord(rec: Accounts.Record): (r: Accounts.Record)
    ensures r.status == Accounts.Crashed && r.error == Some(CrashReason)
    ensures r.restartCount == rec.restartCount && r.maxTasks == rec.maxTasks && r.completedTasks == rec.completedTasks
  {
    rec.(status := Accounts.Crashed, error := Some(CrashReason))
  }

  /** Whether `_on_crash` puts the account back at the front of `incomplete`. */
  predicate CrashRequeues(rec: Accounts.Record) {
    Accounts.RemainingOf(LostRecord(rec)) > 0 && Accounts.Restartable(LostRecord(rec), MaxRestarts)
  }

  /**
   * The watchdog's crash path never spends the restart budget: however often
   * a browser is lost, an account with work left and a budget left is requeued
   * again every time.
   */
  lemma {:induction false} CrashPathNeverExhausts(rec: Accounts.Record, n: nat)
    requires Accounts.RemainingOf(rec) > 0 && rec.restartCount < MaxRestarts
    ensures CrashRequeues(LostRepeatedly(rec, n))
    ensures LostRepeatedly(rec, n).restartCount == rec.restartCount
  {
    if n > 0 {
      CrashPathNeverExhausts(rec, n - 1);
    }
  }

  /** The entry after `n` watchdog crashes in a row. */
  function LostRepeatedly(rec: Accounts.Record, n: nat): Accounts.Record {
    if n == 0 then rec else LostRecord(LostRepeatedly(rec, n - 1))
  }

  /** The entry after the session's own progress updates. */
  function WithProgress(rec: Accounts.Record, completed: nat): Accounts.Record {
    if completed > 0 then rec.(completedTasks := completed) else rec
  }

  /** Whether the exception handler of `_run_account` sends the account to the front of `incomplete`. */
  predicate SessionRestarts(rec: Accounts.Record, completed: nat, ending: SessionEnd) {
    ending.Raised? &&
    var crashed := Accounts.CrashedRecord(WithProgress(rec, completed), ending.error);
    Accounts.Restartable(crashed, MaxRestarts) && Accounts.RemainingOf(crashed) > 0
  }

  /**
   * The ledger entry once a session has ended and its handler has run.  A
   * session that finished or raised is judged on its last reported progress;
   * a cancelled one runs only its `finally`, which writes nothing to the ledger.
   */
  function AfterSession(rec: Accounts.Record, completed: nat, ending: SessionEnd): Accounts.Record {
    match ending
    case Finished => WithProgress(rec, completed).(status := Accounts.Completed, completedTasks := completed)
    case Raised(err) =>
      var crashed := Accounts.CrashedRecord(WithProgress(rec, completed), err);
      if SessionRestarts(rec, completed, ending) then Accounts.RestartingRecord(crashed) else crashed
    case Cancelled => rec
  }

  /**
   * The end of a session repeats nothing its per-task reports have not already
   * written, and a cancelled session leaves whatever entry a respawn has made.
   */
  lemma EndingAfterReports(rec: Accounts.Record, completed: nat, ending: SessionEnd)
    ensures AfterSession(WithProgress(rec, completed), completed, ending) ==
      if ending.Cancelled? then WithProgress(rec, completed) else AfterSession(rec, completed, ending)
    ensures ending.Cancelled? ==> AfterSession(rec, completed, ending) == rec
  {
  }

  /** The handler sees the entry with the session's progress already applied. */
  lemma RaiseAfterProgress(rec: Accounts.Record, completed: nat, err: string)
    ensures AfterSession(rec, completed, Raised(err)) == AfterSession(WithProgress(rec, completed), 0, Raised(err))
    ensures SessionRestarts(rec, completed, Raised(err)) == SessionRestarts(WithProgress(rec, completed), 0, Raised(err))
  {
  }

  /**
   * A session that raises is requeued only while the restart budget lasts, each
   * requeue spends one restart, and the requeued account is one the ledger lists
   * as incomplete.
   */
  lemma SessionRestartSpendsBudget(rec: Accounts.Record, completed: nat, ending: SessionEnd)
    ensures SessionRestarts(rec, completed, ending) ==>
      rec.restartCount < MaxRestarts
      && AfterSession(rec, completed, ending).restartCount == rec.restartCount + 1
      && Accounts.IsIncompleteRecord(AfterSession(rec, completed, ending))
    ensures !SessionRestarts(rec, completed, ending) ==> AfterSession(rec, completed, ending).restartCount == rec.restartCount
    ensures ending.Raised? && !SessionRestarts(rec, completed, ending) ==>
      AfterSession(rec, completed, ending).status == Accounts.Crashed
  {
  }

  /**
   * The two loops of the clean-up in `run`: the done tasks' keys collected
   * and deleted.  One pass does the same: the live keys stay, in order.
   */
  method DropDone(keys: seq<string>, start: map<string, Task>) returns (kept: seq<string>, live: map<string, Task>)
    requires forall e :: e in keys <==> e in start
    ensures kept == LiveKeys(keys, start)
    ensures forall e :: e in live <==> e in start && !start[e].done
    ensures forall e :: e in live ==> live[e] == start[e]
  {
    kept, live := [], start;
    for i := 0 to |keys|
      invariant kept == LiveKeys(keys[..i], start)
      invariant forall e :: e in live <==> e in start && (e in keys[..i] ==> !start[e].done)
      invariant forall e :: e in live ==> live[e] == start[e]
    {
      LiveKeysSnoc(keys, i, start);
      PrefixSnoc(keys, i);
      var e := keys[i];
      if start[e].done {
        live := live - {e};
      } else {
        kept := kept + [e];
      }
    }
    WholePrefix(keys);
  }

  /** The loop of the work-hours pause: each live task's account queued in `normal` unless already waiting. */
  method PauseWalk(keys: seq<string>, start: map<string, Task>, incomplete: seq<string>, normal: seq<string>)
    returns (queue: seq<string>)
    requires forall e :: e in keys ==> e in start
    ensures queue == PauseQueue(LiveKeys(keys, start), incomplete, normal)
  {
    queue := normal;
    for i := 0 to |keys|
      invariant queue == PauseQueue(LiveKeys(keys[..i], start), incomplete, normal)
    {
      PauseWalkStep(keys, i, start, incomplete, normal);
      var e := keys[i];
      if !start[e].done && e !in queue && e !in incomplete {
        queue := queue + [e];
      }
    }
    WholePrefix(keys);
  }

  /** One more key of the pause walk: its account is queued exactly when its task is not done and it waits nowhere. */
  lemma PauseWalkStep(keys: seq<string>, i: nat, start: map<string, Task>, incomplete: seq<string>, normal: seq<string>)
    requires i < |keys| && keys[i] in start
    ensures var q := PauseQueue(LiveKeys(keys[..i], start), incomplete, normal);
      PauseQueue(LiveKeys(keys[..i + 1], start), incomplete, normal) ==
        if !start[keys[i]].done && keys[i] !in q && keys[i] !in incomplete then q + [keys[i]] else q
  {
    LiveKeysSnoc(keys, i, start);
    var ids := LiveKeys(keys[..i], start);
    if !start[keys[i]].done {
      assert LiveKeys(keys[..i + 1], start) == ids + [keys[i]];
      PauseQueueSnoc(ids, keys[i], incomplete, normal);
    } else {
      assert LiveKeys(keys[..i + 1], start) == ids;
    }
  }

  class WatchdogRunner {
    /** `WATCHDOG_MIN_BROWSERS`. */
    const minBrowsers: int
    const monitor: Accounts.AccountMonitor
    const kpi: Kpi.KpiManager
    /** Keys of `account_kpis` (and of `passwords`) in insertion order. */
    var accountOrder: seq<string>
    var passwords: map<string, string>
    var accountKpis: map<string, int>
    var incomplete: seq<string>
    var normal: seq<string>
    /** Keys of `running_tasks`, in insertion order: a key reassigned by a later spawn keeps its place. */
    var running: seq<string>
    /** `running_tasks`: each key's session task. */
    var tasks: map<string, Task>
    /** How many tasks have been spawned: the identity the next one gets. */
    var spawned: nat
    var rotation: int

    /** Every id the runner holds names a configured account. */
    ghost predicate Known(ids: seq<string>)
      reads this
    {
      forall e :: e in ids ==> e in accountKpis
    }

    ghost predicate Valid()
      reads this, monitor, kpi
    {
      monitor.Valid() && kpi.Valid() && ConfigShape() && MonitorKnown()
      && Known(incomplete) && Known(normal) && Known(running) && TasksShape()
    }

    /** `running` lists the keys of `tasks` once each, and every task comes from an earlier spawn. */
    ghost predicate TasksShape()
      reads this
    {
      Distinct(running) && (forall e :: e in tasks <==> e in running)
      && (forall e :: e in tasks ==> tasks[e].id < spawned)
    }

    /** The configured accounts: listed once each, with a password, a KPI and a KPI-store target. */
    ghost predicate ConfigShape()
      reads this, kpi
    {
      Distinct(accountOrder) && (forall e :: e in accountKpis <==> e in accountOrder)
      && (forall e :: e in passwords <==> e in accountKpis)
      && (forall e :: e in kpi.kpis <==> e in accountKpis)
    }

    /** The ledger tracks configured accounts only. */
    ghost predicate MonitorKnown()
      reads this, monitor
    {
      forall e :: e in monitor.accounts ==> e in accountKpis
    }

    constructor (minBrowsers: int)
      ensures Valid() && fresh(monitor) && fresh(kpi)
      ensures this.minBrowsers == minBrowsers && rotation == 1
      ensures accountOrder == [] && passwords == map[] && accountKpis == map[]
      ensures incomplete == [] && normal == [] && running == [] && tasks == map[]
      ensures monitor.accounts == map[] && kpi.kpis == map[] && kpi.progress == map[] && kpi.order == []
    {
      this.minBrowsers := minBrowsers;
      monitor := new Accounts.AccountMonitor();
      kpi := new Kpi.KpiManager();
      accountOrder := [];
      passwords := map[];
      accountKpis := map[];
      incomplete := [];
      normal := [];
      running := [];
      tasks := map[];
      spawned := 0;
      rotation := 1;
    }

    /** The accounts among `keys` whose KPI is not met, in order. */
    function NeedingWork(keys: seq<string>): (r: seq<string>)
      reads kpi
      ensures forall e :: e in r <==> e in keys && !kpi.HasMetKpi(e)
      ensures Distinct(keys) ==> Distinct(r)
      ensures |r| <= |keys|
    {
      if keys == [] then []
      else
        var e := keys[|keys| - 1];
        var rest := keys[..|keys| - 1];
        assert forall x :: x in keys <==> x in rest || x == e;
        assert Distinct(keys) ==> e !in rest;
        NeedingWork(rest) + if kpi.HasMetKpi(e) then [] else [e]
    }

    /** Nobody needs work exactly when every KPI is met. */
    lemma NeedingWorkEmptyIffAllMet()
      requires Valid()
      ensures NeedingWork(accountOrder) == [] <==> kpi.AllMet()
    {
      if NeedingWork(accountOrder) != [] {
        assert NeedingWork(accountOrder)[0] in NeedingWork(accountOrder);
      }
    }

    /** The loop that collects the accounts still needing work, in configuration order. */
    method CollectNeedingWork() returns (r: seq<string>)
      ensures r == NeedingWork(accountOrder)
    {
      var keys := accountOrder;
      r := [];
      for i := 0 to |keys|
        invariant r == NeedingWork(keys[..i])
      {
        NeedingWorkSnoc(keys, i);
        var met := kpi.HasMetKpi(keys[i]);
        r := r + if met then [] else [keys[i]];
      }
      WholePrefix(keys);
    }

    lemma NeedingWorkSnoc(keys: seq<string>, i: nat)
      requires i < |keys|
      ensures NeedingWork(keys[..i + 1]) == NeedingWork(keys[..i]) + if kpi.HasMetKpi(keys[i]) then [] else [keys[i]]
    {
      PrefixSnoc(keys, i);
    }

    /**
     * `initialize`: passwords and KPIs from the configured accounts, the KPI
     * store given every target and refreshed from the workbook of tasks, and the
     * accounts that still need work queued as `normal`, in configuration order.
     */
    method Initialize(accounts: seq<ConfigFile.AccountEntry>, book: Kpi.Workbook)
      requires Valid() && accountOrder == [] && incomplete == [] && normal == [] && running == []
      requires kpi.progress == map[]
      modifies this, kpi
      ensures Valid() && unchanged(this`rotation) && incomplete == [] && running == []
      ensures accountOrder == EmailOrder(accounts)
      ensures passwords == PasswordMap(accounts) && accountKpis == KpiMap(accounts)
      ensures kpi.kpis == accountKpis
      ensures forall e :: e in kpi.kpis ==> e in kpi.progress && kpi.progress[e] == Kpi.RowsFor(book, e)
      ensures normal == NeedingWork(accountOrder)
    {
      Configure(accounts);
      RefreshKpi(book);
      normal := CollectNeedingWork();
    }

    /** The `refresh_from_task_logger` call of `initialize`: only the KPI store's progress moves. */
    method RefreshKpi(book: Kpi.Workbook)
      requires Valid()
      modifies kpi
      ensures Valid() && unchanged(kpi`kpis) && unchanged(this, monitor)
      ensures forall e :: e in kpi.kpis ==> e in kpi.progress && kpi.progress[e] == Kpi.RowsFor(book, e)
    {
      kpi.RefreshProgress(book);
    }

    /** The part of `initialize` before the refresh: accounts loaded and targets set. */
    method Configure(accounts: seq<ConfigFile.AccountEntry>)
      requires Valid() && accountOrder == [] && incomplete == [] && normal == [] && running == []
      modifies this, kpi
      ensures Valid() && unchanged(this`rotation) && incomplete == [] && normal == [] && running == []
      ensures accountOrder == EmailOrder(accounts)
      ensures passwords == PasswordMap(accounts) && accountKpis == KpiMap(accounts)
      ensures kpi.kpis == accountKpis && unchanged(kpi`progress)
    {
      assert forall e :: e !in kpi.kpis && e !in monitor.accounts;
      assert kpi.kpis == map[];
      ghost var ledger := monitor.accounts;
      LoadAccounts(accounts);
      SetTargets();
      assert monitor.accounts == ledger;
    }

    /** The first loop of `initialize`: `passwords` and `account_kpis` filled from the account lines. */
    method LoadAccounts(accounts: seq<ConfigFile.AccountEntry>)
      requires Valid() && accountOrder == [] && incomplete == [] && normal == [] && running == []
      modifies this`accountOrder, this`passwords, this`accountKpis
      ensures unchanged(this`rotation) && incomplete == [] && normal == [] && running == []
      ensures accountOrder == EmailOrder(accounts)
      ensures passwords == PasswordMap(accounts) && accountKpis == KpiMap(accounts)
      ensures monitor.Valid() && kpi.Valid()
      ensures Distinct(accountOrder) && (forall e :: e in accountKpis <==> e in accountOrder)
      ensures forall e :: e in passwords <==> e in accountKpis
    {
      passwords := map[];
      accountKpis := map[];
      for i := 0 to |accounts|
        invariant unchanged(this`rotation) && incomplete == [] && normal == [] && running == []
        invariant accountOrder == EmailOrder(accounts[..i])
        invariant passwords == PasswordMap(accounts[..i]) && accountKpis == KpiMap(accounts[..i])
      {
        LoadStep(accounts, i);
        var acc := accounts[i];
        if acc.email !in accountKpis {
          accountOrder := accountOrder + [acc.email];
        }
        passwords := passwords[acc.email := acc.password];
        accountKpis := accountKpis[acc.email := acc.kpi.GetOr(ConfigFile.DefaultKpi)];
      }
      WholePrefix(accounts);
    }

    /** One more account line: its email appended when new, its password and KPI set, a later line overriding. */
    static lemma LoadStep(accounts: seq<ConfigFile.AccountEntry>, i: nat)
      requires i < |accounts|
      ensures var e := accounts[i].email;
        var before := accounts[..i];
        var after := accounts[..i + 1];
        (e in KpiMap(before) <==> e in EmailOrder(before))
        && EmailOrder(after) == (if e in EmailOrder(before) then EmailOrder(before) else EmailOrder(before) + [e])
        && PasswordMap(after) == PasswordMap(before)[e := accounts[i].password]
        && KpiMap(after) == KpiMap(before)[e := accounts[i].kpi.GetOr(ConfigFile.DefaultKpi)]
    {
      PrefixSnoc(accounts, i);
    }

    /** The second loop of `initialize`: every account's target handed to the KPI store, in order. */
    method SetTargets()
      requires monitor.Valid() && kpi.Valid() && kpi.kpis == map[]
      requires Distinct(accountOrder) && (forall e :: e in accountKpis <==> e in accountOrder)
      modifies kpi
      ensures kpi.Valid() && kpi.kpis == accountKpis && kpi.order == accountOrder
      ensures unchanged(kpi`progress)
    {
      KeysListed(kpi.kpis, kpi.order);
      for i := 0 to |accountOrder|
        invariant kpi.Valid() && kpi.order == accountOrder[..i] && unchanged(kpi`progress)
        invariant forall e :: e in kpi.kpis <==> e in accountOrder[..i]
        invariant forall e :: e in kpi.kpis ==> kpi.kpis[e] == accountKpis[e]
      {
        var e := accountOrder[i];
        assert e !in accountOrder[..i];
        PrefixSnoc(accountOrder, i);
        kpi.SetKpi(e, accountKpis[e]);
      }
      WholePrefix(accountOrder);
    }

    /** The configuration and the rotation stay as they were. */
    twostate predicate ConfigKept()
      reads this
    {
      unchanged(this`accountOrder, this`passwords, this`accountKpis, this`rotation)
    }

    /** `running_tasks` and the spawn counter stay as they were. */
    twostate predicate TasksKept()
      reads this
    {
      unchanged(this`running, this`tasks, this`spawned)
    }

    /** A task for `email` is in `running_tasks` and not done. */
    predicate IsRunning(email: string)
      reads this
    {
      email in tasks && !tasks[email].done
    }

    /**
     * A new task for `email` under the next identity: a new key goes last, a
     * reassigned key keeps its place.
     */
    twostate predicate SpawnedTask(email: string)
      reads this
    {
      tasks == old(tasks)[email := Task(old(spawned), false)] && spawned == old(spawned) + 1
      && running == if email in old(tasks) then old(running) else old(running) + [email]
    }

    /**
     * `_spawn_next_browser`: nothing outside work hours.  Otherwise the head of
     * `incomplete` is taken whenever that queue is non-empty, the head of
     * `normal` only when it is empty.  An account without a password is
     * dropped, one whose task is still running goes to the back of the queue it
     * came from, and any other gets a new task.
     */
    method SpawnNext(canRun: bool) returns (outcome: SpawnOutcome)
      requires Valid()
      modifies this
      ensures Valid() && ConfigKept()
      ensures !canRun ==> outcome == OutsideHours
      ensures canRun && old(incomplete) == [] && old(normal) == [] ==> outcome == QueuesEmpty
      ensures outcome.OutsideHours? || outcome.QueuesEmpty? ==>
        unchanged(this`incomplete, this`normal) && TasksKept()
      ensures canRun && old(incomplete) != [] ==>
        !outcome.OutsideHours? && !outcome.QueuesEmpty? && outcome.email == old(incomplete)[0]
        && unchanged(this`normal)
        && incomplete == old(incomplete)[1..] + (if outcome.AlreadyRunning? then [outcome.email] else [])
      ensures canRun && old(incomplete) == [] && old(normal) != [] ==>
        !outcome.OutsideHours? && !outcome.QueuesEmpty? && outcome.email == old(normal)[0]
        && incomplete == []
        && normal == old(normal)[1..] + (if outcome.AlreadyRunning? then [outcome.email] else [])
      ensures outcome.NoPassword? ==>
        (outcome.email !in passwords || passwords[outcome.email] == []) && TasksKept()
      ensures outcome.AlreadyRunning? ==>
        outcome.email in passwords && passwords[outcome.email] != [] && old(IsRunning(outcome.email)) && TasksKept()
      ensures outcome.Spawned? ==>
        outcome.email in passwords && passwords[outcome.email] != [] && !old(IsRunning(outcome.email))
        && SpawnedTask(outcome.email)
    {
      if !canRun {
        return OutsideHours;
      }
      if incomplete == [] && normal == [] {
        return QueuesEmpty;
      }
      var email, fromIncomplete := PopNext();
      outcome := Launch(email, fromIncomplete);
    }

    /** The queue choice of `_spawn_next_browser`: `incomplete` first, `normal` only when it is empty. */
    method PopNext() returns (email: string, fromIncomplete: bool)
      requires Valid() && (incomplete != [] || normal != [])
      modifies this`incomplete, this`normal
      ensures Valid() && email in accountKpis
      ensures fromIncomplete <==> old(incomplete) != []
      ensures fromIncomplete ==>
        email == old(incomplete)[0] && incomplete == old(incomplete)[1..] && unchanged(this`normal)
      ensures !fromIncomplete ==>
        email == old(normal)[0] && normal == old(normal)[1..] && unchanged(this`incomplete)
    {
      if incomplete != [] {
        email, fromIncomplete := incomplete[0], true;
        incomplete := incomplete[1..];
      } else {
        email, fromIncomplete := normal[0], false;
        normal := normal[1..];
      }
    }

    /**
     * The rest of `_spawn_next_browser` once an account is taken: dropped without
     * a password, back to the end of its queue while its task runs, else given a new task.
     */
    method Launch(email: string, fromIncomplete: bool) returns (outcome: SpawnOutcome)
      requires Valid() && email in accountKpis
      modifies this
      ensures Valid() && ConfigKept()
      ensures (outcome.NoPassword? || outcome.AlreadyRunning? || outcome.Spawned?) && outcome.email == email
      ensures fromIncomplete ==>
        unchanged(this`normal) && incomplete == old(incomplete) + (if outcome.AlreadyRunning? then [email] else [])
      ensures !fromIncomplete ==>
        unchanged(this`incomplete) && normal == old(normal) + (if outcome.AlreadyRunning? then [email] else [])
      ensures outcome.NoPassword? ==> (email !in passwords || passwords[email] == []) && TasksKept()
      ensures outcome.AlreadyRunning? ==>
        email in passwords && passwords[email] != [] && old(IsRunning(email)) && TasksKept()
      ensures outcome.Spawned? ==>
        email in passwords && passwords[email] != [] && !old(IsRunning(email)) && SpawnedTask(email)
    {
      if email !in passwords || passwords[email] == [] {
        return NoPassword(email);
      }
      if IsRunning(email) {
        if fromIncomplete {
          incomplete := incomplete + [email];
        } else {
          normal := normal + [email];
        }
        return AlreadyRunning(email);
      }
      StartTask(email);
      return Spawned(email);
    }

    /** `running_tasks[email] = asyncio.create_task(...)`. */
    method StartTask(email: string)
      requires Valid() && email in accountKpis
      modifies this`running, this`tasks, this`spawned
      ensures Valid() && SpawnedTask(email)
    {
      if email !in tasks {
        running := running + [email];
      }
      tasks := tasks[email := Task(spawned, false)];
      spawned := spawned + 1;
    }

    /**
     * `_on_crash`: the ledger marks the account lost, its task is popped from
     * `running_tasks` (and cancelled), and it goes to the front of `incomplete`
     * exactly when it has tasks left and may still restart; `normal` never
     * changes.  The pop touches none of the ledger's state, so it is taken first.
     */
    method OnCrash(email: string)
      requires Valid()
      modifies this`running, this`tasks, this`incomplete, monitor
      ensures Valid()
      ensures unchanged(this`accountOrder, this`passwords, this`accountKpis, this`rotation, this`normal, this`spawned)
      ensures email in old(monitor.accounts) ==>
        monitor.accounts == old(monitor.accounts)[email := LostRecord(old(monitor.accounts)[email])]
      ensures email !in old(monitor.accounts) ==> monitor.accounts == old(monitor.accounts)
      ensures running == Remove(old(running), email) && tasks == old(tasks) - {email}
      ensures incomplete ==
        if email in old(monitor.accounts) && CrashRequeues(old(monitor.accounts)[email])
        then [email] + old(incomplete) else old(incomplete)
    {
      PopTask(email);
      assert unchanged(this`accountOrder, this`passwords, this`accountKpis, this`rotation, this`normal, this`spawned);
      LoseAndRequeue(email);
    }

    /**
     * The ledger side of `_on_crash`: the account marked lost, then put at the
     * front of `incomplete` when it has tasks and restarts left.
     */
    method LoseAndRequeue(email: string)
      requires Valid()
      modifies this`incomplete, monitor
      ensures Valid()
      ensures email in old(monitor.accounts) ==>
        monitor.accounts == old(monitor.accounts)[email := LostRecord(old(monitor.accounts)[email])]
      ensures email !in old(monitor.accounts) ==> monitor.accounts == old(monitor.accounts)
      ensures incomplete ==
        if email in old(monitor.accounts) && CrashRequeues(old(monitor.accounts)[email])
        then [email] + old(incomplete) else old(incomplete)
    {
      LoseBrowser(email);
      var remaining := monitor.GetRemainingTasks(email);
      if remaining > 0 && monitor.ShouldRestart(email, MaxRestarts) {
        PushIncomplete(email);
      }
    }

    /** `running_tasks.pop(email)` when the key is there. */
    method PopTask(email: string)
      requires Valid()
      modifies this`running, this`tasks
      ensures Valid() && running == Remove(old(running), email) && tasks == old(tasks) - {email}
    {
      if email in tasks {
        running := Remove(running, email);
        tasks := tasks - {email};
      }
    }

    /** A configured account goes to the front of `incomplete`. */
    method PushIncomplete(email: string)
      requires Valid() && email in monitor.accounts
      modifies this`incomplete
      ensures Valid() && incomplete == [email] + old(incomplete)
    {
      incomplete := [email] + incomplete;
    }

    /** The ledger side of `_on_crash`. */
    method LoseBrowser(email: string)
      requires Valid()
      modifies monitor
      ensures Valid()
      ensures email in old(monitor.accounts) ==>
        monitor.accounts == old(monitor.accounts)[email := LostRecord(old(monitor.accounts)[email])]
      ensures email !in old(monitor.accounts) ==> monitor.accounts == old(monitor.accounts)
    {
      monitor.MarkBrowserLost(email, CrashReason);
    }

    /** Task `id` of `email` has finished. */
    method FinishTask(email: string, id: nat)
      requires Valid()
      modifies this`tasks
      ensures Valid() && tasks == EndTask(old(tasks), email, id)
    {
      if email in tasks && tasks[email].id == id {
        tasks := tasks[email := Task(id, true)];
      }
    }

    /**
     * The start of `_run_account` in task `id`: the session's budget, and the
     * ledger entry started when it is positive; with nothing to do it
     * returns at once, before its `try`, and is done.
     */
    method BeginSession(email: string, id: nat) returns (maxTasks: int)
      requires Valid() && email in accountKpis
      modifies this, monitor
      ensures Valid() && ConfigKept() && unchanged(this`incomplete, this`normal, this`running, this`spawned)
      ensures maxTasks == SessionBudget(kpi.GetRemaining(email))
      ensures maxTasks <= 0 ==> monitor.accounts == old(monitor.accounts) && tasks == EndTask(old(tasks), email, id)
      ensures maxTasks > 0 ==>
        unchanged(this`tasks) &&
        monitor.accounts == old(monitor.accounts)[email := Accounts.Record(Accounts.Running, rotation, maxTasks, 0, None,
          if email in old(monitor.accounts) then old(monitor.accounts)[email].restartCount else 0)]
    {
      maxTasks := SessionBudget(kpi.GetRemaining(email));
      if maxTasks <= 0 {
        FinishTask(email, id);
        return;
      }
      monitor.StartAccount(email, rotation, maxTasks);
    }

    /** The handlers of `_run_account`: the ledger updated for how the session ended, and a restart queued. */
    method HandleEnding(email: string, completed: nat, ending: SessionEnd)
      requires Valid()
      modifies this`incomplete, monitor
      ensures Valid() && ConfigKept() && unchanged(this`normal) && TasksKept()
      ensures email in old(monitor.accounts) ==>
        monitor.accounts == old(monitor.accounts)[email := AfterSession(old(monitor.accounts)[email], completed, ending)]
      ensures email !in old(monitor.accounts) ==> monitor.accounts == old(monitor.accounts)
      ensures incomplete ==
        if email in old(monitor.accounts) && SessionRestarts(old(monitor.accounts)[email], completed, ending)
        then [email] + old(incomplete) else old(incomplete)
    {
      ghost var before := monitor.accounts;
      match ending
      case Finished =>
        ApplyProgress(email, completed);
        ghost var mid := monitor.accounts;
        MarkFinished(email, completed);
        if email in before {
          UpdateTwice(before, email, mid[email], monitor.accounts[email]);
        }
      case Raised(err) =>
        ApplyProgress(email, completed);
        ghost var mid := monitor.accounts;
        RecordRaise(email, err);
        if email in before {
          RaiseAfterProgress(before[email], completed, err);
          UpdateTwice(before, email, mid[email], monitor.accounts[email]);
        }
      case Cancelled =>
    }

    /**
     * `update_progress` after each task of a session: a known account's
     * completed count becomes the session's count so far.
     */
    method ApplyProgress(email: string, completed: nat)
      requires Valid()
      modifies monitor
      ensures Valid()
      ensures email in old(monitor.accounts) ==>
        monitor.accounts == old(monitor.accounts)[email := WithProgress(old(monitor.accounts)[email], completed)]
      ensures email !in old(monitor.accounts) ==> monitor.accounts == old(monitor.accounts)
    {
      if completed > 0 {
        monitor.UpdateProgress(email, completed);
      }
    }

    /** The handler of a session that ran to its end. */
    method MarkFinished(email: string, completed: nat)
      requires Valid()
      modifies monitor
      ensures Valid()
      ensures email in old(monitor.accounts) ==>
        monitor.accounts == old(monitor.accounts)[email := old(monitor.accounts)[email].(status := Accounts.Completed, completedTasks := completed)]
      ensures email !in old(monitor.accounts) ==> monitor.accounts == old(monitor.accounts)
    {
      monitor.MarkCompleted(email, completed);
    }


    /** The exception handler of `_run_account`: the crash recorded, and a restart queued while budget and work remain. */
    method RecordRaise(email: string, err: string)
      requires Valid()
      modifies this`incomplete, monitor
      ensures Valid() && ConfigKept() && unchanged(this`normal) && TasksKept()
      ensures email in old(monitor.accounts) ==>
        monitor.accounts == old(monitor.accounts)[email := AfterSession(old(monitor.accounts)[email], 0, Raised(err))]
      ensures email !in old(monitor.accounts) ==> monitor.accounts == old(monitor.accounts)
      ensures incomplete ==
        if email in old(monitor.accounts) && SessionRestarts(old(monitor.accounts)[email], 0, Raised(err))
        then [email] + old(incomplete) else old(incomplete)
    {
      ghost var before := monitor.accounts;
      monitor.MarkCrashed(email, err);
      if monitor.ShouldRestart(email, MaxRestarts) {
        var remaining := monitor.GetRemainingTasks(email);
        if remaining > 0 {
          ghost var crashed := monitor.accounts[email];
          monitor.MarkRestarting(email);
          UpdateTwice(before, email, crashed, monitor.accounts[email]);
          incomplete := [email] + incomplete;
        }
      }
    }

    /**
     * The end of `_run_account` in task `id`: the handlers, then (in `finally`)
     * the KPI store refreshed and the account requeued by `RequeueAfterSession`.
     * Task `id` is then done; its entry stays in `running_tasks` until the main
     * loop's clean-up, or until a crash pops it.
     */
    method EndSession(email: string, id: nat, completed: nat, maxTasks: int, ending: SessionEnd, book: Kpi.Workbook)
      requires Valid() && email in accountKpis
      modifies this`incomplete, this`normal, this`tasks, monitor, kpi
      ensures Valid() && ConfigKept() && unchanged(this`running, this`spawned)
      ensures email in old(monitor.accounts) ==>
        monitor.accounts == old(monitor.accounts)[email := AfterSession(old(monitor.accounts)[email], completed, ending)]
      ensures email !in old(monitor.accounts) ==> monitor.accounts == old(monitor.accounts)
      ensures incomplete ==
        if email in old(monitor.accounts) && SessionRestarts(old(monitor.accounts)[email], completed, ending)
        then [email] + old(incomplete) else old(incomplete)
      ensures unchanged(kpi`kpis) && forall e :: e in kpi.kpis ==> e in kpi.progress && kpi.progress[e] == Kpi.RowsFor(book, e)
      ensures normal == RequeueAfterSession(email, kpi.HasMetKpi(email), completed, maxTasks, incomplete, old(normal))
      ensures tasks == EndTask(old(tasks), email, id)
    {
      HandleEnding(email, completed, ending);
      Finally(email, id, completed, maxTasks, book);
    }

    /** The `finally` of `_run_account`: the KPI store refreshed, the account requeued and task `id` done. */
    method Finally(email: string, id: nat, completed: nat, maxTasks: int, book: Kpi.Workbook)
      requires Valid() && email in accountKpis
      modifies this`normal, this`tasks, kpi
      ensures Valid()
      ensures unchanged(kpi`kpis) && forall e :: e in kpi.kpis ==> e in kpi.progress && kpi.progress[e] == Kpi.RowsFor(book, e)
      ensures normal == RequeueAfterSession(email, kpi.HasMetKpi(email), completed, maxTasks, incomplete, old(normal))
      ensures tasks == EndTask(old(tasks), email, id)
    {
      RefreshKpi(book);
      Release(email, id, completed, maxTasks);
    }

    /** The `finally` of `_run_account` after the KPI refresh: the account requeued and task `id` done. */
    method Release(email: string, id: nat, completed: nat, maxTasks: int)
      requires Valid() && email in accountKpis
      modifies this`normal, this`tasks
      ensures Valid()
      ensures normal == RequeueAfterSession(email, kpi.HasMetKpi(email), completed, maxTasks, incomplete, old(normal))
      ensures tasks == EndTask(old(tasks), email, id)
    {
      Requeue(email, completed, maxTasks);
      FinishTask(email, id);
    }

    /** The requeue block of `_run_account`'s `finally`. */
    method Requeue(email: string, completed: nat, maxTasks: int)
      requires Valid() && email in accountKpis
      modifies this`normal
      ensures Valid()
      ensures normal == RequeueAfterSession(email, kpi.HasMetKpi(email), completed, maxTasks, incomplete, old(normal))
    {
      normal := RequeueAfterSession(email, kpi.HasMetKpi(email), completed, maxTasks, incomplete, normal);
    }

    /**
     * The clean-up in `run`: every done task leaves `running_tasks`; the live
     * ones keep their entries and their order.
     */
    method CleanUp()
      requires Valid()
      modifies this`running, this`tasks
      ensures Valid()
      ensures running == LiveKeys(old(running), old(tasks))
      ensures forall e :: e in tasks <==> e in old(tasks) && !old(tasks)[e].done
      ensures forall e :: e in tasks ==> tasks[e] == old(tasks)[e]
    {
      running, tasks := DropDone(running, tasks);
    }

    /**
     * The work-hours pause in `run`: every task not yet done is cancelled and
     * its account appended to `normal` unless it already waits in a queue,
     * walking `running_tasks` in its order.  Cancelled tasks stay there until
     * their `finally` (`EndSession` with `Cancelled`) and the clean-up have run.
     */
    method PauseForWorkHours()
      requires Valid()
      modifies this`normal
      ensures Valid()
      ensures normal == PauseQueue(LiveKeys(running, tasks), incomplete, old(normal))
    {
      var queue := PauseWalk(running, tasks, incomplete, normal);
      PauseQueueProperties(LiveKeys(running, tasks), incomplete, normal);
      normal := queue;
    }

    /**
     * The rotation check of `run`, due once nothing is running and `normal` is
     * empty: the KPI store is refreshed; with every KPI met the system stops;
     * with accounts in `incomplete` the rotation is blocked and only they are
     * spawned; otherwise the rotation counter advances and `normal` is refilled
     * with exactly the accounts still short of their KPI, in configuration order.
     */
    method RotationStep(book: Kpi.Workbook) returns (outcome: RotationOutcome)
      requires Valid()
      modifies this, kpi
      ensures Valid() && unchanged(this`accountOrder, this`passwords, this`accountKpis)
      ensures unchanged(this`incomplete) && TasksKept() && unchanged(kpi`kpis)
      ensures LiveKeys(running, tasks) != [] || old(normal) != [] ==>
        outcome == NotDue && unchanged(this`normal) && unchanged(this`rotation) && unchanged(kpi`progress)
      ensures LiveKeys(running, tasks) == [] && old(normal) == [] ==>
        !outcome.NotDue? && forall e :: e in kpi.kpis ==> e in kpi.progress && kpi.progress[e] == Kpi.RowsFor(book, e)
      ensures outcome.Stopped? <==> LiveKeys(running, tasks) == [] && old(normal) == [] && kpi.AllMet()
      ensures outcome.Stopped? || outcome.Blocked? ==> unchanged(this`normal) && unchanged(this`rotation)
      ensures outcome.Blocked? <==> LiveKeys(running, tasks) == [] && old(normal) == [] && !kpi.AllMet() && incomplete != []
      ensures outcome.Blocked? ==> outcome.spawnCount == Min(minBrowsers, |incomplete|)
      ensures outcome.NewRotation? ==>
        rotation == old(rotation) + 1 && normal == NeedingWork(accountOrder) && normal != []
        && outcome.spawnCount == Min(minBrowsers, |normal|)
    {
      if LiveKeys(running, tasks) != [] || normal != [] {
        return NotDue;
      }
      outcome := DueRotation(book);
    }

    /** The rotation check once it is due. */
    method DueRotation(book: Kpi.Workbook) returns (outcome: RotationOutcome)
      requires Valid() && LiveKeys(running, tasks) == [] && normal == []
      modifies this, kpi
      ensures Valid() && unchanged(this`accountOrder, this`passwords, this`accountKpis)
      ensures unchanged(this`incomplete) && TasksKept() && unchanged(kpi`kpis)
      ensures forall e :: e in kpi.kpis ==> e in kpi.progress && kpi.progress[e] == Kpi.RowsFor(book, e)
      ensures !outcome.NotDue?
      ensures outcome.Stopped? <==> kpi.AllMet()
      ensures outcome.Stopped? || outcome.Blocked? ==> unchanged(this`normal) && unchanged(this`rotation)
      ensures outcome.Blocked? <==> !kpi.AllMet() && incomplete != []
      ensures outcome.Blocked? ==> outcome.spawnCount == Min(minBrowsers, |incomplete|)
      ensures outcome.NewRotation? ==>
        rotation == old(rotation) + 1 && normal == NeedingWork(accountOrder) && normal != []
        && outcome.spawnCount == Min(minBrowsers, |normal|)
    {
      kpi.RefreshProgress(book);
      var allMet := kpi.AllKpisMet();
      if allMet {
        return Stopped;
      }
      if incomplete != [] {
        return Blocked(Min(minBrowsers, |incomplete|));
      }
      Refill();
      return NewRotation(Min(minBrowsers, |normal|));
    }

    /** A new rotation: the counter advances and `normal` takes the accounts still needing work. */
    method Refill()
      requires Valid() && normal == [] && !kpi.AllMet()
      modifies this`rotation, this`normal
      ensures Valid() && unchanged(this`accountOrder, this`passwords, this`accountKpis)
      ensures unchanged(this`incomplete) && TasksKept()
      ensures rotation == old(rotation) + 1 && normal == NeedingWork(accountOrder) && normal != []
    {
      var needing := CollectNeedingWork();
      NeedingWorkEmptyIffAllMet();
      TextUtil.AppendToEmpty(needing);
      NextRotation(needing);
    }

    /** The counter advanced and `needing` appended to `normal`. */
    method NextRotation(needing: seq<string>)
      requires Valid() && Known(needing)
      modifies this`rotation, this`normal
      ensures Valid() && unchanged(this`accountOrder, this`passwords, this`accountKpis)
      ensures unchanged(this`incomplete) && TasksKept()
      ensures rotation == old(rotation) + 1 && normal == old(normal) + needing
    {
      rotation := rotation + 1;
      normal := normal + needing;
    }
  }
}

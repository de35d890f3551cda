/**
 * The pair-rotation runner (`run_multi.py`): accounts run two at a time for
 * `TASKS_PER_ROTATION` tasks each, crashed accounts are rerun for what they
 * have left while their restart budget lasts, and rotations repeat until one
 * completes no task at all (at most 100).  What a browser session achieves is
 * an input: the tasks it completed and whether it ended by an exception.
 */
module MultiRunner {
  import opened Wrappers
  import opened TextUtil
  import Accounts
  import ConfigFile

  /** `TASKS_PER_ROTATION`. */
  const TasksPerRotation: nat := 100
  /** `MAX_RESTART_ATTEMPTS`. */
  const MaxRestartAttempts: int := 3
  /** The safety limit of the rotation loop. */
  const MaxRotations: nat := 100

  function Min(a: int, b: int): int {
    if a <= b then a else b
  }

  /** `[accounts[i:i+2] for i in range(0, len(accounts), 2)]`. */
  function Pairs<T>(accounts: seq<T>): (r: seq<seq<T>>)
    ensures |r| == (|accounts| + 1) / 2
    ensures forall k :: 0 <= k < |r| ==> 1 <= |r[k]| <= 2
    ensures forall k :: 0 <= k < |r| - 1 ==> |r[k]| == 2
  {
    seq((|accounts| + 1) / 2, k requires 0 <= k < (|accounts| + 1) / 2 => accounts[2 * k .. Min(2 * k + 2, |accounts|)])
  }

  function Flatten<T>(chunks: seq<seq<T>>): seq<T> {
    if chunks == [] then [] else chunks[0] + Flatten(chunks[1..])
  }

  /** After the first pair, the pairs of the rest. */
  lemma PairsTail<T>(accounts: seq<T>)
    requires |accounts| > 2
    ensures Pairs(accounts) == [accounts[..2]] + Pairs(accounts[2..])
  {
    var p, q := Pairs(accounts), Pairs(accounts[2..]);
    assert |p| == 1 + |q|;
    forall k | 1 <= k < |p|
      ensures p[k] == q[k - 1]
    {
      assert accounts[2..][2 * (k - 1) .. Min(2 * (k - 1) + 2, |accounts| - 2)]
        == accounts[2 * k .. Min(2 * k + 2, |accounts|)];
    }
  }

  /** The pairs, put back together, are the account list: nobody is left out or run twice. */
  lemma {:induction false} PairsCoverAccounts<T>(accounts: seq<T>)
    ensures Flatten(Pairs(accounts)) == accounts
    decreases |accounts|
  {
    if |accounts| == 0 {
    } else if |accounts| <= 2 {
      assert Pairs(accounts)[0] == accounts[0..|accounts|] == accounts;
      assert Pairs(accounts) == [accounts];
      assert Flatten([accounts]) == accounts + Flatten<T>([]);
    } else {
      PairsTail(accounts);
      PairsCoverAccounts(accounts[2..]);
      assert Pairs(accounts)[1..] == Pairs(accounts[2..]);
      assert accounts[..2] + accounts[2..] == accounts;
    }
  }

  /** What one `run_account_batch` achieved: tasks completed, and the exception that ended it, if any. */
  datatype Batch = Batch(completed: nat, error: Option<string>)

  /** Tasks the batches of `group` complete in all: `run_pair`'s `sum(results)`. */
  function BatchTasks(group: seq<ConfigFile.AccountEntry>, batchOf: string -> Batch): nat
    decreases |group|
  {
    if group == [] then 0 else batchOf(group[0].email).completed + BatchTasks(group[1..], batchOf)
  }

  lemma {:induction false} BatchTasksConcat(a: seq<ConfigFile.AccountEntry>, b: seq<ConfigFile.AccountEntry>,
                                            batchOf: string -> Batch)
    ensures BatchTasks(a + b, batchOf) == BatchTasks(a, batchOf) + BatchTasks(b, batchOf)
    decreases |a|
  {
    if a == [] {
      assert a + b == b;
    } else {
      assert (a + b)[0] == a[0];
      assert (a + b)[1..] == a[1..] + b;
      BatchTasksConcat(a[1..], b, batchOf);
    }
  }

  /** A total of 0 means that no batch of the group completed a task, and back. */
  lemma {:induction false} BatchTasksZero(group: seq<ConfigFile.AccountEntry>, batchOf: string -> Batch)
    ensures BatchTasks(group, batchOf) == 0 <==> forall k :: 0 <= k < |group| ==> batchOf(group[k].email).completed == 0
    decreases |group|
  {
    if group != [] {
      BatchTasksZero(group[1..], batchOf);
      assert forall k :: 1 <= k < |group| ==> group[k] == group[1..][k - 1];
    }
  }

  /** The pair totals of one rotation, added up pair by pair. */
  function PairsTotal(pairs: seq<seq<ConfigFile.AccountEntry>>, batchOf: string -> Batch): nat
    decreases |pairs|
  {
    if pairs == [] then 0 else BatchTasks(pairs[0], batchOf) + PairsTotal(pairs[1..], batchOf)
  }

  /** Adding up pair by pair counts every account's tasks once. */
  lemma {:induction false} PairsTotalIsAccountTotal(pairs: seq<seq<ConfigFile.AccountEntry>>, batchOf: string -> Batch)
    ensures PairsTotal(pairs, batchOf) == BatchTasks(Flatten(pairs), batchOf)
    decreases |pairs|
  {
    if pairs != [] {
      PairsTotalIsAccountTotal(pairs[1..], batchOf);
      BatchTasksConcat(pairs[0], Flatten(pairs[1..]), batchOf);
    }
  }

  /** The pairs of one rotation complete, in all, what the accounts complete. */
  lemma RotationPairsTotal(accounts: seq<ConfigFile.AccountEntry>, batchOf: string -> Batch)
    ensures PairsTotal(Pairs(accounts), batchOf) == BatchTasks(accounts, batchOf)
  {
    PairsTotalIsAccountTotal(Pairs(accounts), batchOf);
    PairsCoverAccounts(accounts);
  }

  /**
   * The ledger entry `run_account_batch` leaves: started for this rotation
   * with `maxTasks` and the earlier restart count, progress recorded, then
   * completed or crashed.
   */
  function BatchRecord(restartCount: int, rotation: int, maxTasks: int, b: Batch): (r: Accounts.Record)
    ensures r.restartCount == restartCount && r.maxTasks == maxTasks && r.rotation == rotation
    ensures r.completedTasks == b.completed
    ensures b.error.None? ==> r.status == Accounts.Completed && r.error.None?
    ensures b.error.Some? ==> r.status == Accounts.Crashed && r.error.Some?
  {
    Concluded(Accounts.Record(Accounts.Running, rotation, maxTasks, 0, None, restartCount), b)
  }

  /** A started entry once the batch has reported its progress and ended. */
  function Concluded(started: Accounts.Record, b: Batch): Accounts.Record {
    var p := if b.completed > 0 then started.(completedTasks := b.completed) else started;
    match b.error
    case None => p.(status := Accounts.Completed, completedTasks := b.completed)
    case Some(err) => Accounts.CrashedRecord(p, err)
  }

  /** The account ledger as pure data: emails in insertion order and their entries. */
  datatype Ledger = Ledger(order: seq<string>, accounts: map<string, Accounts.Record>)

  /** The same shape `AccountMonitor.Valid` demands. */
  ghost predicate LedgerOk(l: Ledger) {
    Distinct(l.order) && forall e :: e in l.accounts <==> e in l.order
  }

  function RestartCountOf(accounts: map<string, Accounts.Record>, email: string): int {
    if email in accounts then accounts[email].restartCount else 0
  }

  /** The ledger after one `run_account_batch` for `email`. */
  function AfterBatch(l: Ledger, email: string, rotation: int, maxTasks: int, b: Batch): Ledger {
    var rec := BatchRecord(RestartCountOf(l.accounts, email), rotation, maxTasks, b);
    Ledger(if email in l.accounts then l.order else l.order + [email], l.accounts[email := rec])
  }

  /** `run_account_batch`, as far as the ledger sees it. */
  method RunBatch(monitor: Accounts.AccountMonitor, email: string, maxTasks: int, rotation: int, b: Batch)
    returns (completed: nat)
    requires monitor.Valid()
    modifies monitor
    ensures monitor.Valid()
    ensures completed == b.completed
    ensures Ledger(monitor.order, monitor.accounts)
      == AfterBatch(old(Ledger(monitor.order, monitor.accounts)), email, rotation, maxTasks, b)
  {
    ghost var before := monitor.accounts;
    ghost var order := monitor.order;
    monitor.StartAccount(email, rotation, maxTasks);
    ghost var started := monitor.accounts[email];
    completed := b.completed;
    EndBatch(monitor, email, b);
    UpdateTwice(before, email, started, monitor.accounts[email]);
    SameLedger(monitor.order, monitor.accounts, AfterBatch(old(Ledger(monitor.order, monitor.accounts)), email, rotation, maxTasks, b));
  }

  /** The progress report and the completion or crash that close a started batch. */
  method EndBatch(monitor: Accounts.AccountMonitor, email: string, b: Batch)
    requires monitor.Valid() && email in monitor.accounts
    modifies monitor
    ensures monitor.Valid() && unchanged(monitor`order)
    ensures monitor.accounts == old(monitor.accounts)[email := Concluded(old(monitor.accounts)[email], b)]
  {
    ghost var before := monitor.accounts;
    var completed := b.completed;
    if completed > 0 {
      monitor.UpdateProgress(email, completed);
    }
    ghost var progressed := monitor.accounts[email];
    match b.error
    case None =>
      monitor.MarkCompleted(email, completed);
    case Some(err) =>
      monitor.MarkCrashed(email, err);
    UpdateTwice(before, email, progressed, monitor.accounts[email]);
  }

  lemma SameLedger(order: seq<string>, accounts: map<string, Accounts.Record>, l: Ledger)
    requires order == l.order && accounts == l.accounts
    ensures Ledger(order, accounts) == l
  {
  }

  /** The ledger after a batch of `TASKS_PER_ROTATION` for each of `group`, in order. */
  function AfterBatches(l: Ledger, group: seq<ConfigFile.AccountEntry>, rotation: int, batchOf: string -> Batch): Ledger
    decreases |group|
  {
    if group == [] then l
    else AfterBatches(AfterBatch(l, group[0].email, rotation, TasksPerRotation, batchOf(group[0].email)),
                      group[1..], rotation, batchOf)
  }

  /**
   * A batch keeps the ledger well formed, gives `email` its entry, keeps every
   * other entry and lists a new email last.
   */
  lemma AfterBatchShape(l: Ledger, email: string, rotation: int, maxTasks: int, b: Batch)
    requires LedgerOk(l)
    ensures var r := AfterBatch(l, email, rotation, maxTasks, b);
      LedgerOk(r) && email in r.accounts && r.accounts[email].rotation == rotation && r.accounts[email].maxTasks == maxTasks
      && r.accounts[email].restartCount == RestartCountOf(l.accounts, email)
      && (forall e :: e in l.accounts && e != email ==> e in r.accounts && r.accounts[e] == l.accounts[e])
      && r.order == if email in l.accounts then l.order else l.order + [email]
  {
  }

  /** The batches of a rotation keep the ledger well formed and only ever add accounts. */
  lemma {:induction false} AfterBatchesKeepsAccounts(l: Ledger, group: seq<ConfigFile.AccountEntry>, rotation: int,
                                                     batchOf: string -> Batch)
    requires LedgerOk(l)
    ensures var r := AfterBatches(l, group, rotation, batchOf);
      LedgerOk(r) && (forall e :: e in l.accounts ==> e in r.accounts)
      && (forall k :: 0 <= k < |group| ==> group[k].email in r.accounts)
    decreases |group|
  {
    if group != [] {
      var next := AfterBatch(l, group[0].email, rotation, TasksPerRotation, batchOf(group[0].email));
      AfterBatchShape(l, group[0].email, rotation, TasksPerRotation, batchOf(group[0].email));
      AfterBatchesKeepsAccounts(next, group[1..], rotation, batchOf);
      assert forall k :: 1 <= k < |group| ==> group[k] == group[1..][k - 1];
    }
  }

  lemma {:induction false} AfterBatchesConcat(l: Ledger, a: seq<ConfigFile.AccountEntry>, b: seq<ConfigFile.AccountEntry>,
                                              rotation: int, batchOf: string -> Batch)
    ensures AfterBatches(l, a + b, rotation, batchOf) == AfterBatches(AfterBatches(l, a, rotation, batchOf), b, rotation, batchOf)
    decreases |a|
  {
    if a == [] {
      assert a + b == b;
    } else {
      assert (a + b)[0] == a[0];
      assert (a + b)[1..] == a[1..] + b;
      AfterBatchesConcat(AfterBatch(l, a[0].email, rotation, TasksPerRotation, batchOf(a[0].email)), a[1..], b, rotation, batchOf);
    }
  }

  /** The ledger after the pairs of a rotation, pair by pair. */
  function AfterPairs(l: Ledger, pairs: seq<seq<ConfigFile.AccountEntry>>, rotation: int, batchOf: string -> Batch): Ledger
    decreases |pairs|
  {
    if pairs == [] then l else AfterPairs(AfterBatches(l, pairs[0], rotation, batchOf), pairs[1..], rotation, batchOf)
  }

  /** Running the pairs one after the other is running every account once, in list order. */
  lemma {:induction false} AfterPairsIsAfterBatches(l: Ledger, pairs: seq<seq<ConfigFile.AccountEntry>>, rotation: int,
                                                    batchOf: string -> Batch)
    ensures AfterPairs(l, pairs, rotation, batchOf) == AfterBatches(l, Flatten(pairs), rotation, batchOf)
    decreases |pairs|
  {
    if pairs != [] {
      AfterBatchesConcat(l, pairs[0], Flatten(pairs[1..]), rotation, batchOf);
      AfterPairsIsAfterBatches(AfterBatches(l, pairs[0], rotation, batchOf), pairs[1..], rotation, batchOf);
    }
  }

  /** `run_pair`: both accounts' batches, and the sum of what they completed. */
  method RunPair(monitor: Accounts.AccountMonitor, pair: seq<ConfigFile.AccountEntry>, rotation: int, batchOf: string -> Batch)
    returns (total: nat)
    requires monitor.Valid()
    modifies monitor
    ensures monitor.Valid()
    ensures total == BatchTasks(pair, batchOf)
    ensures Ledger(monitor.order, monitor.accounts) == AfterBatches(old(Ledger(monitor.order, monitor.accounts)), pair, rotation, batchOf)
  {
    ghost var start := Ledger(monitor.order, monitor.accounts);
    total := 0;
    for i := 0 to |pair|
      invariant monitor.Valid()
      invariant AfterBatches(Ledger(monitor.order, monitor.accounts), pair[i..], rotation, batchOf)
        == AfterBatches(start, pair, rotation, batchOf)
      invariant total + BatchTasks(pair[i..], batchOf) == BatchTasks(pair, batchOf)
    {
      assert pair[i..][1..] == pair[i + 1..];
      var completed := RunBatch(monitor, pair[i].email, TasksPerRotation, rotation, batchOf(pair[i].email));
      total := total + completed;
    }
    assert pair[|pair|..] == [];
  }

  /** The password of the first account line for `email`; none only when no line has it. */
  function FirstPassword(accounts: seq<ConfigFile.AccountEntry>, email: string): (r: Option<string>)
    ensures r.None? ==> forall j :: 0 <= j < |accounts| ==> accounts[j].email != email
    decreases |accounts|
  {
    if accounts == [] then None
    else if accounts[0].email == email then Some(accounts[0].password)
    else FirstPassword(accounts[1..], email)
  }

  /** No line for `email`: no password. */
  lemma {:induction false} FirstPasswordNone(accounts: seq<ConfigFile.AccountEntry>, email: string)
    requires forall j :: 0 <= j < |accounts| ==> accounts[j].email != email
    ensures FirstPassword(accounts, email) == None
    decreases |accounts|
  {
    if accounts != [] {
      assert forall j :: 0 <= j < |accounts| - 1 ==> accounts[1..][j] == accounts[j + 1];
      FirstPasswordNone(accounts[1..], email);
    }
  }

  /** The search loop for the password, stopping at the first matching line. */
  method FirstPasswordLoop(accounts: seq<ConfigFile.AccountEntry>, email: string) returns (password: Option<string>)
    ensures password == FirstPassword(accounts, email)
  {
    password := None;
    for i := 0 to |accounts|
      invariant forall j :: 0 <= j < i ==> accounts[j].email != email
    {
      if accounts[i].email == email {
        password := Some(accounts[i].password);
        FirstPasswordAt(accounts, email, i);
        return;
      }
    }
    FirstPasswordNone(accounts, email);
  }

  /** The password is the one on the first line for `email`. */
  lemma {:induction false} FirstPasswordAt(accounts: seq<ConfigFile.AccountEntry>, email: string, i: int)
    requires 0 <= i < |accounts| && accounts[i].email == email
    requires forall j :: 0 <= j < i ==> accounts[j].email != email
    ensures FirstPassword(accounts, email) == Some(accounts[i].password)
  {
    if i > 0 {
      assert forall j :: 0 <= j < i - 1 ==> accounts[1..][j] == accounts[j + 1];
      FirstPasswordAt(accounts[1..], email, i - 1);
    }
  }

  /** The emails `get_crashed_accounts` reports, in ledger order. */
  function CrashedEmails(keys: seq<string>, accounts: map<string, Accounts.Record>): (r: seq<string>)
    ensures |r| <= |keys|
    ensures forall k :: 0 <= k < |r| ==> r[k] in accounts && accounts[r[k]].status == Accounts.Crashed
    decreases |keys|
  {
    if keys == [] then []
    else
      var e := keys[|keys| - 1];
      CrashedEmails(keys[..|keys| - 1], accounts) + if e in accounts && accounts[e].status == Accounts.Crashed then [e] else []
  }

  /** Exactly the listed crashed accounts are reported, and none twice when none is listed twice. */
  lemma {:induction false} CrashedEmailsMembers(keys: seq<string>, accounts: map<string, Accounts.Record>)
    ensures var r := CrashedEmails(keys, accounts);
      (forall e :: e in r <==> e in keys && e in accounts && accounts[e].status == Accounts.Crashed)
      && (Distinct(keys) ==> Distinct(r))
    decreases |keys|
  {
    if keys != [] {
      var e := keys[|keys| - 1];
      var prefix := keys[..|keys| - 1];
      CrashedEmailsMembers(prefix, accounts);
      assert forall x :: x in keys <==> x in prefix || x == e;
      assert Distinct(keys) ==> e !in prefix;
    }
  }

  /** The emails of the crash reports, in order. */
  function ReportEmails(reports: seq<Accounts.CrashReport>): (r: seq<string>)
    ensures |r| == |reports| && forall k :: 0 <= k < |r| ==> r[k] == reports[k].email
  {
    seq(|reports|, k requires 0 <= k < |reports| => reports[k].email)
  }

  /** The monitor's crash reports carry exactly the crashed emails, in ledger order. */
  lemma {:induction false} CrashReportsAreCrashedEmails(monitor: Accounts.AccountMonitor, keys: seq<string>)
    requires forall k :: 0 <= k < |keys| ==> keys[k] in monitor.accounts
    ensures ReportEmails(monitor.CrashedIn(keys)) == CrashedEmails(keys, monitor.accounts)
  {
    if keys != [] {
      var e := keys[|keys| - 1];
      var prefix := keys[..|keys| - 1];
      CrashReportsAreCrashedEmails(monitor, prefix);
      var tail := if monitor.accounts[e].status == Accounts.Crashed then [Accounts.ReportCrash(e, monitor.accounts[e])] else [];
      assert monitor.CrashedIn(keys) == monitor.CrashedIn(prefix) + tail;
      assert ReportEmails(monitor.CrashedIn(prefix) + tail) == ReportEmails(monitor.CrashedIn(prefix)) + ReportEmails(tail);
    }
  }

  /** The three conditions `restart_crashed_accounts` checks before rerunning an account. */
  predicate Selected(accounts: map<string, Accounts.Record>, email: string, lines: seq<ConfigFile.AccountEntry>) {
    email in accounts && Accounts.Restartable(accounts[email], MaxRestartAttempts)
    && FirstPassword(lines, email).Some? && FirstPassword(lines, email).value != []
    && Accounts.RemainingOf(accounts[email]) > 0
  }

  /** The ledger entries and the running total of `restart_crashed_accounts`. */
  datatype RestartState = RestartState(accounts: map<string, Accounts.Record>, total: nat)

  /** One report of the loop: a selected account is marked restarting, then rerun for what it has left. */
  function RestartStep(st: RestartState, email: string, lines: seq<ConfigFile.AccountEntry>, rotation: int,
                       rerunOf: string -> Batch): (r: RestartState)
    ensures r.accounts.Keys == st.accounts.Keys && st.total <= r.total
  {
    if Selected(st.accounts, email, lines) then
      var rec := st.accounts[email];
      var b := rerunOf(email);
      RestartState(
        st.accounts[email := BatchRecord(Accounts.RestartingRecord(rec).restartCount, rotation, Accounts.RemainingOf(rec), b)],
        st.total + b.completed)
    else st
  }

  /**
   * A selected account gets one more restart, a batch of what it had left and
   * its rerun's tasks in the total; no other entry changes.
   */
  lemma RestartStepEffect(st: RestartState, email: string, lines: seq<ConfigFile.AccountEntry>, rotation: int,
                          rerunOf: string -> Batch)
    ensures var r := RestartStep(st, email, lines, rotation, rerunOf);
      r.accounts.Keys == st.accounts.Keys
      && (!Selected(st.accounts, email, lines) ==> r == st)
      && (Selected(st.accounts, email, lines) ==>
            r.total == st.total + rerunOf(email).completed
            && r.accounts[email].restartCount == st.accounts[email].restartCount + 1
            && r.accounts[email].maxTasks == Accounts.RemainingOf(st.accounts[email])
            && r.accounts[email].completedTasks == rerunOf(email).completed
            && forall e :: e in st.accounts && e != email ==> r.accounts[e] == st.accounts[e])
  {
  }

  /** A step adds its rerun's tasks to whatever total came before. */
  lemma StepFromTotal(st: RestartState, email: string, lines: seq<ConfigFile.AccountEntry>, rotation: int,
                      rerunOf: string -> Batch)
    ensures var alone := RestartStep(RestartState(st.accounts, 0), email, lines, rotation, rerunOf);
      RestartStep(st, email, lines, rotation, rerunOf) == RestartState(alone.accounts, st.total + alone.total)
  {
  }

  /** The whole loop over the crashed emails. */
  function RestartAll(st: RestartState, emails: seq<string>, lines: seq<ConfigFile.AccountEntry>, rotation: int,
                      rerunOf: string -> Batch): (r: RestartState)
    ensures r.accounts.Keys == st.accounts.Keys && st.total <= r.total
    decreases |emails|
  {
    if emails == [] then st
    else RestartAll(RestartStep(st, emails[0], lines, rotation, rerunOf), emails[1..], lines, rotation, rerunOf)
  }

  /** An account that is not reported keeps its entry, and the keys never change. */
  lemma {:induction false} RestartAllKeepsUnreported(st: RestartState, emails: seq<string>,
      lines: seq<ConfigFile.AccountEntry>, rotation: int, rerunOf: string -> Batch, e: string)
    requires e !in emails
    ensures var r := RestartAll(st, emails, lines, rotation, rerunOf);
      r.accounts.Keys == st.accounts.Keys && (e in st.accounts ==> r.accounts[e] == st.accounts[e])
    decreases |emails|
  {
    if emails != [] {
      var next := RestartStep(st, emails[0], lines, rotation, rerunOf);
      RestartStepEffect(st, emails[0], lines, rotation, rerunOf);
      RestartAllKeepsUnreported(next, emails[1..], lines, rotation, rerunOf, e);
    }
  }

  /**
   * With no email reported twice, a reported account is rerun at most once a
   * rotation: it either keeps its entry, or it was selected, and its restart
   * count goes up by one and stays within `MAX_RESTART_ATTEMPTS`.
   */
  lemma {:induction false} RestartedAtMostOnce(st: RestartState, emails: seq<string>,
      lines: seq<ConfigFile.AccountEntry>, rotation: int, rerunOf: string -> Batch, e: string)
    requires Distinct(emails) && e in st.accounts
    ensures var r := RestartAll(st, emails, lines, rotation, rerunOf);
      e in r.accounts
      && if e in emails && Selected(st.accounts, e, lines) then
           r.accounts[e].restartCount == st.accounts[e].restartCount + 1 <= MaxRestartAttempts
           && r.accounts[e].maxTasks == Accounts.RemainingOf(st.accounts[e])
         else r.accounts[e] == st.accounts[e]
    decreases |emails|
  {
    if emails != [] {
      var next := RestartStep(st, emails[0], lines, rotation, rerunOf);
      RestartStepEffect(st, emails[0], lines, rotation, rerunOf);
      assert emails[0] !in emails[1..];
      assert Distinct(emails[1..]);
      if emails[0] == e {
        RestartAllKeepsUnreported(next, emails[1..], lines, rotation, rerunOf, e);
      } else {
        assert Selected(next.accounts, e, lines) == Selected(st.accounts, e, lines);
        RestartedAtMostOnce(next, emails[1..], lines, rotation, rerunOf, e);
      }
    }
  }

  /**
   * `restart_crashed_accounts`: 0 with no crashed account; otherwise each
   * crashed account, in ledger order, that may restart, has a password and has
   * tasks left is marked restarting and rerun with its remaining tasks, and the
   * reruns' completed tasks are added up.
   */
  method RestartCrashedAccounts(monitor: Accounts.AccountMonitor, lines: seq<ConfigFile.AccountEntry>, rotation: int,
                                rerunOf: string -> Batch) returns (total: nat)
    requires monitor.Valid()
    modifies monitor
    ensures monitor.Valid() && monitor.order == old(monitor.order)
    ensures var r := RestartAll(RestartState(old(monitor.accounts), 0),
                                CrashedEmails(old(monitor.order), old(monitor.accounts)), lines, rotation, rerunOf);
      monitor.accounts == r.accounts && total == r.total
  {
    var crashed := monitor.GetCrashedAccounts();
    ghost var emails := ReportEmails(crashed);
    CrashReportsAreCrashedEmails(monitor, monitor.order);
    ghost var start := RestartState(monitor.accounts, 0);
    total := 0;
    if crashed == [] {
      return;
    }
    for i := 0 to |crashed|
      invariant monitor.Valid() && monitor.order == old(monitor.order)
      invariant RestartAll(RestartState(monitor.accounts, total), emails[i..], lines, rotation, rerunOf)
        == RestartAll(start, emails, lines, rotation, rerunOf)
    {
      ghost var before := RestartState(monitor.accounts, total);
      RestartAllFrom(before, emails, i, lines, rotation, rerunOf);
      var completed := RestartOne(monitor, crashed[i].email, lines, rotation, rerunOf);
      StepFromTotal(before, emails[i], lines, rotation, rerunOf);
      total := total + completed;
      assert RestartState(monitor.accounts, total) == RestartStep(before, emails[i], lines, rotation, rerunOf);
    }
    assert emails[|crashed|..] == [];
  }

  lemma RestartAllFrom(st: RestartState, emails: seq<string>, i: nat, lines: seq<ConfigFile.AccountEntry>, rotation: int,
                       rerunOf: string -> Batch)
    requires i < |emails|
    ensures RestartAll(st, emails[i..], lines, rotation, rerunOf)
      == RestartAll(RestartStep(st, emails[i], lines, rotation, rerunOf), emails[i + 1..], lines, rotation, rerunOf)
  {
    assert emails[i..][1..] == emails[i + 1..];
  }

  /** One pass of the loop of `restart_crashed_accounts`, for the account `email`. */
  method RestartOne(monitor: Accounts.AccountMonitor, email: string, lines: seq<ConfigFile.AccountEntry>, rotation: int,
                    rerunOf: string -> Batch) returns (completed: nat)
    requires monitor.Valid()
    modifies monitor
    ensures monitor.Valid() && monitor.order == old(monitor.order)
    ensures RestartState(monitor.accounts, completed)
      == RestartStep(RestartState(old(monitor.accounts), 0), email, lines, rotation, rerunOf)
  {
    completed := 0;
    if !monitor.ShouldRestart(email, MaxRestartAttempts) {
      return;
    }
    var password := FirstPasswordLoop(lines, email);
    if password.None? || password.value == [] {
      return;
    }
    var remaining := monitor.GetRemainingTasks(email);
    if remaining <= 0 {
      return;
    }
    monitor.MarkRestarting(email);
    completed := RunBatch(monitor, email, remaining, rotation, rerunOf(email));
  }

  /** What one rotation leaves: the ledger, the pairs' tasks and the reruns' tasks. */
  datatype RotationResult = RotationResult(ledger: Ledger, pairTasks: nat, rerunTasks: nat)

  /**
   * One rotation: every pair's batches, then the restarts of the accounts
   * crashed at that point.
   */
  function Rotate(l: Ledger, lines: seq<ConfigFile.AccountEntry>, rotation: int,
                  batchOf: string -> Batch, rerunOf: string -> Batch): (r: RotationResult)
    ensures var afterPairs := AfterBatches(l, lines, rotation, batchOf);
      r.ledger.order == afterPairs.order && r.ledger.accounts.Keys == afterPairs.accounts.Keys
  {
    var afterPairs := AfterBatches(l, lines, rotation, batchOf);
    var r := RestartAll(RestartState(afterPairs.accounts, 0), CrashedEmails(afterPairs.order, afterPairs.accounts),
                        lines, rotation, rerunOf);
    RotationResult(Ledger(afterPairs.order, r.accounts), BatchTasks(lines, batchOf), r.total)
  }

  /** A rotation adds up to 0 tasks exactly when no batch and no rerun completed a task. */
  lemma RotationTotalZero(l: Ledger, lines: seq<ConfigFile.AccountEntry>, rotation: int,
                          batchOf: string -> Batch, rerunOf: string -> Batch)
    ensures var r := Rotate(l, lines, rotation, batchOf, rerunOf);
      r.pairTasks + r.rerunTasks == 0 <==>
      r.rerunTasks == 0 && forall k :: 0 <= k < |lines| ==> batchOf(lines[k].email).completed == 0
  {
    BatchTasksZero(lines, batchOf);
  }

  /** Rotation `n`, whose batches and reruns `sessions(n)` and `reruns(n)` describe. */
  function RotateAt(l: Ledger, lines: seq<ConfigFile.AccountEntry>, n: int,
                    sessions: int -> string -> Batch, reruns: int -> string -> Batch): RotationResult
  {
    Rotate(l, lines, n, sessions(n), reruns(n))
  }

  /**
   * `step` gives, for any ledger and rotation number, what that rotation does
   * to the ledger and its task totals.
   */
  ghost predicate StepIsRotate(step: (Ledger, int) -> RotationResult, lines: seq<ConfigFile.AccountEntry>,
                               sessions: int -> string -> Batch, reruns: int -> string -> Batch)
  {
    forall l: Ledger, n: int {:trigger RotateAt(l, lines, n, sessions, reruns)} ::
      step(l, n) == RotateAt(l, lines, n, sessions, reruns)
  }

  /** Such a step exists for any account lines and sessions. */
  lemma RotationStepExists(lines: seq<ConfigFile.AccountEntry>, sessions: int -> string -> Batch, reruns: int -> string -> Batch)
    ensures StepIsRotate((l: Ledger, n: int) => RotateAt(l, lines, n, sessions, reruns), lines, sessions, reruns)
  {
  }

  /** The rotation body of `run_rotation`. */
  method RunRotation(monitor: Accounts.AccountMonitor, lines: seq<ConfigFile.AccountEntry>, rotation: int,
                     sessions: int -> string -> Batch, reruns: int -> string -> Batch,
                     ghost step: (Ledger, int) -> RotationResult) returns (total: nat)
    requires monitor.Valid() && StepIsRotate(step, lines, sessions, reruns)
    modifies monitor
    ensures monitor.Valid()
    ensures var r := step(old(Ledger(monitor.order, monitor.accounts)), rotation);
      Ledger(monitor.order, monitor.accounts) == r.ledger && total == r.pairTasks + r.rerunTasks
  {
    var batchOf, rerunOf := sessions(rotation), reruns(rotation);
    assert step(Ledger(monitor.order, monitor.accounts), rotation)
      == RotateAt(Ledger(monitor.order, monitor.accounts), lines, rotation, sessions, reruns);
    ghost var start := Ledger(monitor.order, monitor.accounts);
    var pairs := Pairs(lines);
    total := 0;
    for i := 0 to |pairs|
      invariant monitor.Valid()
      invariant AfterPairs(Ledger(monitor.order, monitor.accounts), pairs[i..], rotation, batchOf)
        == AfterPairs(start, pairs, rotation, batchOf)
      invariant total + PairsTotal(pairs[i..], batchOf) == PairsTotal(pairs, batchOf)
    {
      assert pairs[i..][1..] == pairs[i + 1..];
      var done := RunPair(monitor, pairs[i], rotation, batchOf);
      total := total + done;
    }
    assert pairs[|pairs|..] == [];
    AfterPairsIsAfterBatches(start, pairs, rotation, batchOf);
    PairsCoverAccounts(lines);
    RotationPairsTotal(lines, batchOf);
    var restarted := RestartCrashedAccounts(monitor, lines, rotation, rerunOf);
    total := total + restarted;
  }

  /**
   * `ledgers` and `totals` are the history of rotations 1 to `|totals|`: each
   * ledger is `step` of the one before it, with that rotation's total.
   */
  ghost predicate History(ledgers: seq<Ledger>, totals: seq<nat>, step: (Ledger, int) -> RotationResult)
    decreases |totals|
  {
    |ledgers| == |totals| + 1
    && (totals != [] ==>
          var n := |totals|;
          var r := step(ledgers[n - 1], n);
          ledgers[n] == r.ledger && totals[n - 1] == r.pairTasks + r.rerunTasks
          && History(ledgers[..n], totals[..n - 1], step))
  }

  /**
   * `run_rotation`: nothing with no account; otherwise rotations 1, 2, ...,
   * each one `Rotate` of the ledger the previous one left, until one completes
   * no task or the safety limit is reached.  `ledgers` are the ledgers between
   * the rotations and `totals` the number of tasks of each rotation.
   */
  method RunRotations(monitor: Accounts.AccountMonitor, lines: seq<ConfigFile.AccountEntry>,
                      sessions: int -> string -> Batch, reruns: int -> string -> Batch,
                      ghost step: (Ledger, int) -> RotationResult)
    returns (totals: seq<nat>, ghost ledgers: seq<Ledger>)
    requires monitor.Valid() && StepIsRotate(step, lines, sessions, reruns)
    modifies monitor
    ensures monitor.Valid()
    ensures History(ledgers, totals, step)
    ensures ledgers[0] == old(Ledger(monitor.order, monitor.accounts))
    ensures ledgers[|totals|] == Ledger(monitor.order, monitor.accounts)
    ensures lines == [] <==> totals == []
    ensures |totals| <= MaxRotations
    ensures forall k :: 0 <= k < |totals| - 1 ==> totals[k] > 0
    ensures |totals| > 0 && totals[|totals| - 1] > 0 ==> |totals| == MaxRotations
  {
    totals := [];
    ledgers := [Ledger(monitor.order, monitor.accounts)];
    if lines == [] {
      return;
    }
    var rotation := 0;
    while rotation < MaxRotations
      invariant 0 <= rotation <= MaxRotations && monitor.Valid()
      invariant |totals| == rotation
      invariant History(ledgers, totals, step)
      invariant ledgers[0] == old(Ledger(monitor.order, monitor.accounts))
      invariant ledgers[rotation] == Ledger(monitor.order, monitor.accounts)
      invariant 0 !in totals
    {
      rotation := rotation + 1;
      ghost var before := ledgers;
      ghost var soFar := totals;
      var total := RunRotation(monitor, lines, rotation, sessions, reruns, step);
      totals := totals + [total];
      ledgers := ledgers + [Ledger(monitor.order, monitor.accounts)];
      assert ledgers[..rotation] == before && totals[..rotation - 1] == soFar;
      if total == 0 {
        assert forall k :: 0 <= k < rotation - 1 ==> totals[k] == soFar[k];
        return;
      }
    }
  }
}

/**
 * The account status ledger (`AccountMonitor`): one status record per account
 * email, rewritten in place by the scheduler as sessions start, progress,
 * finish, crash and restart.  Persisting the ledger as JSON and the timestamps
 * it stores are not modelled.
 */
module Accounts {
  import opened Wrappers
  import opened TextUtil

  /** `AccountStatus`. */
  datatype Status = Pending | Running | Completed | Crashed | Restarting

  /** One ledger entry; `error` is None until a crash is recorded. */
  datatype Record = Record(
    status: Status,
    rotation: int,
    maxTasks: int,
    completedTasks: int,
    error: Option<string>,
    restartCount: int)

  /** Crash messages are cut to this many characters. */
  const ErrorLimit: nat := 500

  /** Tasks left in the account's session quota, never negative. */
  function RemainingOf(rec: Record): nat {
    if rec.maxTasks - rec.completedTasks > 0 then rec.maxTasks - rec.completedTasks else 0
  }

  /** Crashed or restarting with tasks left. */
  predicate IsIncompleteRecord(rec: Record) {
    (rec.status == Crashed || rec.status == Restarting) && rec.maxTasks - rec.completedTasks > 0
  }

  /** The restart budget rule of `should_restart`, for a known account. */
  predicate Restartable(rec: Record, maxRestarts: int) {
    rec.status == Crashed && rec.restartCount < maxRestarts
  }

  /** The entry `mark_crashed` leaves. */
  function CrashedRecord(rec: Record, errorMsg: string): Record {
    rec.(status := Crashed, error := Some(Take(errorMsg, ErrorLimit)))
  }

  /** The entry `mark_restarting` leaves. */
  function RestartingRecord(rec: Record): Record {
    rec.(status := Restarting, restartCount := rec.restartCount + 1)
  }

  /** One entry of `get_crashed_accounts`. */
  datatype CrashReport = CrashReport(email: string, error: Option<string>, completedTasks: int, maxTasks: int, restartCount: int)

  /** One entry of `get_incomplete_accounts`. */
  datatype IncompleteReport = IncompleteReport(
    email: string, completedTasks: int, maxTasks: int, remainingTasks: int, restartCount: int, error: Option<string>)

  function ReportCrash(email: string, rec: Record): CrashReport {
    CrashReport(email, rec.error, rec.completedTasks, rec.maxTasks, rec.restartCount)
  }

  function ReportIncomplete(email: string, rec: Record): IncompleteReport {
    IncompleteReport(email, rec.completedTasks, rec.maxTasks, rec.maxTasks - rec.completedTasks, rec.restartCount, rec.error)
  }

  /**
   * `n` crash-and-restart cycles applied to an entry, each granted only when
   * the restart rule allows it.
   */
  function CrashRestartCycles(rec: Record, maxRestarts: int, n: nat): Record
    decreases n
  {
    if n == 0 then rec
    else
      var crashed := CrashedRecord(CrashRestartCycles(rec, maxRestarts, n - 1), "crash");
      if Restartable(crashed, maxRestarts) then RestartingRecord(crashed) else crashed
  }

  /**
   * The restart budget: an account whose count starts at `c0` is granted a
   * restart on each of the first `maxRestarts - c0` crashes and on none after.
   */
  lemma {:induction false} RestartBudget(rec: Record, maxRestarts: int, n: nat)
    ensures CrashRestartCycles(rec, maxRestarts, n).restartCount ==
      if rec.restartCount >= maxRestarts then rec.restartCount
      else if rec.restartCount + n <= maxRestarts then rec.restartCount + n
      else maxRestarts
    ensures n > 0 ==> (CrashRestartCycles(rec, maxRestarts, n).status == Restarting <==> rec.restartCount + n <= maxRestarts)
  {
    if n > 0 {
      RestartBudget(rec, maxRestarts, n - 1);
    }
  }

  class AccountMonitor {
    /** Keys of `accounts` in insertion order. */
    var order: seq<string>
    var accounts: map<string, Record>

    ghost predicate Valid()
      reads this
    {
      Distinct(order) && (forall e :: e in accounts <==> e in order)
    }

    constructor ()
      ensures Valid() && order == [] && accounts == map[]
    {
      order := [];
      accounts := map[];
    }

    /**
     * `start_account`: the entry is (re)written as running with no tasks done
     * and no error; an earlier restart count survives, 0 otherwise.
     */
    method StartAccount(email: string, rotation: int, maxTasks: int)
      requires Valid()
      modifies this
      ensures Valid()
      ensures accounts == old(accounts)[email := Record(Running, rotation, maxTasks, 0, None,
        if email in old(accounts) then old(accounts)[email].restartCount else 0)]
      ensures order == if email in old(accounts) then old(order) else old(order) + [email]
    {
      var restarts := if email in accounts then accounts[email].restartCount else 0;
      if email !in accounts {
        order := order + [email];
      }
      accounts := accounts[email := Record(Running, rotation, maxTasks, 0, None, restarts)];
    }

    /** `update_progress`: a no-op for an unknown email. */
    method UpdateProgress(email: string, completedTasks: int)
      requires Valid()
      modifies this
      ensures Valid() && unchanged(this`order)
      ensures email in old(accounts) ==> accounts == old(accounts)[email := old(accounts)[email].(completedTasks := completedTasks)]
      ensures email !in old(accounts) ==> accounts == old(accounts)
    {
      if email in accounts {
        accounts := accounts[email := accounts[email].(completedTasks := completedTasks)];
      }
    }

    /** `mark_completed`: a no-op for an unknown email. */
    method MarkCompleted(email: string, completedTasks: int)
      requires Valid()
      modifies this
      ensures Valid() && unchanged(this`order)
      ensures email in old(accounts) ==>
        accounts == old(accounts)[email := old(accounts)[email].(status := Completed, completedTasks := completedTasks)]
      ensures email !in old(accounts) ==> accounts == old(accounts)
    {
      if email in accounts {
        accounts := accounts[email := accounts[email].(status := Completed, completedTasks := completedTasks)];
      }
    }

    /** `mark_crashed`: status crashed, error cut to 500 characters; a no-op for an unknown email. */
    method MarkCrashed(email: string, errorMsg: string)
      requires Valid()
      modifies this
      ensures Valid() && unchanged(this`order)
      ensures email in old(accounts) ==> accounts == old(accounts)[email := CrashedRecord(old(accounts)[email], errorMsg)]
      ensures email in old(accounts) ==> |accounts[email].error.value| <= ErrorLimit
      ensures email !in old(accounts) ==> accounts == old(accounts)
    {
      if email in accounts {
        accounts := accounts[email := CrashedRecord(accounts[email], errorMsg)];
      }
    }

    /**
     * `mark_restarting`: status restarting and one more restart.  The source
     * indexes the entry unguarded after the update, so the email must be known.
     */
    method MarkRestarting(email: string)
      requires Valid() && email in accounts
      modifies this
      ensures Valid() && unchanged(this`order)
      ensures accounts == old(accounts)[email := RestartingRecord(old(accounts)[email])]
      ensures accounts[email].restartCount == old(accounts)[email].restartCount + 1
      ensures forall n :: !ShouldRestart(email, n)
    {
      accounts := accounts[email := RestartingRecord(accounts[email])];
    }

    /** `mark_browser_lost`: status crashed with the reason kept whole; a no-op for an unknown email. */
    method MarkBrowserLost(email: string, reason: string)
      requires Valid()
      modifies this
      ensures Valid() && unchanged(this`order)
      ensures email in old(accounts) ==>
        accounts == old(accounts)[email := old(accounts)[email].(status := Crashed, error := Some(reason))]
      ensures email !in old(accounts) ==> accounts == old(accounts)
    {
      if email in accounts {
        accounts := accounts[email := accounts[email].(status := Crashed, error := Some(reason))];
      }
    }

    /** `reset_all`. */
    method ResetAll()
      modifies this
      ensures Valid() && order == [] && accounts == map[]
    {
      order := [];
      accounts := map[];
    }

    /** `should_restart`: known, crashed, and under the restart budget. */
    function ShouldRestart(email: string, maxRestarts: int): (r: bool)
      reads this
      ensures r ==> email in accounts && accounts[email].status == Crashed
      ensures email in accounts ==> (r <==> Restartable(accounts[email], maxRestarts))
    {
      email in accounts && Restartable(accounts[email], maxRestarts)
    }

    /** `get_remaining_tasks`: 0 for an unknown email. */
    function GetRemainingTasks(email: string): (r: nat)
      reads this
      ensures email !in accounts ==> r == 0
      ensures email in accounts ==> r >= accounts[email].maxTasks - accounts[email].completedTasks
      ensures r == 0 || (email in accounts && r == accounts[email].maxTasks - accounts[email].completedTasks)
    {
      if email in accounts then RemainingOf(accounts[email]) else 0
    }

    /** `get_checkpoint`: tasks done so far, 0 for an unknown email. */
    function GetCheckpoint(email: string): (r: int)
      reads this
      ensures email !in accounts ==> r == 0
      ensures email in accounts ==> r == accounts[email].completedTasks
    {
      if email in accounts then accounts[email].completedTasks else 0
    }

    /** `is_account_incomplete`. */
    function IsAccountIncomplete(email: string): (r: bool)
      reads this
      ensures r <==> email in accounts && IsIncompleteRecord(accounts[email])
      ensures r ==> GetRemainingTasks(email) > 0
    {
      email in accounts && IsIncompleteRecord(accounts[email])
    }

    /** The crash reports for `keys`, in their order. */
    ghost function CrashedIn(keys: seq<string>): (r: seq<CrashReport>)
      reads this
      requires forall k :: 0 <= k < |keys| ==> keys[k] in accounts
      ensures forall c :: c in r <==>
        c.email in keys && accounts[c.email].status == Crashed && c == ReportCrash(c.email, accounts[c.email])
    {
      if keys == [] then []
      else
        var e := keys[|keys| - 1];
        assert forall x :: x in keys <==> x in keys[..|keys| - 1] || x == e;
        CrashedIn(keys[..|keys| - 1]) + if accounts[e].status == Crashed then [ReportCrash(e, accounts[e])] else []
    }

    /** `get_crashed_accounts`: every crashed entry, in ledger order. */
    method GetCrashedAccounts() returns (r: seq<CrashReport>)
      requires Valid()
      ensures r == CrashedIn(order)
      ensures forall e :: (exists c :: c in r && c.email == e) <==> e in accounts && accounts[e].status == Crashed
    {
      r := [];
      for i := 0 to |order|
        invariant r == CrashedIn(order[..i])
      {
        var e := order[i];
        assert order[..i + 1][..i] == order[..i];
        if accounts[e].status == Crashed {
          r := r + [ReportCrash(e, accounts[e])];
        }
      }
      assert order[..|order|] == order;
      forall e | e in accounts && accounts[e].status == Crashed
        ensures exists c :: c in r && c.email == e
      {
        assert ReportCrash(e, accounts[e]) in r;
      }
    }

    /** The incomplete reports for `keys`, in their order. */
    ghost function IncompleteIn(keys: seq<string>): (r: seq<IncompleteReport>)
      reads this
      requires forall k :: 0 <= k < |keys| ==> keys[k] in accounts
      ensures forall c :: c in r <==>
        c.email in keys && IsIncompleteRecord(accounts[c.email]) && c == ReportIncomplete(c.email, accounts[c.email])
      ensures forall c :: c in r ==> c.remainingTasks > 0
    {
      if keys == [] then []
      else
        var e := keys[|keys| - 1];
        assert forall x :: x in keys <==> x in keys[..|keys| - 1] || x == e;
        IncompleteIn(keys[..|keys| - 1]) + if IsIncompleteRecord(accounts[e]) then [ReportIncomplete(e, accounts[e])] else []
    }

    /**
     * `get_incomplete_accounts`: exactly the crashed or restarting entries with
     * tasks left, in ledger order; `is_account_incomplete` agrees with membership.
     */
    method GetIncompleteAccounts() returns (r: seq<IncompleteReport>)
      requires Valid()
      ensures r == IncompleteIn(order)
      ensures forall e :: (exists c :: c in r && c.email == e) <==> IsAccountIncomplete(e)
    {
      r := [];
      for i := 0 to |order|
        invariant r == IncompleteIn(order[..i])
      {
        var e := order[i];
        assert order[..i + 1][..i] == order[..i];
        var data := accounts[e];
        if data.status == Crashed || data.status == Restarting {
          if data.maxTasks - data.completedTasks > 0 {
            r := r + [ReportIncomplete(e, data)];
          }
        }
      }
      assert order[..|order|] == order;
      forall e | IsAccountIncomplete(e)
        ensures exists c :: c in r && c.email == e
      {
        assert ReportIncomplete(e, accounts[e]) in r;
      }
    }
  }
}

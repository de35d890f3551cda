/**
 * The session registry (`BrowserWatchdog`): one monitored browser session per
 * account email, health checks against it, and one pass of the background
 * monitor.  The three browser probes become a `Liveness` value supplied by the
 * caller, and the clock a number.
 */
module Watchdog {
  import opened Wrappers
  import opened TextUtil

  /** `BrowserSession` without its browser handles. */
  datatype Session = Session(email: string, startedAt: int, lastCheck: int, isHealthy: bool, completedTasks: int)

  /**
   * What probing a session's browser shows: whether it is connected, whether its
   * page is closed and how many pages its context holds, or that a probe raised.
   */
  datatype Liveness = Probed(connected: bool, pageClosed: bool, contextPages: nat) | ProbeRaised

  /** All three probes pass. */
  predicate Passes(l: Liveness) {
    l.Probed? && l.connected && !l.pageClosed && l.contextPages > 0
  }

  /** A session just registered: healthy, no tasks done. */
  function FreshSession(email: string, now: int): Session {
    Session(email, now, now, true, 0)
  }

  /** A session after a passing health check. */
  function Refreshed(s: Session, now: int): Session {
    s.(lastCheck := now, isHealthy := true)
  }

  /** The emails among `keys` whose probe fails, in their order. */
  function Failing(keys: seq<string>, probe: string -> Liveness): seq<string>
  {
    if keys == [] then []
    else Failing(keys[..|keys| - 1], probe) + if Passes(probe(keys[|keys| - 1])) then [] else [keys[|keys| - 1]]
  }

  /** The failing emails are exactly the keys whose probe fails, each once when the keys are. */
  lemma {:induction false} FailingMembers(keys: seq<string>, probe: string -> Liveness)
    ensures forall e :: e in Failing(keys, probe) <==> e in keys && !Passes(probe(e))
    ensures Distinct(keys) ==> Distinct(Failing(keys, probe))
  {
    if keys != [] {
      var e := keys[|keys| - 1];
      var rest := keys[..|keys| - 1];
      FailingMembers(rest, probe);
      assert forall x :: x in keys <==> x in rest || x == e;
      assert Distinct(keys) ==> e !in rest;
    }
  }

  /** Extending the checked prefix by one key: the failing list grows by that key exactly when its probe fails. */
  lemma FailingSnoc(keys: seq<string>, i: nat, probe: string -> Liveness)
    requires i < |keys|
    ensures forall x :: x in keys[..i + 1] <==> x in keys[..i] || x == keys[i]
    ensures Failing(keys[..i + 1], probe) == Failing(keys[..i], probe) + if Passes(probe(keys[i])) then [] else [keys[i]]
  {
    assert keys[..i + 1][..i] == keys[..i];
  }

  class BrowserWatchdog {
    const minBrowsers: int
    const checkInterval: int
    const maxRestartAttempts: int
    /** Keys of `sessions` in insertion order. */
    var order: seq<string>
    var sessions: map<string, Session>
    var monitoring: bool

    ghost predicate Valid()
      reads this
    {
      Distinct(order) && (forall e :: e in sessions <==> e in order)
      && (forall e :: e in sessions ==> sessions[e].email == e)
    }

    constructor (minBrowsers: int, checkInterval: int, maxRestartAttempts: int)
      ensures Valid() && order == [] && sessions == map[] && !monitoring
      ensures this.minBrowsers == minBrowsers && this.checkInterval == checkInterval
      ensures this.maxRestartAttempts == maxRestartAttempts
    {
      this.minBrowsers := minBrowsers;
      this.checkInterval := checkInterval;
      this.maxRestartAttempts := maxRestartAttempts;
      order := [];
      sessions := map[];
      monitoring := false;
    }

    /** `register_browser`: inserts a fresh session, replacing any earlier one for the email. */
    method Register(email: string, now: int)
      requires Valid()
      modifies this
      ensures Valid() && monitoring == old(monitoring)
      ensures sessions == old(sessions)[email := FreshSession(email, now)]
      ensures order == if email in old(sessions) then old(order) else old(order) + [email]
    {
      if email !in sessions {
        order := order + [email];
      }
      sessions := sessions[email := FreshSession(email, now)];
    }

    /** `unregister_browser`: idempotent; an unknown email changes nothing. */
    method Unregister(email: string)
      requires Valid()
      modifies this
      ensures Valid() && monitoring == old(monitoring)
      ensures sessions == old(sessions) - {email}
      ensures order == Remove(old(order), email)
      ensures email !in old(sessions) ==> sessions == old(sessions) && order == old(order)
    {
      if email in sessions {
        sessions := sessions - {email};
        order := Remove(order, email);
      }
    }

    /** `update_task_count`: only the completed-task count of an existing session changes. */
    method UpdateTaskCount(email: string, completed: int)
      requires Valid()
      modifies this
      ensures Valid() && order == old(order) && monitoring == old(monitoring)
      ensures email in old(sessions) ==> sessions == old(sessions)[email := old(sessions)[email].(completedTasks := completed)]
      ensures email !in old(sessions) ==> sessions == old(sessions)
    {
      if email in sessions {
        sessions := sessions[email := sessions[email].(completedTasks := completed)];
      }
    }

    /**
     * `health_check`: false for an unknown email or a failing probe.  Only a
     * passing check marks the session healthy (and stamps it), and only a probe
     * that raised marks it unhealthy.
     */
    method HealthCheck(email: string, probe: Liveness, now: int) returns (healthy: bool)
      requires Valid()
      modifies this
      ensures Valid() && order == old(order) && monitoring == old(monitoring)
      ensures healthy <==> email in old(sessions) && Passes(probe)
      ensures healthy ==> sessions == old(sessions)[email := Refreshed(old(sessions)[email], now)]
      ensures email in old(sessions) && probe.ProbeRaised? ==>
        sessions == old(sessions)[email := old(sessions)[email].(isHealthy := false)]
      ensures (email !in old(sessions) || (probe.Probed? && !Passes(probe))) ==> sessions == old(sessions)
      ensures forall e :: e in sessions <==> e in old(sessions)
      ensures forall e :: e in sessions && e != email ==> sessions[e] == old(sessions)[e]
    {
      if email !in sessions {
        return false;
      }
      match probe
      case ProbeRaised =>
        sessions := sessions[email := sessions[email].(isHealthy := false)];
        return false;
      case Probed(connected, pageClosed, pages) =>
        if !connected || pageClosed || pages == 0 {
          return false;
        }
        sessions := sessions[email := Refreshed(sessions[email], now)];
        return true;
    }

    /** The healthy sessions among `keys`, as their emails, in order. */
    function HealthyIn(keys: seq<string>): (r: seq<string>)
      reads this
      requires forall k :: 0 <= k < |keys| ==> keys[k] in sessions
      ensures |r| <= |keys|
      ensures forall e :: e in r <==> e in keys && sessions[e].isHealthy
    {
      if keys == [] then []
      else
        var e := keys[|keys| - 1];
        assert forall x :: x in keys <==> x in keys[..|keys| - 1] || x == e;
        HealthyIn(keys[..|keys| - 1]) + if sessions[e].isHealthy then [e] else []
    }

    /** How many of `keys` have a healthy session. */
    function CountHealthy(keys: seq<string>): nat
      reads this
      requires forall k :: 0 <= k < |keys| ==> keys[k] in sessions
    {
      if keys == [] then 0
      else CountHealthy(keys[..|keys| - 1]) + if sessions[keys[|keys| - 1]].isHealthy then 1 else 0
    }

    /** `get_active_emails`. */
    function ActiveEmails(): (r: seq<string>)
      reads this
      requires Valid()
      ensures forall e :: e in r <==> e in sessions && sessions[e].isHealthy
    {
      HealthyIn(order)
    }

    /** `get_active_count`: the healthy sessions, never more than there are sessions. */
    function ActiveCount(): (r: nat)
      reads this
      requires Valid()
      ensures r == |ActiveEmails()|
      ensures r <= |sessions|
      ensures (forall e :: e in sessions ==> sessions[e].isHealthy) ==> r == |sessions|
    {
      CountMatchesEmails(order);
      AllHealthyCount(order);
      KeysListed(sessions, order);
      CountHealthy(order)
    }

    lemma {:induction false} CountMatchesEmails(keys: seq<string>)
      requires forall k :: 0 <= k < |keys| ==> keys[k] in sessions
      ensures CountHealthy(keys) == |HealthyIn(keys)|
    {
      if keys != [] {
        CountMatchesEmails(keys[..|keys| - 1]);
      }
    }

    lemma {:induction false} AllHealthyCount(keys: seq<string>)
      requires forall k :: 0 <= k < |keys| ==> keys[k] in sessions
      ensures CountHealthy(keys) <= |keys|
      ensures (forall k :: 0 <= k < |keys| ==> sessions[keys[k]].isHealthy) ==> CountHealthy(keys) == |keys|
    {
      if keys != [] {
        AllHealthyCount(keys[..|keys| - 1]);
      }
    }

    /** `start_monitoring`: does nothing when already monitoring. */
    method StartMonitoring()
      modifies this
      ensures monitoring && order == old(order) && sessions == old(sessions)
    {
      if monitoring {
        return;
      }
      monitoring := true;
    }

    /** `stop_monitoring`. */
    method StopMonitoring()
      modifies this
      ensures !monitoring && order == old(order) && sessions == old(sessions)
    {
      monitoring := false;
    }

    /** The checking half of a monitor pass: every session is probed once, in registry order. */
    method CheckAll(probe: string -> Liveness, now: int) returns (crashed: seq<string>)
      requires Valid()
      modifies this
      ensures Valid() && order == old(order) && monitoring == old(monitoring)
      ensures crashed == Failing(old(order), probe)
      ensures forall e :: e in sessions <==> e in old(sessions)
      ensures forall e :: e in sessions && Passes(probe(e)) ==> sessions[e] == Refreshed(old(sessions)[e], now)
    {
      var emails := order;
      ghost var start := sessions;
      crashed := [];
      for i := 0 to |emails|
        invariant Valid() && order == emails && monitoring == old(monitoring)
        invariant CheckedUpTo(start, i, probe, now)
        invariant crashed == Failing(emails[..i], probe)
      {
        FailingSnoc(emails, i, probe);
        var healthy := CheckOne(start, i, probe, now);
        if !healthy {
          crashed := crashed + [emails[i]];
        }
      }
      CheckedAll(start, probe, now);
      assert emails[..|emails|] == emails;
    }

    /**
     * The registry after probing the first `i` sessions of `order`, starting from
     * `start`: same keys, the passing ones among those `i` stamped, the rest untouched.
     */
    ghost predicate CheckedUpTo(start: map<string, Session>, i: nat, probe: string -> Liveness, now: int)
      reads this
      requires Valid()
    {
      i <= |order|
      && (forall e :: e in sessions <==> e in start)
      && (forall k :: 0 <= k < i && Passes(probe(order[k])) ==> sessions[order[k]] == Refreshed(start[order[k]], now))
      && (forall k :: i <= k < |order| ==> sessions[order[k]] == start[order[k]])
    }

    /** Probes the `i`-th session of `order`. */
    method CheckOne(ghost start: map<string, Session>, i: nat, probe: string -> Liveness, now: int) returns (healthy: bool)
      requires Valid() && i < |order| && CheckedUpTo(start, i, probe, now)
      modifies this
      ensures Valid() && order == old(order) && monitoring == old(monitoring)
      ensures healthy <==> Passes(probe(order[i]))
      ensures CheckedUpTo(start, i + 1, probe, now)
    {
      var email := order[i];
      healthy := HealthCheck(email, probe(email), now);
      assert forall k :: 0 <= k < |order| && k != i ==> order[k] != email;
    }

    lemma CheckedAll(start: map<string, Session>, probe: string -> Liveness, now: int)
      requires Valid() && CheckedUpTo(start, |order|, probe, now)
      ensures forall e :: e in sessions && Passes(probe(e)) ==> sessions[e] == Refreshed(start[e], now)
    {
      forall e | e in sessions && Passes(probe(e))
        ensures sessions[e] == Refreshed(start[e], now)
      {
        var k :| 0 <= k < |order| && order[k] == e;
      }
    }

    /** Unregisters each of `emails`; every other session stays as it was. */
    method UnregisterAll(emails: seq<string>)
      requires Valid()
      modifies this
      ensures Valid() && monitoring == old(monitoring)
      ensures forall e :: e in sessions <==> e in old(sessions) && e !in emails
      ensures forall e :: e in sessions ==> sessions[e] == old(sessions)[e]
    {
      for j := 0 to |emails|
        invariant Valid() && monitoring == old(monitoring)
        invariant forall e :: e in sessions <==> e in old(sessions) && e !in emails[..j]
        invariant forall e :: e in sessions ==> sessions[e] == old(sessions)[e]
      {
        assert forall e :: e in emails[..j + 1] <==> e in emails[..j] || e == emails[j];
        Unregister(emails[j]);
      }
      assert emails[..|emails|] == emails;
    }

    /**
     * The checking and removing half of a monitor pass: every session is checked,
     * the failing ones are unregistered and returned in registry order, and the
     * survivors are stamped.
     */
    method Sweep(probe: string -> Liveness, now: int) returns (crashed: seq<string>)
      requires Valid()
      modifies this
      ensures Valid() && monitoring == old(monitoring)
      ensures crashed == Failing(old(order), probe)
      ensures forall e :: e in sessions <==> e in old(sessions) && Passes(probe(e))
      ensures forall e :: e in sessions ==> sessions[e] == Refreshed(old(sessions)[e], now)
    {
      crashed := CheckAll(probe, now);
      FailingMembers(old(order), probe);
      assert forall e :: e in crashed <==> e in old(sessions) && !Passes(probe(e));
      UnregisterAll(crashed);
    }

    /**
     * One pass of `_monitor_loop` while monitoring: the sweep, then a spawn of
     * `minBrowsers - survivors` requested exactly when too few survive; the
     * survivors are all healthy, so every one of them is active.
     */
    method MonitorTick(probe: string -> Liveness, now: int) returns (crashed: seq<string>, spawnRequest: Option<int>)
      requires Valid()
      modifies this
      ensures Valid() && monitoring == old(monitoring)
      ensures crashed == Failing(old(order), probe)
      ensures forall e :: e in sessions <==> e in old(sessions) && Passes(probe(e))
      ensures forall e :: e in sessions ==> sessions[e] == Refreshed(old(sessions)[e], now)
      ensures ActiveCount() == |sessions|
      ensures spawnRequest == if ActiveCount() < minBrowsers then Some(minBrowsers - ActiveCount()) else None
    {
      crashed := Sweep(probe, now);
      assert forall e :: e in sessions ==> sessions[e].isHealthy;
      var active := ActiveCount();
      if active < minBrowsers {
        spawnRequest := Some(minBrowsers - active);
      } else {
        spawnRequest := None;
      }
    }
  }
}

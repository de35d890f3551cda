/**
 * The KPI progress store (`KPIManager`): a target number of tasks per account
 * and the number of tasks the completed-task workbook shows for it.  The
 * workbook is a parameter: absent, unreadable, or a map from sheet name to row
 * count.
 */
module Kpi {
  import opened TextUtil
  import TaskLog

  /** What `pd.read_excel(..., sheet_name=None)` yields for the completed-task file. */
  datatype Workbook = Missing | Unreadable | Sheets(rows: map<string, nat>)

  /** One entry of `get_incomplete_accounts`. */
  datatype KpiGap = KpiGap(email: string, kpi: int, progress: nat, remaining: int)

  /**
   * `_get_sheet_name`: "Unknown" for an empty email, otherwise the sanitised
   * local part cut to 31 characters, with its case kept.
   */
  function SheetNameOf(email: string): (r: string)
    ensures email == [] ==> r == "Unknown"
    ensures email != [] ==> r == TaskLog.SheetBase(email)
    ensures email != [] ==> |r| <= TaskLog.MaxSheetNameLength && '@' !in r
  {
    if email == [] then "Unknown" else TaskLog.SheetBase(email)
  }

  /** The same procedure as a loop over the forbidden characters. */
  method SheetName(email: string) returns (r: string)
    ensures r == SheetNameOf(email)
  {
    if email == [] {
      return "Unknown";
    }
    var base := BeforeFirst(email, '@');
    base := TaskLog.ReplaceInvalidChars(base);
    r := Take(base, TaskLog.MaxSheetNameLength);
  }

  /** The progress `refresh_progress` reads for one account. */
  function RowsFor(book: Workbook, email: string): nat {
    match book
    case Sheets(rows) => if SheetNameOf(email) in rows then rows[SheetNameOf(email)] else 0
    case _ => 0
  }

  class KpiManager {
    /** Keys of `account_kpis` in insertion order. */
    var order: seq<string>
    var kpis: map<string, int>
    var progress: map<string, nat>

    ghost predicate Valid()
      reads this
    {
      Distinct(order) && (forall e :: e in kpis <==> e in order)
    }

    constructor ()
      ensures Valid() && order == [] && kpis == map[] && progress == map[]
    {
      order := [];
      kpis := map[];
      progress := map[];
    }

    /** `set_kpi`: a new account goes to the end of the order, an existing one keeps its place. */
    method SetKpi(email: string, kpi: int)
      requires Valid()
      modifies this
      ensures Valid()
      ensures kpis == old(kpis)[email := kpi] && progress == old(progress)
      ensures order == if email in old(kpis) then old(order) else old(order) + [email]
    {
      if email !in kpis {
        order := order + [email];
      }
      kpis := kpis[email := kpi];
    }

    /** `get_kpi`: 0 for an account never set. */
    function GetKpi(email: string): (r: int)
      reads this
      ensures email in kpis ==> r == kpis[email]
      ensures email !in kpis ==> r == 0
    {
      if email in kpis then kpis[email] else 0
    }

    /** `get_progress`: 0 for an account never refreshed. */
    function GetProgress(email: string): (r: nat)
      reads this
      ensures email in progress ==> r == progress[email]
      ensures email !in progress ==> r == 0
    {
      if email in progress then progress[email] else 0
    }

    /** `get_remaining`: how far the account is from its target, never negative. */
    function GetRemaining(email: string): (r: nat)
      reads this
      ensures r >= GetKpi(email) - GetProgress(email)
      ensures r == 0 || r == GetKpi(email) - GetProgress(email)
    {
      if GetKpi(email) - GetProgress(email) > 0 then GetKpi(email) - GetProgress(email) else 0
    }

    /** `has_met_kpi`: progress has reached the target, which is when nothing remains. */
    function HasMetKpi(email: string): (r: bool)
      reads this
      ensures r <==> GetRemaining(email) == 0
      ensures email !in kpis ==> r
    {
      GetProgress(email) >= GetKpi(email)
    }

    /** Every account with a target has reached it. */
    ghost predicate AllMet()
      reads this
    {
      forall e :: e in kpis ==> HasMetKpi(e)
    }

    /** `all_kpis_met`: scans the targets in order and stops at the first one not reached. */
    method AllKpisMet() returns (r: bool)
      requires Valid()
      ensures r <==> AllMet()
      ensures kpis == map[] ==> r
    {
      for i := 0 to |order|
        invariant forall k :: 0 <= k < i ==> HasMetKpi(order[k])
      {
        if GetProgress(order[i]) < kpis[order[i]] {
          return false;
        }
      }
      return true;
    }

    /** The gap entries for `keys`, in their order, skipping accounts that met their target. */
    ghost function Gaps(keys: seq<string>): (r: seq<KpiGap>)
      reads this
      requires forall k :: 0 <= k < |keys| ==> keys[k] in kpis
      ensures forall g :: g in r <==>
        (g.email in keys && !HasMetKpi(g.email) &&
         g == KpiGap(g.email, kpis[g.email], GetProgress(g.email), kpis[g.email] - GetProgress(g.email)))
      ensures forall g :: g in r ==> g.remaining > 0
      ensures |r| <= |keys|
    {
      if keys == [] then []
      else
        var e := keys[|keys| - 1];
        var rest := Gaps(keys[..|keys| - 1]);
        assert forall x :: x in keys <==> x in keys[..|keys| - 1] || x == e;
        if HasMetKpi(e) then rest
        else rest + [KpiGap(e, kpis[e], GetProgress(e), kpis[e] - GetProgress(e))]
    }

    /** `get_incomplete_accounts`: exactly the accounts below target, in target order. */
    method GetIncompleteAccounts() returns (r: seq<KpiGap>)
      requires Valid()
      ensures r == Gaps(order)
      ensures forall e :: (exists g :: g in r && g.email == e) <==> (e in kpis && !HasMetKpi(e))
    {
      r := [];
      for i := 0 to |order|
        invariant r == Gaps(order[..i])
      {
        var e := order[i];
        assert order[..i + 1][..i] == order[..i];
        if GetProgress(e) < kpis[e] {
          r := r + [KpiGap(e, kpis[e], GetProgress(e), kpis[e] - GetProgress(e))];
        }
      }
      assert order[..|order|] == order;
      forall e | e in kpis && !HasMetKpi(e)
        ensures exists g :: g in r && g.email == e
      {
        var g := KpiGap(e, kpis[e], GetProgress(e), kpis[e] - GetProgress(e));
        assert g in r;
      }
    }

    /**
     * `refresh_progress`: every account with a target gets the row count of its
     * sheet, or 0 when the sheet is missing, the file is absent or cannot be read.
     */
    method RefreshProgress(book: Workbook)
      requires Valid()
      modifies this
      ensures Valid() && order == old(order) && kpis == old(kpis)
      ensures forall e :: e in kpis ==> e in progress && progress[e] == RowsFor(book, e)
      ensures forall e :: e !in kpis ==> (e in progress <==> e in old(progress))
      ensures forall e :: e !in kpis && e in progress ==> progress[e] == old(progress)[e]
    {
      for i := 0 to |order|
        invariant order == old(order) && kpis == old(kpis)
        invariant forall k :: 0 <= k < i ==> order[k] in progress && progress[order[k]] == RowsFor(book, order[k])
        invariant forall e :: e !in order[..i] ==> (e in progress <==> e in old(progress))
        invariant forall e :: e !in order[..i] && e in progress ==> progress[e] == old(progress)[e]
      {
        var e := order[i];
        var name := SheetName(e);
        var count := 0;
        if book.Sheets? && name in book.rows {
          count := book.rows[name];
        }
        assert order[..i + 1] == order[..i] + [e];
        progress := progress[e := count];
      }
      assert order[..|order|] == order;
    }
  }

  /**
   * The KPI store looks for a case-preserving sheet name while `TaskLogger`
   * writes upper-cased ones: the two agree only on names without lower-case letters.
   */
  lemma SheetNameVersusTaskLog(email: string)
    ensures TaskLog.SheetNameOf(email) == if email == [] then SheetNameOf(email) else Upper(SheetNameOf(email))
  {
  }

  /**
   * An account whose sheet base holds a lower-case letter never finds the sheet
   * `TaskLogger` fills for it, so its progress reads 0.
   */
  lemma LoggedSheetIsNotFound(email: string, rows: nat)
    requires email != []
    requires exists k :: 0 <= k < |SheetNameOf(email)| && 'a' <= SheetNameOf(email)[k] <= 'z'
    ensures RowsFor(Sheets(map[TaskLog.SheetNameOf(email) := rows]), email) == 0
  {
    var k :| 0 <= k < |SheetNameOf(email)| && 'a' <= SheetNameOf(email)[k] <= 'z';
    assert TaskLog.SheetNameOf(email)[k] != SheetNameOf(email)[k];
  }
}

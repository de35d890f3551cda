/**
 * The parts of `DataManager` that decide things without touching the network:
 * making a sheet's header row usable as column names, turning a data row into
 * a record, the frame built from the records, the whitelist check, the
 * refresh timer, the record count and the routing of `get_decision` up to
 * the score rules.
 */
module DataSheets {
  import opened Wrappers
  import opened TextUtil

  /** How often `h` occurs in `s`. */
  function CountIn(s: seq<string>, h: string): nat {
    if s == [] then 0 else CountIn(s[..|s| - 1], h) + if s[|s| - 1] == h then 1 else 0
  }

  /** Name given to a header that has already occurred `k` times before it. */
  function Renamed(h: string, k: nat): string {
    if k == 0 then h else h + "_" + NatToString(k)
  }

  /** The de-duplicated header row: each header renamed by how often it occurred earlier. */
  function DedupSpec(headers: seq<string>): (r: seq<string>)
    ensures |r| == |headers|
  {
    seq(|headers|, i requires 0 <= i < |headers| => DedupAt(headers, i))
  }

  /** The name `DedupSpec` gives the header at position `i`. */
  function DedupAt(headers: seq<string>, i: nat): string
    requires i < |headers|
  {
    Renamed(headers[i], CountIn(headers[..i], headers[i]))
  }

  /**
   * The header loop of `load_from_google_sheets` and `refresh_from_google_sheets`:
   * `seen` counts the repeats of each header, a first occurrence is kept and the
   * k-th repeat of `h` becomes `h_k`.
   */
  method DedupHeaders(headers: seq<string>) returns (unique: seq<string>)
    ensures unique == DedupSpec(headers)
  {
    var seen: map<string, nat> := map[];
    unique := [];
    for i := 0 to |headers|
      invariant |unique| == i
      invariant forall k :: 0 <= k < i ==> unique[k] == DedupAt(headers, k)
      invariant SeenCounts(seen, headers[..i])
    {
      var h := headers[i];
      SeenStep(seen, headers, i);
      var name;
      if h in seen {
        var k := seen[h] + 1;
        seen := seen[h := k];
        name := h + "_" + NatToString(k);
      } else {
        seen := seen[h := 0];
        name := h;
      }
      assert name == DedupAt(headers, i);
      unique := unique + [name];
    }
    SameSeq(unique, DedupSpec(headers));
  }

  /** `seen` holds exactly the headers of `prefix`, each with its number of repeats. */
  ghost predicate SeenCounts(seen: map<string, nat>, prefix: seq<string>) {
    (forall h :: h in seen <==> CountIn(prefix, h) > 0)
    && (forall h :: h in seen ==> seen[h] + 1 == CountIn(prefix, h))
  }

  /** One turn of the header loop keeps `seen` in step and names the header as `DedupAt` does. */
  lemma SeenStep(seen: map<string, nat>, headers: seq<string>, i: nat)
    requires i < |headers| && SeenCounts(seen, headers[..i])
    ensures var h := headers[i];
      var after := if h in seen then seen[h := seen[h] + 1] else seen[h := 0];
      SeenCounts(after, headers[..i + 1])
      && DedupAt(headers, i) == if h in seen then h + "_" + NatToString(seen[h] + 1) else h
  {
    CountStep(headers, i);
  }

  lemma SameSeq(a: seq<string>, b: seq<string>)
    requires |a| == |b| && forall k :: 0 <= k < |a| ==> a[k] == b[k]
    ensures a == b
  {
  }

  /** Extending a prefix by one element counts that element once more. */
  lemma CountStep(s: seq<string>, i: nat)
    requires i < |s|
    ensures forall x :: CountIn(s[..i + 1], x) == CountIn(s[..i], x) + if x == s[i] then 1 else 0
  {
    assert s[..i + 1][..i] == s[..i];
  }

  lemma {:induction false} CountInAbsent(s: seq<string>, h: string)
    requires h !in s
    ensures CountIn(s, h) == 0
  {
    if s != [] {
      CountInAbsent(s[..|s| - 1], h);
    }
  }

  /** Without repeated headers nothing is renamed. */
  lemma DistinctHeadersKept(headers: seq<string>)
    requires Distinct(headers)
    ensures DedupSpec(headers) == headers
  {
    forall i | 0 <= i < |headers|
      ensures DedupSpec(headers)[i] == headers[i]
    {
      CountInAbsent(headers[..i], headers[i]);
    }
  }

  /** Counting over a longer prefix never counts less, and counts the element at its end. */
  lemma {:induction false} CountInGrows(s: seq<string>, i: nat, j: nat)
    requires i < j <= |s|
    ensures CountIn(s[..j], s[i]) >= CountIn(s[..i], s[i]) + 1
    decreases j - i
  {
    assert s[..j][..j - 1] == s[..j - 1];
    if j - 1 > i {
      CountInGrows(s, i, j - 1);
    } else {
      assert s[..j - 1] == s[..i];
    }
  }

  /** Two columns carrying the same header get different names. */
  lemma RepeatsGetDistinctNames(headers: seq<string>, i: int, j: int)
    requires 0 <= i < j < |headers| && headers[i] == headers[j]
    ensures DedupSpec(headers)[i] != DedupSpec(headers)[j]
  {
    var h := headers[i];
    CountInGrows(headers, i, j);
    var ki := CountIn(headers[..i], h);
    var kj := CountIn(headers[..j], h);
    if ki == 0 {
      assert |DedupSpec(headers)[j]| > |h|;
    } else {
      var si, sj := NatToString(ki), NatToString(kj);
      assert si == (h + "_" + si)[|h| + 1..];
      assert sj == (h + "_" + sj)[|h| + 1..];
    }
  }

  /** The renaming is not collision-free: a repeat can take the name of a later, literal header. */
  lemma RenamingCanCollide()
    ensures DedupSpec(["a", "a", "a_1"]) == ["a", "a_1", "a_1"]
  {
    var hs := ["a", "a", "a_1"];
    CountStep(hs, 0);
    CountStep(hs, 1);
    assert hs[..0] == [];
    assert CountIn(hs[..1], "a") == 1;
    assert |"a"| != |"a_1"|;
    assert CountIn(hs[..1], "a_1") == 0;
    assert CountIn(hs[..2], "a_1") == 0;
    assert NatToString(1) == "1";
    assert "a" + "_" + "1" == "a_1";
    assert DedupSpec(hs)[0] == "a";
    assert DedupSpec(hs)[1] == "a_1";
    assert DedupSpec(hs)[2] == "a_1";
  }

  /** `dict(zip(headers, row))` built pair by pair over the first `n` columns; a later pair overwrites an earlier one. */
  function ZipPrefix(headers: seq<string>, row: seq<string>, n: nat): (r: map<string, string>)
    requires n <= |headers| && n <= |row|
    ensures forall key :: key in r <==> key in headers[..n]
  {
    if n == 0 then map[]
    else
      assert headers[..n] == headers[..n - 1] + [headers[n - 1]];
      ZipPrefix(headers, row, n - 1)[headers[n - 1] := row[n - 1]]
  }

  /** `dict(zip(headers, row))`: pairs up to the shorter of the two. */
  function ZipRecord(headers: seq<string>, row: seq<string>): (r: map<string, string>)
    ensures forall key :: key in r <==> exists k :: 0 <= k < |headers| && k < |row| && headers[k] == key
  {
    var n := if |headers| < |row| then |headers| else |row|;
    var r := ZipPrefix(headers, row, n);
    assert forall key :: key in headers[..n] <==> exists k :: 0 <= k < n && headers[k] == key;
    r
  }

  /** Each header within reach maps to the value of its last column. */
  lemma {:induction false} ZipLastColumnWins(headers: seq<string>, row: seq<string>, n: nat, k: nat)
    requires n <= |headers| && n <= |row| && k < n
    requires forall j :: k < j < n ==> headers[j] != headers[k]
    ensures ZipPrefix(headers, row, n)[headers[k]] == row[k]
  {
    if k < n - 1 {
      ZipLastColumnWins(headers, row, n - 1, k);
    }
  }

  /** The whitelist rule: the id is a whitelisted UID or occurs inside a whitelisted task link. */
  predicate Whitelisted(taskId: string, uids: set<string>, links: set<string>) {
    taskId in uids || exists link :: link in links && Contains(link, taskId)
  }

  /** `_is_in_whitelist`: the UID set first, then the links one by one. */
  method IsInWhitelist(taskId: string, uids: set<string>, links: set<string>) returns (r: bool)
    ensures r <==> Whitelisted(taskId, uids, links)
  {
    if taskId in uids {
      return true;
    }
    var rest := links;
    while rest != {}
      invariant rest <= links
      invariant forall link :: link in links - rest ==> !Contains(link, taskId)
      decreases |rest|
    {
      var link :| link in rest;
      if Contains(link, taskId) {
        return true;
      }
      rest := rest - {link};
    }
    return false;
  }

  /** `_should_refresh`: never without a sheet; otherwise once the interval has elapsed. */
  function ShouldRefresh(hasSheet: bool, now: int, lastRefresh: int, interval: int): (r: bool)
    ensures !hasSheet ==> !r
    ensures hasSheet ==> (r <==> now >= lastRefresh + interval)
  {
    if !hasSheet then false else now - lastRefresh >= interval
  }

  /**
   * One row of the evaluation sheet as `get_decision` reads it: the trace id
   * as `astype(str)` renders it, the other cells with a missing one read as "".
   */
  datatype EvalRow = EvalRow(traceId: string, decision: string, stepEvaluations: string, notes: string)

  /** The column `get_decision` searches. */
  const TraceColumn: string := "trace_id"

  /**
   * `pd.DataFrame(data)` as `get_decision` sees it: the columns are every key
   * of every record, and the rows are read in order.
   */
  datatype Sheet = Sheet(columns: set<string>, rows: seq<EvalRow>)

  /** A cell of a record that lacks it: "" where `get_decision` tests `notna`. */
  function CellOr(rec: map<string, string>, key: string, missing: string): string {
    if key in rec then rec[key] else missing
  }

  /** A record as a row; a missing trace id is the NaN that `astype(str)` renders as "nan". */
  function RowOf(rec: map<string, string>): EvalRow {
    EvalRow(CellOr(rec, TraceColumn, "nan"), CellOr(rec, "decision", ""),
            CellOr(rec, "step_evaluations", ""), CellOr(rec, "notes", ""))
  }

  /** The column set of a frame built from `records`. */
  function Columns(records: seq<map<string, string>>): (r: set<string>)
    ensures forall c :: c in r <==> exists k :: 0 <= k < |records| && c in records[k]
  {
    if records == [] then {}
    else
      var rest := records[..|records| - 1];
      assert forall k :: 0 <= k < |rest| ==> rest[k] == records[k];
      Columns(rest) + records[|records| - 1].Keys
  }

  /** The frame `pd.DataFrame(data)` builds from the loaded records. */
  function SheetOf(records: seq<map<string, string>>): (r: Sheet)
    ensures forall c :: c in r.columns <==> exists k :: 0 <= k < |records| && c in records[k]
    ensures |r.rows| == |records| && forall k :: 0 <= k < |records| ==> r.rows[k] == RowOf(records[k])
  {
    Sheet(Columns(records), seq(|records|, k requires 0 <= k < |records| => RowOf(records[k])))
  }

  /** `get_record_count`: 0 with no data loaded. */
  function GetRecordCount(table: Option<Sheet>): (r: nat)
    ensures table.None? ==> r == 0
    ensures table.Some? ==> r == |table.value.rows|
  {
    match table
    case None => 0
    case Some(sheet) => |sheet.rows|
  }

  /** The row `row_df.iloc[0]` picks: the first whose trace id contains the given task id, ignoring case. */
  function FirstMatch(rows: seq<EvalRow>, taskId: string): (r: Option<EvalRow>)
    ensures r.Some? ==> exists i :: (0 <= i < |rows| && rows[i] == r.value
      && Contains(Lower(rows[i].traceId), Lower(taskId))
      && forall j :: 0 <= j < i ==> !Contains(Lower(rows[j].traceId), Lower(taskId)))
    ensures r.None? ==> forall k :: 0 <= k < |rows| ==> !Contains(Lower(rows[k].traceId), Lower(taskId))
  {
    if rows == [] then None
    else if Contains(Lower(rows[0].traceId), Lower(taskId)) then
      assert rows[0] == rows[0];
      Some(rows[0])
    else
      var r := FirstMatch(rows[1..], taskId);
      assert forall k :: 1 <= k < |rows| ==> rows[k] == rows[1..][k - 1];
      if r.Some? then
        var i :| 0 <= i < |rows[1..]| && rows[1..][i] == r.value
          && Contains(Lower(rows[1..][i].traceId), Lower(taskId))
          && forall j :: 0 <= j < i ==> !Contains(Lower(rows[1..][j].traceId), Lower(taskId));
        assert rows[i + 1] == r.value;
        r
      else r
  }

  datatype Action = Accept | Revise | Unsure

  /** The decision dictionary: an action, notes, and revision notes for REVISE. */
  datatype Decision = Decision(action: Action, notes: string, revisionNotes: Option<string>)

  /**
   * Where `get_decision` ends: a decision, the score rules for the row it
   * found, or the `KeyError` raised when the frame has no `trace_id` column.
   */
  datatype Routing = Decided(decision: Decision, row: Option<EvalRow>) | ScoreRules(evalRow: EvalRow) | MissingTraceColumn

  const WhitelistNote: string := "Auto-accepted from whitelist (ok.xlsx)"
  const NotLoadedNote: string := "Data file not loaded"
  const NotFoundNote: string := "Task ID not found in Evals sheet"

  /**
   * `get_decision` up to the score rules: the whitelist wins even with no data
   * loaded, then missing data gives UNSURE, a frame without a `trace_id` column
   * raises, a missing row gives UNSURE, and the normalised decision column of
   * the first matching row decides ACCEPT or REVISE as it stands.
   */
  function GetDecision(taskId: string, uids: set<string>, links: set<string>, table: Option<Sheet>): (r: Routing)
    ensures Whitelisted(taskId, uids, links) ==> r == Decided(Decision(Accept, WhitelistNote, None), None)
    ensures !Whitelisted(taskId, uids, links) && table.None? ==> r == Decided(Decision(Unsure, NotLoadedNote, None), None)
    ensures r.MissingTraceColumn? <==>
      !Whitelisted(taskId, uids, links) && table.Some? && TraceColumn !in table.value.columns
    ensures (!Whitelisted(taskId, uids, links) && table.Some? && TraceColumn in table.value.columns
      && FirstMatch(table.value.rows, taskId).None?) ==>
      r == Decided(Decision(Unsure, NotFoundNote, None), None)
    ensures (!Whitelisted(taskId, uids, links) && table.Some? && TraceColumn in table.value.columns
      && FirstMatch(table.value.rows, taskId).Some?) ==>
      var row := FirstMatch(table.value.rows, taskId).value;
      var col := Strip(Upper(row.decision));
      r == (if col == "ACCEPT" then Decided(Decision(Accept, row.stepEvaluations, None), Some(row))
            else if col == "REVISE" then Decided(Decision(Revise, row.stepEvaluations, Some(row.notes)), Some(row))
            else ScoreRules(row))
    ensures r.Decided? && r.row.Some? ==>
      var col := Strip(Upper(r.row.value.decision));
      (col == "ACCEPT" && r.decision == Decision(Accept, r.row.value.stepEvaluations, None))
      || (col == "REVISE" && r.decision == Decision(Revise, r.row.value.stepEvaluations, Some(r.row.value.notes)))
    ensures r.ScoreRules? ==> Strip(Upper(r.evalRow.decision)) != "ACCEPT" && Strip(Upper(r.evalRow.decision)) != "REVISE"
  {
    if Whitelisted(taskId, uids, links) then Decided(Decision(Accept, WhitelistNote, None), None)
    else if table.None? then Decided(Decision(Unsure, NotLoadedNote, None), None)
    else if TraceColumn !in table.value.columns then MissingTraceColumn
    else
      match FirstMatch(table.value.rows, taskId)
      case None => Decided(Decision(Unsure, NotFoundNote, None), None)
      case Some(row) =>
        var col := Strip(Upper(row.decision));
        if col == "ACCEPT" then Decided(Decision(Accept, row.stepEvaluations, None), Some(row))
        else if col == "REVISE" then Decided(Decision(Revise, row.stepEvaluations, Some(row.notes)), Some(row))
        else ScoreRules(row)
  }

  /**
   * A sheet with a header row and no data rows loads as an empty frame, which
   * has no columns: any id that is not whitelisted then raises instead of
   * giving UNSURE.
   */
  lemma EmptySheetRaises(taskId: string, uids: set<string>, links: set<string>)
    requires !Whitelisted(taskId, uids, links)
    ensures GetDecision(taskId, uids, links, Some(SheetOf([]))) == MissingTraceColumn
  {
  }

  /**
   * Loaded records that all carry a trace id never raise: the lookup finds the
   * first record whose id contains the given id, or reports it missing.
   */
  lemma TracedRecordsDecide(taskId: string, uids: set<string>, links: set<string>, records: seq<map<string, string>>)
    requires records != [] && forall k :: 0 <= k < |records| ==> TraceColumn in records[k]
    ensures !GetDecision(taskId, uids, links, Some(SheetOf(records))).MissingTraceColumn?
  {
    assert TraceColumn in records[0];
  }

}

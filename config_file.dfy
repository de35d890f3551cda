/**
 * The line-oriented `accounts.config` reader, in the two dialects the
 * repository has: the watchdog runner's (`email,password[,kpi]`, split on every
 * comma) and the pair runner's (`email,password`, split on the first comma
 * only).  Reading the file is a parameter: its text, or None when it is absent.
 */
module ConfigFile {
  import opened Wrappers
  import opened TextUtil

  /** KPI given to an account line without a numeric third field. */
  const DefaultKpi: nat := 100

  /** Which `load_config` reads the file. */
  datatype Dialect = WatchdogDialect | MultiDialect

  /** One account line; `kpi` is None in the pair runner's dialect, which has no KPI field. */
  datatype AccountEntry = AccountEntry(email: string, password: string, kpi: Option<nat>)

  datatype Config = Config(
    accounts: seq<AccountEntry>,
    headless: bool,
    maxConcurrent: nat,
    reviewSheet: string,
    googleSheetId: Option<string>,
    googleCredentials: string)

  /** The configuration returned when the file is absent, and the start of every parse. */
  const Defaults: Config := Config([], true, 2, "nereid-evals.xlsx", None, "credentials.json")

  /** The reader's state between lines: the configuration so far and whether an ACCOUNTS: section is open. */
  datatype ParseState = ParseState(config: Config, inAccounts: bool)

  /** `line.split(':', 1)[1].strip()` for a line known to hold a colon. */
  function ValueAfterColon(line: string): string {
    if ':' in line then Strip(AfterFirst(line, ':')) else ""
  }

  /** Length of the run of ASCII digits at the start of `s`. */
  function DigitRun(s: string): (n: nat)
    ensures n <= |s| && forall k :: 0 <= k < n ==> IsDigit(s[k])
    ensures n < |s| ==> !IsDigit(s[n])
  {
    if |s| > 0 && IsDigit(s[0]) then 1 + DigitRun(s[1..]) else 0
  }

  /** Index of the first ASCII digit of `s`, or `|s|` when it has none. */
  function FirstDigit(s: string): (i: nat)
    ensures i <= |s| && forall k :: 0 <= k < i ==> !IsDigit(s[k])
    ensures i < |s| ==> IsDigit(s[i])
  {
    if s == [] || IsDigit(s[0]) then 0 else 1 + FirstDigit(s[1..])
  }

  /**
   * `re.search(r'(\d+)', s)`: the value of the first run of digits, if any.
   * The run starts at the first digit and is as long as `DigitRun` says.
   */
  function FirstNumber(s: string): (r: Option<nat>)
    ensures r.None? <==> forall k :: 0 <= k < |s| ==> !IsDigit(s[k])
    ensures r.Some? ==> var i := FirstDigit(s); i < |s| && r.value == DigitsValue(s[i..][..DigitRun(s[i..])])
  {
    if s == [] then None
    else if IsDigit(s[0]) then
      assert s[0..] == s;
      Some(DigitsValue(s[..DigitRun(s)]))
    else
      assert forall k :: 0 < k < |s| ==> s[k] == s[1..][k - 1];
      assert s[1..][FirstDigit(s[1..])..] == s[FirstDigit(s)..];
      FirstNumber(s[1..])
  }

  /** An account line's fields, split on every comma and stripped. */
  function StrippedFields(line: string): (r: seq<string>)
    ensures |r| == |SplitOn(line, ',')|
  {
    var parts := SplitOn(line, ',');
    seq(|parts|, k requires 0 <= k < |parts| => Strip(parts[k]))
  }

  /** The KPI rule: the third field when it is all digits, 100 otherwise. */
  function KpiField(fields: seq<string>): nat {
    if |fields| >= 3 && IsDigits(fields[2]) then DigitsValue(fields[2]) else DefaultKpi
  }

  /** The watchdog dialect's account line: every comma splits, a third field may give the KPI. */
  function WatchdogAccount(line: string): (r: Option<AccountEntry>)
    ensures r.Some? ==> r.value.email != [] && r.value.password != []
    ensures r.Some? ==> ',' !in r.value.email && ',' !in r.value.password
    ensures r.Some? ==> r.value.kpi == Some(KpiField(StrippedFields(line)))
  {
    var fields := StrippedFields(line);
    var parts := SplitOn(line, ',');
    if |fields| < 2 then None
    else
      assert ',' !in parts[0] && ',' !in parts[1];
      StripKeepsAbsent(parts[0], ',');
      StripKeepsAbsent(parts[1], ',');
      if fields[0] != [] && fields[1] != [] then Some(AccountEntry(fields[0], fields[1], Some(KpiField(fields))))
      else None
  }

  /** The pair dialect's account line: only the first comma splits. */
  function MultiAccount(line: string): (r: Option<AccountEntry>)
    requires ',' in line
    ensures r.Some? ==> r.value.email != [] && r.value.password != [] && r.value.kpi.None?
    ensures r.Some? ==> ',' !in r.value.email
    ensures r.Some? ==> r.value.password == Strip(AfterFirst(line, ','))
  {
    var email := Strip(BeforeFirst(line, ','));
    var password := Strip(AfterFirst(line, ','));
    StripKeepsAbsent(BeforeFirst(line, ','), ',');
    if email != [] && password != [] then Some(AccountEntry(email, password, None)) else None
  }

  /**
   * The account a line inside an ACCOUNTS: section yields: none for a comment,
   * a line without a comma, or an empty email or password.
   */
  function ParseAccountLine(d: Dialect, line: string): (r: Option<AccountEntry>)
    ensures (',' !in line || StartsWith(line, "#")) ==> r.None?
    ensures r.Some? ==> r.value.email != [] && r.value.password != []
    ensures r.Some? ==> ',' !in r.value.email
    ensures r.Some? && d.WatchdogDialect? ==> ',' !in r.value.password && r.value.kpi == Some(KpiField(StrippedFields(line)))
    ensures r.Some? && d.MultiDialect? ==> r.value.kpi.None? && r.value.password == Strip(AfterFirst(line, ','))
  {
    if ',' !in line || StartsWith(line, "#") then None
    else if d.WatchdogDialect? then WatchdogAccount(line)
    else MultiAccount(line)
  }

  /** Whether a stripped line is one of the headers that end an ACCOUNTS: section. */
  predicate IsOtherHeader(line: string) {
    StartsWith(line, "HEADLESS:") || StartsWith(line, "MAX_CONCURRENT:") || StartsWith(line, "REVIEW_SHEET:")
    || StartsWith(line, "GOOGLE_SHEET_ID:") || StartsWith(line, "GOOGLE_CREDENTIALS:")
  }

  /** The five headers are told apart by their first characters: a line starts with at most one of them. */
  lemma HeadersExclusive(line: string)
    ensures StartsWith(line, "HEADLESS:") ==>
      !StartsWith(line, "MAX_CONCURRENT:") && !StartsWith(line, "REVIEW_SHEET:")
      && !StartsWith(line, "GOOGLE_SHEET_ID:") && !StartsWith(line, "GOOGLE_CREDENTIALS:")
    ensures StartsWith(line, "MAX_CONCURRENT:") ==>
      !StartsWith(line, "REVIEW_SHEET:") && !StartsWith(line, "GOOGLE_SHEET_ID:") && !StartsWith(line, "GOOGLE_CREDENTIALS:")
    ensures StartsWith(line, "REVIEW_SHEET:") ==> !StartsWith(line, "GOOGLE_SHEET_ID:") && !StartsWith(line, "GOOGLE_CREDENTIALS:")
    ensures StartsWith(line, "GOOGLE_SHEET_ID:") ==> !StartsWith(line, "GOOGLE_CREDENTIALS:")
  {
    if StartsWith(line, "HEADLESS:") || StartsWith(line, "MAX_CONCURRENT:") || StartsWith(line, "REVIEW_SHEET:") {
      assert line[0] == line[..1][0];
    }
    if StartsWith(line, "GOOGLE_SHEET_ID:") {
      assert line[7] == "GOOGLE_SHEET_ID:"[7];
    }
  }

  /**
   * The setting a header line gives: the header it starts with names the one
   * setting that changes, and the accounts and every other setting are left
   * alone.  A MAX_CONCURRENT line without digits changes nothing.
   */
  function ApplyHeader(c: Config, line: string): (r: Config)
    requires IsOtherHeader(line)
    ensures r.accounts == c.accounts
    ensures StartsWith(line, "HEADLESS:") ==> r == c.(headless := Contains(Lower(line), "true"))
    ensures StartsWith(line, "MAX_CONCURRENT:") ==>
      r == if FirstNumber(line).Some? then c.(maxConcurrent := FirstNumber(line).value) else c
    ensures StartsWith(line, "REVIEW_SHEET:") ==> r == c.(reviewSheet := ValueAfterColon(line))
    ensures StartsWith(line, "GOOGLE_SHEET_ID:") ==> r == c.(googleSheetId := Some(ValueAfterColon(line)))
    ensures StartsWith(line, "GOOGLE_CREDENTIALS:") ==> r == c.(googleCredentials := ValueAfterColon(line))
  {
    HeadersExclusive(line);
    if StartsWith(line, "HEADLESS:") then c.(headless := Contains(Lower(line), "true"))
    else if StartsWith(line, "MAX_CONCURRENT:") then
      match FirstNumber(line) case Some(n) => c.(maxConcurrent := n) case None => c
    else if StartsWith(line, "REVIEW_SHEET:") then c.(reviewSheet := ValueAfterColon(line))
    else if StartsWith(line, "GOOGLE_SHEET_ID:") then c.(googleSheetId := Some(ValueAfterColon(line)))
    else c.(googleCredentials := ValueAfterColon(line))
  }

  /**
   * One pass of the loop body over a raw line of the file: `ACCOUNTS:` opens the
   * section, any other header closes it, and inside the section an account line
   * appends its account.
   */
  function StepLine(d: Dialect, st: ParseState, raw: string): (r: ParseState)
    ensures StartsWith(Strip(raw), "ACCOUNTS:") ==> r == st.(inAccounts := true)
    ensures !StartsWith(Strip(raw), "ACCOUNTS:") && IsOtherHeader(Strip(raw)) ==>
      !r.inAccounts && r.config.accounts == st.config.accounts
    ensures r.config.accounts == st.config.accounts ||
      (st.inAccounts && !IsOtherHeader(Strip(raw)) && ParseAccountLine(d, Strip(raw)).Some? &&
       r.config.accounts == st.config.accounts + [ParseAccountLine(d, Strip(raw)).value])
  {
    var line := Strip(raw);
    if StartsWith(line, "ACCOUNTS:") then st.(inAccounts := true)
    else if IsOtherHeader(line) then ParseState(ApplyHeader(st.config, line), false)
    else if st.inAccounts then
      match ParseAccountLine(d, line)
      case Some(entry) => st.(config := st.config.(accounts := st.config.accounts + [entry]))
      case None => st
    else st
  }

  /** The loop over all lines, from a given state. */
  function Run(d: Dialect, st: ParseState, lines: seq<string>): ParseState
    decreases |lines|
  {
    if lines == [] then st else Run(d, StepLine(d, st, lines[0]), lines[1..])
  }

  /** `load_config`: the defaults when the file is absent, else the result of reading every line. */
  method LoadConfig(d: Dialect, content: Option<string>) returns (config: Config)
    ensures content.None? ==> config == Defaults
    ensures content.Some? ==> config == Run(d, ParseState(Defaults, false), SplitOn(content.value, '\n')).config
  {
    if content.None? {
      return Defaults;
    }
    var lines := SplitOn(content.value, '\n');
    var st := ParseState(Defaults, false);
    for i := 0 to |lines|
      invariant Run(d, st, lines[i..]) == Run(d, ParseState(Defaults, false), lines)
    {
      RunFrom(d, st, lines, i);
      st := StepLine(d, st, lines[i]);
    }
    RunAtEnd(d, st, lines);
    config := st.config;
  }

  lemma RunFrom(d: Dialect, st: ParseState, lines: seq<string>, i: nat)
    requires i < |lines|
    ensures Run(d, st, lines[i..]) == Run(d, StepLine(d, st, lines[i]), lines[i + 1..])
  {
    assert lines[i..][1..] == lines[i + 1..];
  }

  lemma RunAtEnd(d: Dialect, st: ParseState, lines: seq<string>)
    ensures Run(d, st, lines[|lines|..]) == st
  {
    assert lines[|lines|..] == [];
  }

  /** An account as a parse can produce it in dialect `d`. */
  predicate WellFormed(d: Dialect, e: AccountEntry) {
    e.email != [] && e.password != [] && ',' !in e.email
    && (d.WatchdogDialect? ==> ',' !in e.password && e.kpi.Some?)
    && (d.MultiDialect? ==> e.kpi.None?)
  }

  /** Every account in `accs` has the shape dialect `d` gives. */
  predicate AllWellFormed(d: Dialect, accs: seq<AccountEntry>) {
    forall k :: 0 <= k < |accs| ==> WellFormed(d, accs[k])
  }

  /** Every account a parse collects has a non-empty email and password, and the shape its dialect gives. */
  lemma {:induction false} RunKeepsAccountsWellFormed(d: Dialect, st: ParseState, lines: seq<string>)
    requires AllWellFormed(d, st.config.accounts)
    ensures AllWellFormed(d, Run(d, st, lines).config.accounts)
    decreases |lines|
  {
    if lines != [] {
      var next := StepLine(d, st, lines[0]);
      StepKeepsWellFormed(d, st, lines[0]);
      RunKeepsAccountsWellFormed(d, next, lines[1..]);
    }
  }

  lemma StepKeepsWellFormed(d: Dialect, st: ParseState, raw: string)
    requires AllWellFormed(d, st.config.accounts)
    ensures AllWellFormed(d, StepLine(d, st, raw).config.accounts)
  {
    var acc := StepLine(d, st, raw).config.accounts;
    if acc != st.config.accounts {
      var e := ParseAccountLine(d, Strip(raw)).value;
      assert WellFormed(d, e);
      AppendWellFormed(d, st.config.accounts, e);
    }
  }

  lemma AppendWellFormed(d: Dialect, accs: seq<AccountEntry>, e: AccountEntry)
    requires AllWellFormed(d, accs) && WellFormed(d, e)
    ensures AllWellFormed(d, accs + [e])
  {
    var all := accs + [e];
    forall k | 0 <= k < |all|
      ensures WellFormed(d, all[k])
    {
      if k < |accs| {
        assert all[k] == accs[k];
      }
    }
  }

  /** Accounts only ever grow at the end: earlier ones are kept in order. */
  lemma {:induction false} RunOnlyAppends(d: Dialect, st: ParseState, lines: seq<string>)
    ensures StartsWithSeq(Run(d, st, lines).config.accounts, st.config.accounts)
    decreases |lines|
  {
    if lines != [] {
      var next := StepLine(d, st, lines[0]);
      StepOnlyAppends(d, st, lines[0]);
      RunOnlyAppends(d, next, lines[1..]);
      PrefixOfPrefix(Run(d, next, lines[1..]).config.accounts, next.config.accounts, st.config.accounts);
    }
  }

  lemma StepOnlyAppends(d: Dialect, st: ParseState, raw: string)
    ensures StartsWithSeq(StepLine(d, st, raw).config.accounts, st.config.accounts)
  {
    var acc := st.config.accounts;
    var next := StepLine(d, st, raw).config.accounts;
    if next != acc {
      assert next == acc + [ParseAccountLine(d, Strip(raw)).value];
      assert next[..|acc|] == acc;
    }
  }

  lemma PrefixOfPrefix(c: seq<AccountEntry>, b: seq<AccountEntry>, a: seq<AccountEntry>)
    requires StartsWithSeq(c, b) && StartsWithSeq(b, a)
    ensures StartsWithSeq(c, a)
  {
    assert c[..|a|] == c[..|b|][..|a|];
  }

  predicate StartsWithSeq(s: seq<AccountEntry>, p: seq<AccountEntry>) {
    |p| <= |s| && s[..|p|] == p
  }

  /** Without an ACCOUNTS: line no account line is ever read. */
  lemma {:induction false} NoSectionNoAccounts(d: Dialect, st: ParseState, lines: seq<string>)
    requires !st.inAccounts
    requires forall k :: 0 <= k < |lines| ==> !StartsWith(Strip(lines[k]), "ACCOUNTS:")
    ensures Run(d, st, lines).config.accounts == st.config.accounts
    decreases |lines|
  {
    if lines != [] {
      NoSectionNoAccounts(d, StepLine(d, st, lines[0]), lines[1..]);
    }
  }

  /** A string with no white space at either end. */
  predicate Trimmed(s: string) {
    s == [] || (!IsSpace(s[0]) && !IsSpace(s[|s| - 1]))
  }

  lemma StripTrimmed(s: string)
    requires Trimmed(s)
    ensures Strip(s) == s
  {
  }

  lemma {:induction false} IndexOfAfter(a: string, c: char, b: string)
    requires c !in a
    ensures IndexOf(a + [c] + b, c) == |a|
  {
    if a != [] {
      assert (a + [c] + b)[1..] == a[1..] + [c] + b;
      IndexOfAfter(a[1..], c, b);
    }
  }

  /** Splitting `a,b` where `a` holds no comma: the first field, then everything after the comma. */
  lemma SplitAtComma(a: string, b: string)
    requires ',' !in a
    ensures IndexOf(a + [','] + b, ',') == |a|
    ensures BeforeFirst(a + [','] + b, ',') == a && AfterFirst(a + [','] + b, ',') == b
    ensures SplitOn(a + [','] + b, ',') == [a] + SplitOn(b, ',')
  {
    var line := a + [','] + b;
    IndexOfAfter(a, ',', b);
    assert line[..|a|] == a && line[|a| + 1..] == b;
  }

  /** A field as it would be written in the file: non-empty, trimmed, without a comma. */
  predicate PlainField(s: string) {
    s != [] && Trimmed(s) && ',' !in s
  }

  /** The pair dialect splits on the first comma only, so the password keeps any later commas. */
  lemma MultiKeepsCommasInPassword(email: string, password: string)
    requires PlainField(email) && email[0] != '#'
    requires password != [] && Trimmed(password)
    ensures ParseAccountLine(MultiDialect, email + "," + password) == Some(AccountEntry(email, password, None))
  {
    var line := email + [','] + password;
    CommentFreeLine(email, password);
    SplitAtComma(email, password);
    StripTrimmed(email);
    StripTrimmed(password);
    assert MultiAccount(line) == Some(AccountEntry(email, password, None));
  }

  /** In the watchdog dialect `email,password` reads with the default KPI. */
  lemma WatchdogTwoFields(email: string, password: string)
    requires PlainField(email) && email[0] != '#' && PlainField(password)
    ensures ParseAccountLine(WatchdogDialect, email + "," + password) == Some(AccountEntry(email, password, Some(DefaultKpi)))
  {
    var line := email + [','] + password;
    CommentFreeLine(email, password);
    SplitAtComma(email, password);
    SplitWithoutSeparator(password, ',');
    var parts := SplitOn(line, ',');
    assert |parts| == 2 && parts[0] == email && parts[1] == password;
    StripTrimmed(email);
    StripTrimmed(password);
    var fields := StrippedFields(line);
    assert |fields| == 2 && fields[0] == email && fields[1] == password;
    WatchdogLine(line);
    SameEntry(fields[0], fields[1], KpiField(fields), email, password, DefaultKpi);
  }

  /** A string without the separator splits into itself alone. */
  lemma SplitWithoutSeparator(s: string, c: char)
    requires c !in s
    ensures SplitOn(s, c) == [s]
  {
    assert IndexOf(s, c) == |s|;
  }

  /** The pieces of `email,password,third`, one by one. */
  lemma ThreeParts(email: string, password: string, third: string)
    requires ',' !in email && ',' !in password && ',' !in third
    ensures var parts := SplitOn(email + [','] + (password + [','] + third), ',');
      |parts| == 3 && parts[0] == email && parts[1] == password && parts[2] == third
  {
    SplitAtComma(email, password + [','] + third);
    SplitAtComma(password, third);
    SplitWithoutSeparator(third, ',');
  }

  lemma ThreeFields(email: string, password: string, third: string)
    requires PlainField(email) && PlainField(password) && Trimmed(third) && ',' !in third
    ensures StrippedFields(email + [','] + (password + [','] + third)) == [email, password, third]
  {
    var line := email + [','] + (password + [','] + third);
    ThreeParts(email, password, third);
    var parts := SplitOn(line, ',');
    ThreeElements(parts, email, password, third);
    StrippedOfTrimmed(line);
  }

  /** Fields already trimmed are kept as they are. */
  lemma StrippedOfTrimmed(line: string)
    requires forall k :: 0 <= k < |SplitOn(line, ',')| ==> Trimmed(SplitOn(line, ',')[k])
    ensures StrippedFields(line) == SplitOn(line, ',')
  {
    var parts := SplitOn(line, ',');
    var r := StrippedFields(line);
    forall k | 0 <= k < |parts|
      ensures r[k] == parts[k]
    {
      StrippedAt(line, k);
      StripTrimmed(parts[k]);
    }
  }

  lemma StrippedAt(line: string, k: nat)
    requires k < |SplitOn(line, ',')|
    ensures StrippedFields(line)[k] == Strip(SplitOn(line, ',')[k])
  {
  }

  lemma ThreeElements(r: seq<string>, a: string, b: string, c: string)
    requires |r| == 3 && r[0] == a && r[1] == b && r[2] == c
    ensures r == [a, b, c]
  {
  }

  /**
   * In the watchdog dialect `email,password,third` reads with the third field as
   * KPI when it is all digits and 100 otherwise; the pair dialect would keep
   * `password,third` as the password.
   */
  lemma WatchdogThirdField(email: string, password: string, third: string)
    requires PlainField(email) && email[0] != '#' && PlainField(password) && Trimmed(third) && ',' !in third
    ensures ParseAccountLine(WatchdogDialect, email + "," + password + "," + third)
      == Some(AccountEntry(email, password, Some(if IsDigits(third) then DigitsValue(third) else DefaultKpi)))
  {
    var line := email + [','] + (password + [','] + third);
    CommaJoin(email, password, third);
    ThreeFields(email, password, third);
    var fields := StrippedFields(line);
    assert |fields| == 3 && fields[0] == email && fields[1] == password && fields[2] == third;
    var kpi := if IsDigits(third) then DigitsValue(third) else DefaultKpi;
    assert KpiField(fields) == kpi;
    CommentFreeLine(email, password + [','] + third);
    WatchdogLine(line);
    SameEntry(fields[0], fields[1], KpiField(fields), email, password, kpi);
  }

  lemma CommentFreeLine(email: string, rest: string)
    requires email != [] && email[0] != '#'
    ensures ',' in email + [','] + rest && !StartsWith(email + [','] + rest, "#")
  {
    var line := email + [','] + rest;
    assert line[|email|] == ',' && line[..1] == [email[0]];
  }

  /** The account the watchdog dialect reads from a comment-free line with a non-empty email and password field. */
  lemma WatchdogLine(line: string)
    requires ',' in line && !StartsWith(line, "#")
    requires |StrippedFields(line)| >= 2 && StrippedFields(line)[0] != [] && StrippedFields(line)[1] != []
    ensures var fields := StrippedFields(line);
      ParseAccountLine(WatchdogDialect, line) == Some(AccountEntry(fields[0], fields[1], Some(KpiField(fields))))
  {
  }

  lemma SameEntry(e: string, p: string, k: nat, e': string, p': string, k': nat)
    requires e == e' && p == p' && k == k'
    ensures Some(AccountEntry(e, p, Some(k))) == Some(AccountEntry(e', p', Some(k')))
  {
  }

  lemma CommaJoin(a: string, b: string, c: string)
    ensures a + "," + b + "," + c == a + [','] + (b + [','] + c)
  {
  }
}

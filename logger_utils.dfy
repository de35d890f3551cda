/**
 * The pure helpers of the console logger (`ColoredLogger`): ANSI colouring and
 * its removal, the short account tag and the shortened task id, plus the
 * round-robin colour each account is given on first sight.  Printing, the
 * clock and the log file are not modelled.
 */
module Logging {
  import opened TextUtil
  import Accounts

  const Esc: char := '\U{1B}'

  /** `ESC [ <code> m`. */
  function Sgr(code: string): string {
    [Esc, '['] + code + ['m']
  }

  /** `COLORS`: colour name to escape sequence. */
  const Colors: map<string, string> := map[
    "RESET" := Sgr("0"),
    "RED" := Sgr("91"),
    "GREEN" := Sgr("92"),
    "YELLOW" := Sgr("93"),
    "BLUE" := Sgr("94"),
    "MAGENTA" := Sgr("95"),
    "CYAN" := Sgr("96"),
    "WHITE" := Sgr("97"),
    "GRAY" := Sgr("90")
  ]

  /** `ACCOUNT_COLORS`: the order in which accounts are given colours. */
  const AccountColors: seq<string> := ["CYAN", "MAGENTA", "YELLOW", "BLUE", "GREEN"]

  /** `_colorize`: the colour's code (none for an unknown colour), the text, then the reset code. */
  function Colorize(text: string, color: string): (r: string)
    ensures color !in Colors ==> r == text + Colors["RESET"]
    ensures color in Colors ==> r == Colors[color] + text + Colors["RESET"]
  {
    (if color in Colors then Colors[color] else "") + text + Colors["RESET"]
  }

  /** A character `[0-9;]` may match. */
  predicate IsParam(c: char) {
    ('0' <= c <= '9') || c == ';'
  }

  /** Length of the longest prefix of `s` made of `[0-9;]`. */
  function ParamRun(s: string): (n: nat)
    ensures n <= |s|
    ensures forall k :: 0 <= k < n ==> IsParam(s[k])
    ensures n < |s| ==> !IsParam(s[n])
  {
    if |s| > 0 && IsParam(s[0]) then 1 + ParamRun(s[1..]) else 0
  }

  /** Length of the match of `\x1b\[[0-9;]*m` at the start of `s`, if there is one. */
  function AnsiMatch(s: string): (r: nat)
    ensures r == 0 || (3 <= r <= |s| && s[0] == Esc && s[1] == '[' && s[r - 1] == 'm')
  {
    if |s| >= 2 && s[0] == Esc && s[1] == '[' then
      var n := ParamRun(s[2..]);
      if 2 + n < |s| && s[2 + n] == 'm' then 3 + n else 0
    else 0
  }

  /** `_strip_ansi`: deletes every match of the pattern, scanning left to right. */
  function StripAnsi(s: string): (r: string)
    ensures |r| <= |s|
    decreases |s|
  {
    if s == [] then []
    else if AnsiMatch(s) > 0 then StripAnsi(s[AnsiMatch(s)..])
    else [s[0]] + StripAnsi(s[1..])
  }

  /** Text without the escape character is left as it is. */
  lemma {:induction false} StripAnsiKeepsPlainText(s: string)
    requires Esc !in s
    ensures StripAnsi(s) == s
  {
    if s != [] {
      assert s[1..] + [] == s[1..];
      StripAnsiKeepsPlainText(s[1..]);
    }
  }

  /** No match starts at any position of `s`. */
  predicate MatchFree(s: string) {
    forall i :: 0 <= i < |s| ==> AnsiMatch(s[i..]) == 0
  }

  /**
   * Stripping leaves text unchanged exactly when the pattern matches nowhere
   * in it; any match shortens the text.
   */
  lemma {:induction false} StripAnsiUnchangedIffMatchFree(s: string)
    ensures StripAnsi(s) == s <==> MatchFree(s)
    ensures !MatchFree(s) ==> |StripAnsi(s)| < |s|
    decreases |s|
  {
    if s != [] {
      var tail := s[1..];
      assert forall i :: 1 <= i < |s| ==> tail[i - 1..] == s[i..];
      StripAnsiUnchangedIffMatchFree(tail);
      if AnsiMatch(s) > 0 {
        assert !MatchFree(s) by { assert s[0..] == s; }
        assert |StripAnsi(s[AnsiMatch(s)..])| <= |s| - AnsiMatch(s);
      } else {
        assert s == [s[0]] + tail;
        assert MatchFree(s) <==> MatchFree(tail) by {
          assert s[0..] == s;
        }
      }
    }
  }

  lemma {:induction false} ParamRunStopsAt(p: string, x: string)
    requires forall k :: 0 <= k < |p| ==> IsParam(p[k])
    ensures ParamRun(p + ['m'] + x) == |p|
  {
    if p != [] {
      assert (p + ['m'] + x)[1..] == p[1..] + ['m'] + x;
      ParamRunStopsAt(p[1..], x);
    }
  }

  /** A colour code in front of any text is one whole match. */
  lemma CodeIsOneMatch(code: string, x: string)
    requires forall k :: 0 <= k < |code| ==> IsParam(code[k])
    ensures AnsiMatch(Sgr(code) + x) == |Sgr(code)|
    ensures (Sgr(code) + x)[|Sgr(code)|..] == x
  {
    assert (Sgr(code) + x)[2..] == code + ['m'] + x;
    ParamRunStopsAt(code, x);
  }

  /** Appending the reset code does not change what stripping leaves. */
  lemma {:induction false} StripAnsiIgnoresReset(t: string)
    ensures StripAnsi(t + Sgr("0")) == StripAnsi(t)
    decreases |t|
  {
    var s := t + Sgr("0");
    if t == [] {
      CodeIsOneMatch("0", []);
      assert s == Sgr("0") + [];
    } else if AnsiMatch(t) > 0 {
      var n := AnsiMatch(t);
      ResetAfterMatch(t);
      StripAnsiIgnoresReset(t[n..]);
    } else {
      ResetAfterPlain(t);
      StripAnsiIgnoresReset(t[1..]);
    }
  }

  /** A code at the start of `t` is matched the same way with the reset code appended. */
  lemma ResetAfterMatch(t: string)
    requires AnsiMatch(t) > 0
    ensures AnsiMatch(t + Sgr("0")) == AnsiMatch(t)
    ensures (t + Sgr("0"))[AnsiMatch(t)..] == t[AnsiMatch(t)..] + Sgr("0")
  {
    var s := t + Sgr("0");
    assert s[2..] == t[2..] + Sgr("0");
    RunExtends(t[2..], Sgr("0"));
  }

  /** Without a code at the start of non-empty `t`, appending the reset code does not create one. */
  lemma ResetAfterPlain(t: string)
    requires t != [] && AnsiMatch(t) == 0
    ensures AnsiMatch(t + Sgr("0")) == 0
    ensures (t + Sgr("0"))[0] == t[0] && (t + Sgr("0"))[1..] == t[1..] + Sgr("0")
  {
    var s := t + Sgr("0");
    if |t| >= 2 && t[0] == Esc && t[1] == '[' {
      assert s[2..] == t[2..] + Sgr("0");
      RunExtends(t[2..], Sgr("0"));
      var n := ParamRun(t[2..]);
      assert 2 + n < |t| ==> s[2 + n] == t[2 + n];
      assert 2 + n == |t| ==> s[2 + n] == Esc;
    }
  }

  /** A run of parameters that ends before the reset code is not lengthened by it. */
  lemma {:induction false} RunExtends(u: string, reset: string)
    requires reset == Sgr("0")
    ensures ParamRun(u + reset) == ParamRun(u)
  {
    if u == [] {
      assert (u + reset)[0] == Esc;
    } else {
      assert (u + reset)[1..] == u[1..] + reset;
      RunExtends(u[1..], reset);
    }
  }

  lemma ResetIsCode()
    ensures Colors["RESET"] == Sgr("0")
  {
  }

  /** Every colour in the table is one escape sequence around a run of parameters. */
  lemma ColorIsCode(color: string) returns (code: string)
    requires color in Colors
    ensures Colors[color] == Sgr(code) && forall k :: 0 <= k < |code| ==> IsParam(code[k])
  {
    code := Colors[color][2..|Colors[color]| - 1];
  }

  /**
   * Colouring is undone by stripping: `_strip_ansi(_colorize(t, c))` is
   * `_strip_ansi(t)`, hence `t` for text the pattern matches nowhere in (in
   * particular for text without the escape character).
   */
  lemma StripUndoesColorize(t: string, color: string)
    ensures StripAnsi(Colorize(t, color)) == StripAnsi(t)
    ensures MatchFree(t) ==> StripAnsi(Colorize(t, color)) == t
    ensures Esc !in t ==> StripAnsi(Colorize(t, color)) == t
  {
    ResetIsCode();
    var x := t + Sgr("0");
    if color in Colors {
      var code := ColorIsCode(color);
      CodeIsOneMatch(code, x);
      assert Colorize(t, color) == Sgr(code) + x;
    } else {
      assert Colorize(t, color) == x;
    }
    StripAnsiIgnoresReset(t);
    StripAnsiUnchangedIffMatchFree(t);
    if Esc !in t {
      StripAnsiKeepsPlainText(t);
    }
  }

  /** `_get_short_email`: the local part, cut to 8 characters, upper-cased. */
  function ShortEmail(email: string): (r: string)
    ensures |r| == if IndexOf(email, '@') <= 8 then IndexOf(email, '@') else 8
    ensures forall k :: 0 <= k < |r| ==> r[k] == UpperChar(email[k])
    ensures '@' !in r
  {
    Upper(Take(BeforeFirst(email, '@'), 8))
  }

  /** The id shown by `log_task`: its last 30 characters when longer. */
  function ShortTaskId(taskId: string): (r: string)
    ensures |r| <= 30
    ensures |taskId| <= 30 ==> r == taskId
    ensures |taskId| > 30 ==> |r| == 30 && taskId == taskId[..|taskId| - 30] + r
  {
    if |taskId| > 30 then taskId[|taskId| - 30..] else taskId
  }

  /** A line of `log_incomplete_status`, before formatting. */
  datatype StatusLine =
    | Header(count: nat)
    | AccountLine(shortEmail: string, color: string, completedTasks: int, maxTasks: int,
                  remainingTasks: int, restartCount: int)

  /** The class-level colour table of `ColoredLogger`. */
  class ColorRegistry {
    /** Emails in the order they were first given a colour. */
    var seen: seq<string>
    var colorMap: map<string, string>
    var colorIndex: nat

    /** The n-th email seen holds colour n mod 5, and the index counts the emails seen. */
    ghost predicate Valid()
      reads this
    {
      Distinct(seen) && colorIndex == |seen|
      && (forall e :: e in colorMap <==> e in seen)
      && (forall k :: 0 <= k < |seen| ==> colorMap[seen[k]] == AccountColors[k % |AccountColors|])
    }

    constructor ()
      ensures Valid() && seen == [] && colorMap == map[]
    {
      seen := [];
      colorMap := map[];
      colorIndex := 0;
    }

    /** `_get_account_color`: a known email keeps its colour; a new one takes the next in turn. */
    method AccountColor(email: string) returns (color: string)
      requires Valid()
      modifies this
      ensures Valid()
      ensures email in old(colorMap) ==> color == old(colorMap)[email] && seen == old(seen) && colorMap == old(colorMap)
      ensures email !in old(colorMap) ==>
        color == AccountColors[old(colorIndex) % |AccountColors|] && seen == old(seen) + [email]
      ensures color in AccountColors && email in colorMap && colorMap[email] == color
      ensures forall e :: e in old(colorMap) ==> e in colorMap && colorMap[e] == old(colorMap)[e]
    {
      if email !in colorMap {
        colorMap := colorMap[email := AccountColors[colorIndex % |AccountColors|]];
        seen := seen + [email];
        colorIndex := colorIndex + 1;
      }
      color := colorMap[email];
      HeldColorInTable(email);
    }

    /** Every colour the registry holds is one of `ACCOUNT_COLORS`. */
    lemma HeldColorInTable(email: string)
      requires Valid() && email in colorMap
      ensures colorMap[email] in AccountColors
    {
      var k :| 0 <= k < |seen| && seen[k] == email;
      assert colorMap[email] == AccountColors[k % |AccountColors|];
    }

    /** The line for one account, given its colour. */
    static function LineFor(acc: Accounts.IncompleteReport, color: string): StatusLine {
      AccountLine(ShortEmail(acc.email), color, acc.completedTasks, acc.maxTasks, acc.remainingTasks, acc.restartCount)
    }

    /**
     * `log_incomplete_status`: nothing at all for an empty list; otherwise a
     * header with the count and one line per account, in list order, each in
     * the colour its account holds.
     */
    method LogIncompleteStatus(incomplete: seq<Accounts.IncompleteReport>) returns (lines: seq<StatusLine>)
      requires Valid()
      modifies this
      ensures Valid()
      ensures incomplete == [] ==> lines == [] && seen == old(seen) && colorMap == old(colorMap)
      ensures incomplete != [] ==> |lines| == |incomplete| + 1 && lines[0] == Header(|incomplete|)
      ensures forall k :: 0 <= k < |incomplete| ==>
        incomplete[k].email in colorMap && lines[k + 1] == LineFor(incomplete[k], colorMap[incomplete[k].email])
    {
      if incomplete == [] {
        return [];
      }
      lines := [Header(|incomplete|)];
      for i := 0 to |incomplete|
        invariant Valid() && |lines| == i + 1 && lines[0] == Header(|incomplete|)
        invariant LinesMatch(lines, incomplete, i, colorMap)
      {
        ghost var before := colorMap;
        var color := AccountColor(incomplete[i].email);
        LinesExtend(lines, incomplete, i, before, colorMap, color);
        lines := lines + [LineFor(incomplete[i], color)];
      }
    }

    /** The first `n` accounts each have their line after the header, in the colour `m` holds for them. */
    static ghost predicate LinesMatch(lines: seq<StatusLine>, incomplete: seq<Accounts.IncompleteReport>, n: nat,
                                      m: map<string, string>)
    {
      n <= |incomplete| && n < |lines|
      && forall k :: 0 <= k < n ==> incomplete[k].email in m && lines[k + 1] == LineFor(incomplete[k], m[incomplete[k].email])
    }

    /** The lines stay matched when colours are only added, and the next account's line extends them. */
    static lemma LinesExtend(lines: seq<StatusLine>, incomplete: seq<Accounts.IncompleteReport>, i: nat,
                             m0: map<string, string>, m1: map<string, string>, color: string)
      requires LinesMatch(lines, incomplete, i, m0) && i < |incomplete| && |lines| == i + 1
      requires forall e :: e in m0 ==> e in m1 && m1[e] == m0[e]
      requires incomplete[i].email in m1 && m1[incomplete[i].email] == color
      ensures LinesMatch(lines + [LineFor(incomplete[i], color)], incomplete, i + 1, m1)
    {
    }
  }
}

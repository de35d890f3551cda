/**
 * The completed-task log (`TaskLogger`): the record built for each finished
 * task, the in-memory list of those records, and the Excel sheet name derived
 * from the account's email.  Writing the workbook is I/O and is not modelled.
 */
module TaskLog {
  import opened TextUtil

  /** Characters an Excel sheet name may not contain. */
  const InvalidSheetChars: seq<char> := ['\\', '/', '*', '?', ':', '[', ']']

  /** Excel's limit on the length of a sheet name. */
  const MaxSheetNameLength: nat := 31

  /** The project code stamped on every record. */
  const TaskCode: string := "SN02"

  /** Notes longer than this are cut. */
  const NotesLimit: nat := 200

  /** `s` with each character Excel forbids in a sheet name turned into `_`. */
  function Sanitized(s: string): (r: string)
    ensures |r| == |s|
    ensures forall k :: 0 <= k < |s| ==> r[k] == if s[k] in InvalidSheetChars then '_' else s[k]
  {
    seq(|s|, k requires 0 <= k < |s| => if s[k] in InvalidSheetChars then '_' else s[k])
  }

  /** The replace loop of `_get_sheet_name`: one `str.replace` per forbidden character. */
  method ReplaceInvalidChars(s: string) returns (r: string)
    ensures r == Sanitized(s)
  {
    r := s;
    for i := 0 to |InvalidSheetChars|
      invariant |r| == |s|
      invariant forall k :: 0 <= k < |s| ==> r[k] == if s[k] in InvalidSheetChars[..i] then '_' else s[k]
    {
      assert InvalidSheetChars[..i + 1] == InvalidSheetChars[..i] + [InvalidSheetChars[i]];
      r := ReplaceChar(r, InvalidSheetChars[i], '_');
    }
    assert InvalidSheetChars[..|InvalidSheetChars|] == InvalidSheetChars;
  }

  /**
   * The case-preserving part of the sheet name: the local part of the email
   * (before the first `@`), sanitised and cut to 31 characters.
   */
  function SheetBase(email: string): (r: string)
    ensures |r| == if IndexOf(email, '@') <= MaxSheetNameLength then IndexOf(email, '@') else MaxSheetNameLength
    ensures forall k :: 0 <= k < |r| ==> r[k] == if email[k] in InvalidSheetChars then '_' else email[k]
    ensures '@' !in r
    ensures forall k :: 0 <= k < |r| ==> r[k] !in InvalidSheetChars
  {
    Take(Sanitized(BeforeFirst(email, '@')), MaxSheetNameLength)
  }

  /** The sheet a task logger writes to: "Unknown" without a user, else the upper-cased sheet base. */
  function SheetNameOf(userName: string): (r: string)
    ensures userName == [] ==> r == "Unknown"
    ensures userName != [] ==> |r| <= MaxSheetNameLength && '@' !in r
    ensures userName != [] ==>
      |r| == |SheetBase(userName)| &&
      forall k :: 0 <= k < |r| ==> r[k] == UpperChar(if userName[k] in InvalidSheetChars then '_' else userName[k])
    ensures userName != [] ==> forall k :: 0 <= k < |r| ==> !('a' <= r[k] <= 'z')
  {
    if userName == [] then "Unknown" else Upper(SheetBase(userName))
  }

  /** Display names of the known accounts, keyed by lower-case email. */
  const AccountNames: map<string, string> := map[
    "g007@gdsonline.tech" := "Nguyễn Ngọc Hân",
    "g008@gdsonline.tech" := "Nguyễn Hữu Đại",
    "g009@gdsonline.tech" := "Đỗ Mạnh Tùng",
    "g010@gdsonline.tech" := "Nguyễn Xuân Công",
    "g011@gdsonline.tech" := "Phan Nguyễn Tuấn Minh",
    "g012@gdsonline.tech" := "",
    "g013@gdsonline.tech" := ""
  ]

  /** One row of the completed-task sheet; the day and timestamp strings come from the clock. */
  datatype TaskRecord = TaskRecord(
    account: string,
    email: string,
    code: string,
    day: string,
    uid: string,
    taskId: string,
    decision: string,
    status: string,
    notes: string,
    completedAt: string)

  /** The record `log_task` builds. */
  function MakeRecord(userName: string, taskId: string, uid: string, decision: string,
                      status: string, notes: string, day: string, completedAt: string): (r: TaskRecord)
    ensures r.code == TaskCode && r.email == userName && r.taskId == taskId && r.uid == uid
    ensures Lower(userName) in AccountNames ==> r.account == AccountNames[Lower(userName)]
    ensures Lower(userName) !in AccountNames ==> r.account == ""
    ensures |r.notes| <= NotesLimit && StartsWith(notes, r.notes)
    ensures |notes| <= NotesLimit ==> r.notes == notes
    ensures r.decision == Title(decision) && r.status == Title(status)
  {
    TaskRecord(
      if Lower(userName) in AccountNames then AccountNames[Lower(userName)] else "",
      userName, TaskCode, day, uid, taskId,
      Title(decision), Title(status), Take(notes, NotesLimit), completedAt)
  }

  class TaskLogger {
    const userName: string
    var completedTasks: seq<TaskRecord>

    constructor (userName: string)
      ensures this.userName == userName && completedTasks == []
    {
      this.userName := userName;
      completedTasks := [];
    }

    /** `_get_sheet_name`. */
    method SheetName() returns (r: string)
      ensures r == SheetNameOf(userName)
    {
      if userName == [] {
        return "Unknown";
      }
      var base := BeforeFirst(userName, '@');
      base := ReplaceInvalidChars(base);
      r := Upper(Take(base, MaxSheetNameLength));
    }

    /** The in-memory part of `log_task`: exactly one record is appended. */
    method LogTask(taskId: string, uid: string, decision: string, status: string, notes: string,
                   day: string, completedAt: string)
      modifies this
      ensures completedTasks == old(completedTasks) + [MakeRecord(userName, taskId, uid, decision, status, notes, day, completedAt)]
      ensures CompletedCount() == old(CompletedCount()) + 1
    {
      completedTasks := completedTasks + [MakeRecord(userName, taskId, uid, decision, status, notes, day, completedAt)];
    }

    /** `get_completed_count`. */
    function CompletedCount(): (r: nat)
      reads this
      ensures r == |completedTasks|
    {
      |completedTasks|
    }
  }

  /** Names are looked up case-insensitively, and an unmapped email gets no display name. */
  lemma AccountLookupExamples()
    ensures MakeRecord("G007@GDSONLINE.TECH", "t", "u", "accept", "done", "", "01/01", "x").account == "Nguyễn Ngọc Hân"
    ensures MakeRecord("someone@else.org", "t", "u", "accept", "done", "", "01/01", "x").account == ""
  {
    assert Lower("G007@GDSONLINE.TECH") == "g007@gdsonline.tech";
    FirstMappedName();
    assert Lower("someone@else.org") == "someone@else.org";
    MappedEmailsStartWithG();
    assert "someone@else.org"[0] == 's';
  }

  lemma FirstMappedName()
    ensures "g007@gdsonline.tech" in AccountNames && AccountNames["g007@gdsonline.tech"] == "Nguyễn Ngọc Hân"
  {
    assert "g007@gdsonline.tech"[3] == '7';
    assert forall e :: e in AccountNames && e != "g007@gdsonline.tech" ==> e[3] != '7';
  }

  lemma MappedEmailsStartWithG()
    ensures forall e :: e in AccountNames ==> |e| > 0 && e[0] == 'g'
  {
  }

  /** The forbidden characters become `_` and the name is upper-cased and cut at the first `@`. */
  lemma SheetNameExample()
    ensures SheetNameOf("a/b@x.com") == "A_B"
  {
    assert IndexOf("a/b@x.com", '@') == 3;
  }
}

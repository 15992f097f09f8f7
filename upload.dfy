/** The add-employee screen: the single-record form check and the bulk upload
    of spreadsheet rows, with its per-row classification and counters. */
module Upload {
  import opened Optional
  import opened Lists
  import opened Text

  // ----------------------------------------------------------- messages

  datatype MessageKind = Success | Error | Warning

  datatype Message = Message(kind: MessageKind, text: string)

  /** The columns and form fields that must be filled in, in the order the
      messages list them. */
  const RequiredFields: seq<string> := ["empid", "empname", "department", "site", "classification"]

  // --------------------------------------------------------------- form

  /** The form's fields, all text. */
  datatype EmployeeForm = EmployeeForm(
    empid: string,
    empname: string,
    department: string,
    site: string,
    classification: string,
    division: string,
    directorate: string,
    grouping: string)

  /** `formData[field]` for a required field name. */
  function FormField(f: EmployeeForm, name: string): string {
    match name
    case "empid" => f.empid
    case "empname" => f.empname
    case "department" => f.department
    case "site" => f.site
    case "classification" => f.classification
    case _ => ""
  }

  /** `!formData[field].trim()`: the field is all whitespace, which is when
      its trimmed text is empty. */
  predicate FieldBlank(f: EmployeeForm, name: string) {
    IsBlank(FormField(f, name))
  }

  /** The blank test is the trim test of the form. */
  lemma FieldBlankIsTrimTest(f: EmployeeForm, name: string)
    ensures FieldBlank(f, name) <==> Trim(FormField(f, name)) == ""
  {
    TrimEmptyIffBlank(FormField(f, name));
  }

  /** `field => !formData[field].trim()`, the filter's test. */
  function BlankIn(f: EmployeeForm): string -> bool {
    (name: string) => FieldBlank(f, name)
  }

  /** The required fields left blank, in the listed order. */
  function BlankFields(f: EmployeeForm): seq<string> {
    Filter(RequiredFields, BlankIn(f))
  }

  /** `validateForm`: no message when every required field has a non-blank
      value, otherwise the error listing the blank ones. */
  function ValidateForm(f: EmployeeForm): (m: Option<Message>)
    ensures m.Some? ==> m.value.kind == Error
  {
    var blank := BlankFields(f);
    if |blank| > 0 then
      Some(Message(Error, "Please fill in all required fields: " + Join(blank, ", ")))
    else None
  }

  /** The blank fields, the five checks written out in the listed order. */
  lemma BlankFieldsWrittenOut(f: EmployeeForm)
    ensures BlankFields(f)
      == (if IsBlank(f.empid) then ["empid"] else [])
         + ((if IsBlank(f.empname) then ["empname"] else [])
         + ((if IsBlank(f.department) then ["department"] else [])
         + ((if IsBlank(f.site) then ["site"] else [])
         + (if IsBlank(f.classification) then ["classification"] else []))))
  {
    FilterFive("empid", "empname", "department", "site", "classification", BlankIn(f));
  }

  /** The form passes exactly when none of the five required fields is blank
      after trimming; otherwise the message is an error. */
  lemma ValidateFormIff(f: EmployeeForm)
    ensures ValidateForm(f) == None <==>
      !IsBlank(f.empid) && !IsBlank(f.empname) && !IsBlank(f.department)
      && !IsBlank(f.site) && !IsBlank(f.classification)
  {
    BlankFieldsWrittenOut(f);
  }

  // -------------------------------------------------------------- sheet

  /** A spreadsheet cell as `sheet_to_json` reads it: text or a number. */
  datatype Cell = Str(s: string) | Num(n: int)

  /** A row: the column headers with a value in that row. */
  type SheetRow = map<string, Cell>

  /** `value.toString()`. */
  function CellText(c: Cell): string {
    match c
    case Str(s) => s
    case Num(n) => IntToString(n)
  }

  /** JavaScript truthiness of a cell: the empty text and zero are false. */
  predicate Truthy(c: Cell) {
    match c
    case Str(s) => s != ""
    case Num(n) => n != 0
  }

  /** The required columns the first row has no key for. */
  function MissingColumns(first: SheetRow): seq<string> {
    Filter(RequiredFields, (col: string) => col !in first)
  }

  /** A required field of a row counts as missing when absent, falsy or
      blank: all whitespace, which is when its trimmed text is empty. */
  predicate FieldMissing(row: SheetRow, field: string) {
    field !in row || !Truthy(row[field]) || IsBlank(CellText(row[field]))
  }

  /** `!row[field] || !row[field].toString().trim()`, as the check reads. */
  lemma FieldMissingIsTrimTest(row: SheetRow, field: string)
    ensures FieldMissing(row, field) <==>
      field !in row || !Truthy(row[field]) || Trim(CellText(row[field])) == ""
  {
    if field in row {
      TrimEmptyIffBlank(CellText(row[field]));
    }
  }

  /** `field => FieldMissing(row, field)`, the filter's test. */
  function MissingIn(row: SheetRow): string -> bool {
    (field: string) => FieldMissing(row, field)
  }

  /** The required fields a row is missing, in the listed order. */
  function RowMissing(row: SheetRow): seq<string> {
    Filter(RequiredFields, MissingIn(row))
  }

  /** The same list, the five checks written out one after another. */
  lemma RowMissingWrittenOut(row: SheetRow)
    ensures RowMissing(row)
      == (if FieldMissing(row, "empid") then ["empid"] else [])
         + ((if FieldMissing(row, "empname") then ["empname"] else [])
         + ((if FieldMissing(row, "department") then ["department"] else [])
         + ((if FieldMissing(row, "site") then ["site"] else [])
         + (if FieldMissing(row, "classification") then ["classification"] else []))))
  {
    FilterFive("empid", "empname", "department", "site", "classification", MissingIn(row));
  }

  /** An optional column: its text when truthy, otherwise "". */
  function OptionalText(row: SheetRow, field: string): string {
    if field in row && Truthy(row[field]) then CellText(row[field]) else ""
  }

  /** Every required column has a key in the row. */
  predicate HasRequired(row: SheetRow) {
    "empid" in row && "empname" in row && "department" in row && "site" in row && "classification" in row
  }

  /** The record sent for a complete row. */
  function FormOf(row: SheetRow): EmployeeForm
    requires HasRequired(row)
  {
    EmployeeForm(
      CellText(row["empid"]), CellText(row["empname"]), CellText(row["department"]),
      CellText(row["site"]), CellText(row["classification"]),
      OptionalText(row, "division"), OptionalText(row, "directorate"), OptionalText(row, "grouping"))
  }

  /** A row that misses nothing has every required key. */
  lemma CompleteRowHasKeys(row: SheetRow)
    requires |RowMissing(row)| == 0
    ensures HasRequired(row)
    ensures !FieldMissing(row, "empid") && !FieldMissing(row, "empname") && !FieldMissing(row, "department")
            && !FieldMissing(row, "site") && !FieldMissing(row, "classification")
  {
    RowMissingWrittenOut(row);
  }

  // ------------------------------------------------------------ per row

  /** What the insert of one row answered. */
  datatype InsertOutcome = Inserted | DatabaseError(message: string) | Threw(message: string)

  /** A row the loop could not add: its 1-based number and why. */
  datatype RowError =
    | Missing(row: nat, fields: seq<string>)
    | DatabaseFailure(row: nat, message: string)
    | Unexpected(row: nat, message: string)

  /** The loop's variables: the four counters, the rows that failed (one
      entry per `errorDetails` line), the set of known ids, and the records
      the database accepted. */
  datatype Tally = Tally(
    processed: nat, added: nat, skipped: nat, errors: nat,
    errorDetails: seq<RowError>, known: set<string>, inserted: seq<EmployeeForm>)

  function Start(existing: set<string>): Tally {
    Tally(0, 0, 0, 0, [], existing, [])
  }

  /** The line pushed onto `errorDetails` for a failed row. */
  function DetailLine(e: RowError): string {
    RowPrefix(e.row) +
      match e
      case Missing(_, fields) => "Missing " + Join(fields, ", ")
      case DatabaseFailure(_, message) => "Database error - " + message
      case Unexpected(_, message) => "Unexpected error - " + message
  }

  /** `Row <n>: `, the head of every error line. */
  function RowPrefix(n: nat): string {
    "Row " + NatToString(n) + ": "
  }

  /** Every line starts with the head naming its row. */
  lemma DetailLineStartsWithRow(e: RowError)
    ensures |RowPrefix(e.row)| <= |DetailLine(e)|
    ensures DetailLine(e)[..|RowPrefix(e.row)|] == RowPrefix(e.row)
  {
  }

  /** Where the digits and the ':' sit in a line. */
  lemma PrefixLayout(digits: string, rest: string)
    ensures |"Row " + digits + ": " + rest| == |digits| + 6 + |rest|
    ensures forall k :: 0 <= k < |digits| ==> ("Row " + digits + ": " + rest)[4 + k] == digits[k]
    ensures ("Row " + digits + ": " + rest)[4 + |digits|] == ':'
  {
  }

  /** The head of a line determines its row: the digits end at the first ':'. */
  lemma RowPrefixDetermined(m: nat, n: nat, x: string, y: string)
    requires RowPrefix(m) + x == RowPrefix(n) + y
    ensures m == n
  {
    var dm, dn := NatToString(m), NatToString(n);
    var l, r := RowPrefix(m) + x, RowPrefix(n) + y;
    PrefixLayout(dm, x);
    PrefixLayout(dn, y);
    if |dm| < |dn| {
      assert false;
    } else if |dn| < |dm| {
      assert false;
    }
    assert dm == l[4..4 + |dm|] == r[4..4 + |dn|] == dn;
    NatToStringInjective(m, n);
  }

  /** Failures of different rows give different lines. */
  lemma DetailLineNamesRow(e: RowError, f: RowError)
    requires DetailLine(e) == DetailLine(f)
    ensures e.row == f.row
  {
    var x := DetailLine(e)[|RowPrefix(e.row)|..];
    var y := DetailLine(f)[|RowPrefix(f.row)|..];
    DetailLineStartsWithRow(e);
    DetailLineStartsWithRow(f);
    assert DetailLine(e) == RowPrefix(e.row) + x;
    assert DetailLine(f) == RowPrefix(f.row) + y;
    RowPrefixDetermined(e.row, f.row, x, y);
  }

  /** The error lines of a list of failures, in order. */
  function DetailLines(es: seq<RowError>): (lines: seq<string>)
    ensures |lines| == |es|
    ensures forall i :: 0 <= i < |es| ==> lines[i] == DetailLine(es[i])
  {
    if |es| == 0 then [] else DetailLines(es[..|es| - 1]) + [DetailLine(es[|es| - 1])]
  }

  /** What the loop body makes of a row before any insert: the required
      fields it misses, or the record it would send. */
  datatype RowCheck = Incomplete(missing: seq<string>) | Complete(record: EmployeeForm)

  /** The missing-field check of one row and, when it passes, the record
      built from it. */
  function Check(row: SheetRow): RowCheck {
    var missing := RowMissing(row);
    if |missing| > 0 then Incomplete(missing)
    else
      CompleteRowHasKeys(row);
      Complete(FormOf(row))
  }

  /** A row missing a field is checked as incomplete, with that list. */
  lemma CheckIncomplete(row: SheetRow)
    requires |RowMissing(row)| > 0
    ensures Check(row) == Incomplete(RowMissing(row))
  {
  }

  /** A row missing nothing is checked as complete, with its record. */
  lemma CheckComplete(row: SheetRow)
    requires |RowMissing(row)| == 0
    ensures HasRequired(row) && Check(row) == Complete(FormOf(row))
  {
    CompleteRowHasKeys(row);
  }

  /** An incomplete row names at least one field, and only required ones. */
  lemma CheckNamesRequired(row: SheetRow)
    ensures Check(row).Incomplete? ==>
      |Check(row).missing| > 0 && forall f :: f in Check(row).missing ==> f in RequiredFields
  {
    FilterFacts(RequiredFields, MissingIn(row));
  }

  /** A row the bulk check lets through would also pass the form's check:
      the two agree on which fields are required and what counts as blank. */
  lemma CompleteRowPassesForm(row: SheetRow)
    requires Check(row).Complete?
    ensures ValidateForm(Check(row).record) == None
  {
    CompleteRowHasKeys(row);
    ValidateFormIff(FormOf(row));
  }

  /** One pass of the loop body, for a checked row whose insert (if one is
      sent) answers `outcome`. */
  function Step(t: Tally, c: RowCheck, outcome: InsertOutcome): Tally {
    var n := t.processed + 1;
    match c
    case Incomplete(missing) =>
      t.(processed := n, errors := t.errors + 1, errorDetails := t.errorDetails + [Missing(n, missing)])
    case Complete(r) =>
      if r.empid in t.known then
        t.(processed := n, skipped := t.skipped + 1)
      else
        match outcome
        case Inserted =>
          t.(processed := n, added := t.added + 1, known := t.known + {r.empid}, inserted := t.inserted + [r])
        case DatabaseError(msg) =>
          t.(processed := n, errors := t.errors + 1, errorDetails := t.errorDetails + [DatabaseFailure(n, msg)])
        case Threw(msg) =>
          t.(processed := n, errors := t.errors + 1, errorDetails := t.errorDetails + [Unexpected(n, msg)])
  }

  /** The check of every row, in sheet order. */
  function Checks(rows: seq<SheetRow>): seq<RowCheck> {
    seq(|rows|, i requires 0 <= i < |rows| => Check(rows[i]))
  }

  /** The loop over the checked rows, the `i`-th insert answering `outcomes[i]`. */
  function Run(checks: seq<RowCheck>, outcomes: seq<InsertOutcome>, existing: set<string>): Tally
    requires |outcomes| == |checks|
  {
    if |checks| == 0 then Start(existing)
    else
      var n := |checks| - 1;
      Step(Run(checks[..n], outcomes[..n], existing), checks[n], outcomes[n])
  }

  /** Each row is counted once, as exactly one of an error, a skip or an
      addition; an incomplete row is an error with its "Missing" entry and no
      insert; a known id is skipped and nothing else changes; only a
      successful insert adds the id. */
  lemma StepClassifies(t: Tally, c: RowCheck, outcome: InsertOutcome)
    ensures var u := Step(t, c, outcome);
      && u.processed == t.processed + 1
      && (u.errors - t.errors) + (u.skipped - t.skipped) + (u.added - t.added) == 1
      && u.errors >= t.errors && u.skipped >= t.skipped && u.added >= t.added
    ensures c.Incomplete? ==>
      var u := Step(t, c, outcome);
      && u.errors == t.errors + 1 && u.inserted == t.inserted && u.known == t.known
      && u.errorDetails == t.errorDetails + [Missing(t.processed + 1, c.missing)]
    ensures c.Complete? && c.record.empid in t.known ==>
      Step(t, c, outcome) == t.(processed := t.processed + 1, skipped := t.skipped + 1)
    ensures Step(t, c, outcome).known != t.known ==>
      outcome == Inserted && c.Complete? && Step(t, c, outcome).known == t.known + {c.record.empid}
  {
  }

  /** The ids of a list of records. */
  function Ids(records: seq<EmployeeForm>): set<string> {
    set r | r in records :: r.empid
  }

  /** The counters add up and there is one failure entry per error and one
      record per addition. */
  ghost predicate Counted(t: Tally) {
    && t.processed == t.added + t.skipped + t.errors
    && |t.errorDetails| == t.errors
    && |t.inserted| == t.added
  }

  /** The known ids are the existing ones and the inserted ones; no id was
      inserted twice or was already present. */
  ghost predicate FreshInserts(t: Tally, existing: set<string>) {
    && t.known == existing + Ids(t.inserted)
    && (forall i, j :: 0 <= i < j < |t.inserted| ==> t.inserted[i].empid != t.inserted[j].empid)
    && (forall i :: 0 <= i < |t.inserted| ==> t.inserted[i].empid !in existing)
  }

  /** The failures are listed in row order, each naming a row already
      counted. */
  ghost predicate OrderedFailures(t: Tally) {
    && (forall i :: 0 <= i < |t.errorDetails| ==> 1 <= t.errorDetails[i].row <= t.processed)
    && (forall i, j :: 0 <= i < j < |t.errorDetails| ==> t.errorDetails[i].row < t.errorDetails[j].row)
  }

  /** What holds of the loop's variables after every row. */
  ghost predicate Consistent(t: Tally, existing: set<string>) {
    Counted(t) && FreshInserts(t, existing) && OrderedFailures(t)
  }

  /** A successful insert of an id not yet known keeps the counters consistent. */
  lemma InsertKeepsConsistent(t: Tally, r: EmployeeForm, existing: set<string>)
    requires Consistent(t, existing) && r.empid !in t.known
    ensures Consistent(t.(processed := t.processed + 1, added := t.added + 1, known := t.known + {r.empid},
                          inserted := t.inserted + [r]), existing)
  {
    var ins := t.inserted + [r];
    forall i | 0 <= i < |t.inserted| ensures t.inserted[i].empid != r.empid {
      assert t.inserted[i] in t.inserted;
    }
    assert Ids(ins) == Ids(t.inserted) + {r.empid} by {
      forall x | x in Ids(ins) ensures x in Ids(t.inserted) + {r.empid} {
        var q :| q in ins && q.empid == x;
        if q != r {
          assert q in t.inserted;
        }
      }
      assert r in ins;
      forall x | x in Ids(t.inserted) ensures x in Ids(ins) {
        var q :| q in t.inserted && q.empid == x;
        assert q in ins;
      }
    }
  }

  /** Recording a failure of the next row keeps the counters consistent. */
  lemma FailureKeepsConsistent(t: Tally, e: RowError, existing: set<string>)
    requires Consistent(t, existing) && e.row == t.processed + 1
    ensures Consistent(t.(processed := t.processed + 1, errors := t.errors + 1,
                          errorDetails := t.errorDetails + [e]), existing)
  {
  }

  /** One row keeps the counters consistent. */
  lemma StepKeepsConsistent(t: Tally, c: RowCheck, outcome: InsertOutcome, existing: set<string>)
    requires Consistent(t, existing)
    ensures Step(t, c, outcome).processed == t.processed + 1
    ensures Consistent(Step(t, c, outcome), existing)
  {
    var n := t.processed + 1;
    match c
    case Incomplete(missing) =>
      FailureKeepsConsistent(t, Missing(n, missing), existing);
    case Complete(r) =>
      if r.empid !in t.known {
        match outcome
        case Inserted => InsertKeepsConsistent(t, r, existing);
        case DatabaseError(msg) => FailureKeepsConsistent(t, DatabaseFailure(n, msg), existing);
        case Threw(msg) => FailureKeepsConsistent(t, Unexpected(n, msg), existing);
      }
  }

  /** After any number of checks the counters add up, the failures are listed
      in row order, and no id was inserted twice or was already present. */
  lemma {:induction false} RunConsistent(checks: seq<RowCheck>, outcomes: seq<InsertOutcome>, existing: set<string>)
    requires |outcomes| == |checks|
    ensures Run(checks, outcomes, existing).processed == |checks|
    ensures Consistent(Run(checks, outcomes, existing), existing)
  {
    if |checks| > 0 {
      var n := |checks| - 1;
      RunConsistent(checks[..n], outcomes[..n], existing);
      StepKeepsConsistent(Run(checks[..n], outcomes[..n], existing), checks[n], outcomes[n], existing);
    }
  }

  /** A failure entry reports what happened to the row it names: the fields
      that row misses, or the answer its insert got. */
  predicate Reports(e: RowError, checks: seq<RowCheck>, outcomes: seq<InsertOutcome>)
    requires |outcomes| == |checks|
  {
    1 <= e.row <= |checks| &&
    match e
    case Missing(n, fields) => checks[n - 1] == Incomplete(fields)
    case DatabaseFailure(n, msg) => outcomes[n - 1] == DatabaseError(msg)
    case Unexpected(n, msg) => outcomes[n - 1] == Threw(msg)
  }

  /** A report about a row of a prefix stays true of the whole sheet. */
  lemma ReportsExtend(e: RowError, checks: seq<RowCheck>, outcomes: seq<InsertOutcome>, n: nat)
    requires |outcomes| == |checks| && n <= |checks|
    requires Reports(e, checks[..n], outcomes[..n])
    ensures Reports(e, checks, outcomes)
  {
    assert checks[..n][e.row - 1] == checks[e.row - 1];
    assert outcomes[..n][e.row - 1] == outcomes[e.row - 1];
  }

  /** Every failure entry after the loop reports the row it names. */
  lemma {:induction false} RunReports(checks: seq<RowCheck>, outcomes: seq<InsertOutcome>, existing: set<string>)
    requires |outcomes| == |checks|
    ensures forall e :: e in Run(checks, outcomes, existing).errorDetails ==> Reports(e, checks, outcomes)
  {
    if |checks| > 0 {
      var n := |checks| - 1;
      var t := Run(checks[..n], outcomes[..n], existing);
      RunReports(checks[..n], outcomes[..n], existing);
      RunConsistent(checks[..n], outcomes[..n], existing);
      forall e | e in t.errorDetails ensures Reports(e, checks, outcomes) {
        ReportsExtend(e, checks, outcomes, n);
      }
      StepReports(t, checks, outcomes, n);
    }
  }

  /** The entry a step adds, if any, reports the row just counted. */
  lemma StepReports(t: Tally, checks: seq<RowCheck>, outcomes: seq<InsertOutcome>, n: nat)
    requires |outcomes| == |checks| && n < |checks| && t.processed == n
    requires forall e :: e in t.errorDetails ==> Reports(e, checks, outcomes)
    ensures forall e :: e in Step(t, checks[n], outcomes[n]).errorDetails ==> Reports(e, checks, outcomes)
  {
    var c := checks[n];
    var u := Step(t, c, outcomes[n]);
    if c.Incomplete? {
      var e := Missing(n + 1, c.missing);
      assert u.errorDetails == t.errorDetails + [e];
      assert Reports(e, checks, outcomes);
    } else if c.record.empid in t.known || outcomes[n].Inserted? {
      assert u.errorDetails == t.errorDetails;
    } else {
      var e := if outcomes[n].DatabaseError? then DatabaseFailure(n + 1, outcomes[n].message)
               else Unexpected(n + 1, outcomes[n].message);
      assert u.errorDetails == t.errorDetails + [e];
      assert Reports(e, checks, outcomes);
    }
  }

  /** The error lines shown after an upload are all different, since each
      names a different row. */
  lemma DetailLinesDistinct(checks: seq<RowCheck>, outcomes: seq<InsertOutcome>, existing: set<string>)
    requires |outcomes| == |checks|
    ensures var lines := DetailLines(Run(checks, outcomes, existing).errorDetails);
      forall i, j :: 0 <= i < j < |lines| ==> lines[i] != lines[j]
  {
    RunConsistent(checks, outcomes, existing);
    var es := Run(checks, outcomes, existing).errorDetails;
    forall i, j | 0 <= i < j < |es| ensures DetailLine(es[i]) != DetailLine(es[j]) {
      if DetailLine(es[i]) == DetailLine(es[j]) {
        DetailLineNamesRow(es[i], es[j]);
      }
    }
  }

  /** The loop over one more row is one more step. */
  lemma RunSnoc(checks: seq<RowCheck>, outcomes: seq<InsertOutcome>, existing: set<string>, i: nat)
    requires |outcomes| == |checks| && i < |checks|
    ensures Run(checks[..i + 1], outcomes[..i + 1], existing)
            == Step(Run(checks[..i], outcomes[..i], existing), checks[i], outcomes[i])
  {
    assert checks[..i + 1][..i] == checks[..i];
    assert outcomes[..i + 1][..i] == outcomes[..i];
  }

  // ------------------------------------------------------------ results

  /** The summary shown after an upload. */
  datatype UploadResults = UploadResults(processed: nat, added: nat, skipped: nat, errors: nat, errorDetails: seq<string>)

  const NoData := "No data found in the Excel file."
  const CheckFailed := "Failed to check existing employees."

  /** The message after the loop. */
  function FinalMessage(added: nat, skipped: nat, errors: nat): (m: Message)
    ensures m.kind == Success <==> added > 0
    ensures m.kind == Error <==> added == 0 && errors > 0
    ensures m.kind == Warning <==> added == 0 && errors == 0
  {
    if added > 0 then
      Message(Success, "Upload completed! " + NatToString(added) + " employees added, "
        + NatToString(skipped) + " duplicates skipped, " + NatToString(errors) + " errors.")
    else if errors > 0 then
      Message(Error, "Upload completed with " + NatToString(errors) + " errors. "
        + NatToString(skipped) + " duplicates were skipped.")
    else
      Message(Warning, "All " + NatToString(skipped) + " employees already exist in the database.")
  }

  /** A warning after the loop means every row of the file was a known id. */
  lemma WarningMeansAllSkipped(checks: seq<RowCheck>, outcomes: seq<InsertOutcome>, existing: set<string>)
    requires |outcomes| == |checks|
    requires var t := Run(checks, outcomes, existing); FinalMessage(t.added, t.skipped, t.errors).kind == Warning
    ensures Run(checks, outcomes, existing).skipped == |checks|
    ensures Run(checks, outcomes, existing).inserted == []
  {
    RunConsistent(checks, outcomes, existing);
  }

  /**
   * The body of the upload loop for one row: the row number is counted
   * first, then the row is rejected as incomplete, skipped as known, or
   * handed to the insert whose answer is `outcome`.
   */
  method ProcessRow(t: Tally, row: SheetRow, outcome: InsertOutcome) returns (u: Tally)
    ensures u == Step(t, Check(row), outcome)
  {
    u := t.(processed := t.processed + 1);
    var missingFields := RowMissing(row);
    if |missingFields| > 0 {
      CheckIncomplete(row);
      u := u.(errors := u.errors + 1, errorDetails := u.errorDetails + [Missing(u.processed, missingFields)]);
      return;
    }
    CheckComplete(row);
    var employeeData := FormOf(row);
    u := ProcessRecord(t, u, employeeData, outcome);
  }

  /** The rest of the loop body for a complete row: the id already known is
      skipped, otherwise the insert's answer decides between an addition, a
      database error and an unexpected error. `u0` is the tally with the row
      already counted as processed. */
  method ProcessRecord(t: Tally, u0: Tally, employeeData: EmployeeForm, outcome: InsertOutcome) returns (u: Tally)
    requires u0 == t.(processed := t.processed + 1)
    ensures u == Step(t, Complete(employeeData), outcome)
  {
    u := u0;
    if employeeData.empid in u.known {
      u := u.(skipped := u.skipped + 1);
      return;
    }
    match outcome {
      case Inserted =>
        u := u.(added := u.added + 1, known := u.known + {employeeData.empid},
                inserted := u.inserted + [employeeData]);
      case DatabaseError(msg) =>
        u := u.(errors := u.errors + 1, errorDetails := u.errorDetails + [DatabaseFailure(u.processed, msg)]);
      case Threw(msg) =>
        u := u.(errors := u.errors + 1, errorDetails := u.errorDetails + [Unexpected(u.processed, msg)]);
    }
  }

  /** The upload loop: every row in sheet order, each with its insert's answer. */
  method ProcessRows(rows: seq<SheetRow>, outcomes: seq<InsertOutcome>, existing: set<string>) returns (t: Tally)
    requires |outcomes| == |rows|
    ensures t == Run(Checks(rows), outcomes, existing)
  {
    ghost var checks := Checks(rows);
    t := Start(existing);
    for i := 0 to |rows|
      invariant t == Run(checks[..i], outcomes[..i], existing)
    {
      t := ProcessRow(t, rows[i], outcomes[i]);
      RunSnoc(checks, outcomes, existing, i);
    }
    assert checks[..|rows|] == checks;
    assert outcomes[..|rows|] == outcomes;
  }

  /** `handleFileUpload` once the sheet is read: an empty sheet, a first row
      without every required column, or a failed fetch of the existing ids
      stops it before any insert; otherwise every row goes through the loop and
      the summary and the final message are set. `existing` is the fetched id
      set (`None` when the fetch failed) and `inserted` the records the
      database accepted, in order. */
  method HandleUpload(rows: seq<SheetRow>, existing: Option<set<string>>, outcomes: seq<InsertOutcome>)
    returns (message: Message, results: Option<UploadResults>, inserted: seq<EmployeeForm>)
    requires |outcomes| == |rows|
    ensures |rows| == 0 ==> message == Message(Error, NoData) && results == None && inserted == []
    ensures |rows| > 0 && |MissingColumns(rows[0])| > 0 ==>
              message == Message(Error, "Missing required columns: " + Join(MissingColumns(rows[0]), ", "))
              && results == None && inserted == []
    ensures |rows| > 0 && |MissingColumns(rows[0])| == 0 && existing == None ==>
              message == Message(Error, CheckFailed) && results == None && inserted == []
    ensures |rows| > 0 && |MissingColumns(rows[0])| == 0 && existing.Some? ==>
              var t := Run(Checks(rows), outcomes, existing.value);
              && results == Some(UploadResults(t.processed, t.added, t.skipped, t.errors, DetailLines(t.errorDetails)))
              && inserted == t.inserted
              && message == FinalMessage(t.added, t.skipped, t.errors)
    ensures results.Some? ==>
              && results.value.processed == |rows|
              && results.value.processed == results.value.added + results.value.skipped + results.value.errors
              && |results.value.errorDetails| == results.value.errors
              && |inserted| == results.value.added
  {
    if |rows| == 0 {
      return Message(Error, NoData), None, [];
    }
    var missingColumns := MissingColumns(rows[0]);
    if |missingColumns| > 0 {
      return Message(Error, "Missing required columns: " + Join(missingColumns, ", ")), None, [];
    }
    if existing == None {
      return Message(Error, CheckFailed), None, [];
    }
    var t := ProcessRows(rows, outcomes, existing.value);
    RunConsistent(Checks(rows), outcomes, existing.value);
    inserted := t.inserted;
    results := Some(UploadResults(t.processed, t.added, t.skipped, t.errors, DetailLines(t.errorDetails)));
    message := FinalMessage(t.added, t.skipped, t.errors);
  }
}

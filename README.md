# Employee directory: statistic processor, directory screen and bulk upload

This project models the logic of three React components of an employee
directory that sits on a hosted SQL table:

- **Statistic processor** (`empf/src/components/stats.jsx`, module `Stats`):
  - It parses a pasted tab-separated leaderboard. The first line holds the headers, and each later line becomes a record keyed by the trimmed headers, with `'N/A'` for a missing or blank cell.
  - It collects the `Player` values as lookup keys, dropping the `'N/A'` ones.
  - It resolves the winner: the first fetched record matching rank one, else rank two, else rank three, else a placeholder.
  - It normalises category labels: cut at the first `CABANG` or `-`, then trim. An absent or empty value gives `'Others'`.
  - It counts the fetched records per department bucket, site and directorate.
  - The component's result state is the class `StatsProcessor`.
- **Directory screen** (`empf/src/App.jsx`, module `Directory`):
  - The duplicate-UID report (`findDuplicates`), pagination and the Previous/Next clamps.
  - The filter choice of `handleSearch`, the site list and the local list update after a UID reset.
  - `clearFilters`, the session changes (load, sign-in, sign-out) and the three search inputs.
  - The screen's state is the class `EmployeeDirectory`.
- **Add-employee screen** (`empf/src/components/AddEmployee.jsx`, module `Upload`):
  - The form's required-field check (`validateForm`).
  - The bulk upload (`handleFileUpload`): the early exits, the per-row loop with its counters `processed`, `added`, `skipped` and `errors`, the `errorDetails` lines and the growing set of known ids, and the final message.

Shared modules:

- `Optional`: the option type.
- `Lists`: `filter`.
- `Text`: ECMAScript `trim`, `split`, `join`, ASCII `toLowerCase`, substring search and number-to-text conversion.
- `Employees`: the table row.

The remote table is never called. What it would answer becomes an input:

- In `Stats`, the bulk lookup by uid is a function `store` from the key list to the fetched records. A failed lookup answers `[]`, as the source does.
- In `Directory`, the answer of the search select is a `Response`: rows, an error, or a thrown exception. The site list answer is an `Option`, and the results of the reset update, the session lookup and the sign-in are each a `bool`.
- In `Upload`, the fetched set of existing ids is `None` when the fetch failed. Each row's insert answers one `InsertOutcome`: inserted, a database error, or a thrown exception. The records the database accepted are returned as `inserted`.

## Model

| member | source | states |
|---|---|---|
| Lists.FilterFacts | empf/src/components/stats.jsx:97 | `filter` keeps exactly the elements that pass, and nothing longer than its input |
| Lists.FilterAppend | empf/src/components/stats.jsx:97 | filtering a concatenation is the concatenation of the filters, so the kept elements stay in order |
| Text.TrimEmptyIffBlank | empf/src/components/stats.jsx:78 | `!s.trim()` holds exactly when every character of `s` is whitespace |
| Text.TrimIsSlice | empf/src/components/stats.jsx:90 | `trim` returns a contiguous piece of the text, with only whitespace cut on each side, and the piece starts and ends with a non-whitespace character |
| Text.JoinSplit | empf/src/components/stats.jsx:83-84 | splitting at a separator loses nothing: joining the pieces with it gives the text back |
| Text.SplitCount | empf/src/components/stats.jsx:83 | `split` gives one more piece than there are separators |
| Text.TrimmedOccursIgnoringCase | empf/src/App.jsx:97-99 | when two texts trim to the same text up to ASCII case, the second contains the trimmed first, up to case, whatever blanks surround either |
| Text.NatToStringInjective | empf/src/components/AddEmployee.jsx:222 | different row numbers are written differently |
| Stats.RowOfKeys | empf/src/components/stats.jsx:89-91 | the keys of a parsed record are exactly the trimmed header labels |
| Stats.RowFieldValue | empf/src/components/stats.jsx:86-91 | a field holds the trimmed cell of its column, or `'N/A'` when the line has no such cell or it is blank; the last header with a label wins |
| Stats.RowIgnoresExtraCells | empf/src/components/stats.jsx:87-91 | cells beyond the header count do not change the record |
| Stats.BuildRow | empf/src/components/stats.jsx:87-92 | the header loop builds the record of the line |
| Stats.ParseText | empf/src/components/stats.jsx:83-93 | the records are those of the lines after the header line of the trimmed text, in order |
| Stats.ParsedRowsCount | empf/src/components/stats.jsx:83-86 | there is one record per line break of the trimmed text |
| Stats.ParsedRowsKeys | empf/src/components/stats.jsx:84-92 | every record is keyed by exactly the trimmed header tokens |
| Stats.LookupKeys | empf/src/components/stats.jsx:97 | the key list holds no `'N/A'`; it holds only Player values of rows, and it holds every row's Player value that is not `'N/A'` |
| Stats.LookupKeysAppend | empf/src/components/stats.jsx:97 | the key list keeps row order |
| Stats.FindByUid | empf/src/components/stats.jsx:108-109 | `find` returns nothing exactly when no record has the uid, and otherwise the first record that has it |
| Stats.ResolveWinner | empf/src/components/stats.jsx:103-129 | with no match for ranks one to three the winner is the placeholder; otherwise it is a fetched record whose uid is one of those three players |
| Stats.WinnerIsBestRankedMatch | empf/src/components/stats.jsx:111-118 | when rank k is the best rank with a match, the winner is the first fetched record for that player |
| Stats.CutIndex | empf/src/components/stats.jsx:25 | the cut is at the earliest hyphen or `CABANG`, or at the end when there is none |
| Stats.Normalize | empf/src/components/stats.jsx:23-24 | a missing or empty value is `'Others'` |
| Stats.NormalizeStripsMarkers | empf/src/components/stats.jsx:25 | a label is trimmed and contains neither `-` nor `CABANG` |
| Stats.NormalizeIdempotent | empf/src/components/stats.jsx:23-26 | normalising a non-empty label again gives the same label |
| Stats.NormalizeBranchFirst | empf/src/components/stats.jsx:25 | a value starting with `CABANG` gives the empty label, not `'Others'` |
| Stats.TallyCounts | empf/src/components/stats.jsx:43-48 | the dictionary has one entry per distinct label, holding how often it occurs (at least once) |
| Stats.TallySum | empf/src/components/stats.jsx:43-50 | the counts of a dictionary add up to the number of records |
| Stats.Percentage | empf/src/components/stats.jsx:54 | the percentage times the total is the count times 100 |
| Stats.PercentagesSumTo100 | empf/src/components/stats.jsx:50-66 | the unrounded percentages of one distribution add up to 100 |
| Stats.TallyIsDistribution | empf/src/components/stats.jsx:39-48 | the counted dictionary is a frequency distribution of its labels |
| Stats.MetaDataDistributions | empf/src/components/stats.jsx:28-75 | a non-empty result reports the winner it was given, the record count and one distribution per dimension (department bucket, site, directorate) |
| Stats.GenerateMetaData | empf/src/components/stats.jsx:28-75 | the `forEach` builds the three dictionaries of the bucketed, normalised records; no records give `{}` |
| Stats.StatsProcessor.constructor | empf/src/components/stats.jsx:6-8 | the result state starts empty |
| Stats.StatsProcessor.Process | empf/src/components/stats.jsx:77-132 | blank text changes nothing and looks nothing up; otherwise the parsed rows, the fetched records and the metadata with the resolved winner replace the state |
| Directory.GroupContents | empf/src/App.jsx:201-209 | a group holds every record with its key as often as the list does, and nothing else |
| Directory.GroupOfAppend | empf/src/App.jsx:203-207 | a group keeps the records in input order |
| Directory.SameGroupIff | empf/src/App.jsx:202-207 | two records share a group exactly when both have a uid and the uids agree after lower-casing |
| Directory.GroupMembership | empf/src/App.jsx:202-210 | a record without a uid is in no group; a record with one is in its key's group and in no other |
| Directory.FindDuplicates | empf/src/App.jsx:200-211 | the result holds exactly the groups of more than one record, each the records of that lower-cased uid in order |
| Directory.TotalPages | empf/src/App.jsx:214 | `ceil(n/10)`: the pages hold n records, one page fewer would not, and there are no pages exactly when there are no records |
| Directory.PageSlice | empf/src/App.jsx:384-385 | a page holds at most 10 records, the ones from `startIndex` on in order, and up to the "to" figure of line 512 |
| Directory.PagesCover | empf/src/App.jsx:213-214 | every record is shown on exactly one page, which exists |
| Directory.PreviousPage | empf/src/App.jsx:519-521 | Previous never goes below page 1 and otherwise goes back one page |
| Directory.NextPage | empf/src/App.jsx:535-537 | Next never goes past the last page and otherwise goes forward one page |
| Directory.NumericValueOfInt | empf/src/App.jsx:102-103 | the text of a number reads back as that number |
| Directory.BlankSearchSelectsAllWithUid | empf/src/App.jsx:94-97 | a blank query with no site selects exactly the records with a non-empty uid |
| Directory.SiteFilterNarrows | empf/src/App.jsx:110-112 | a chosen site selects exactly the records the search without it selects that have this site |
| Directory.UidSearchFindsRecord | empf/src/App.jsx:97-99 | a uid search whose trimmed query equals the record's trimmed uid up to ASCII case selects the record, whatever blanks the user typed around the query |
| Directory.EmpidSearchFindsRecord | empf/src/App.jsx:100-103 | an employee-id search for the number of a record's id selects the record |
| Directory.UniqueSitesFacts | empf/src/App.jsx:75 | the site list holds every non-empty site exactly once, in order of first appearance |
| Directory.ResetOnlyTouchesEmpid | empf/src/App.jsx:158-160 | the reset clears uid and password of the records with that id and leaves every other record as it was |
| Directory.ResetIdempotent | empf/src/App.jsx:158-160 | resetting twice is resetting once |
| Directory.ResetLeavesNoDuplicate | empf/src/App.jsx:158-160 | after a reset no record with that id is in any duplicate group |
| Directory.EmployeeDirectory.constructor | empf/src/App.jsx:20-34 | the screen starts signed out, on page 1, with empty inputs, search by uid and no results |
| Directory.EmployeeDirectory.CheckSession | empf/src/App.jsx:52-60 | the session check on load signs in exactly when a session was found, and changes nothing else |
| Directory.EmployeeDirectory.Login | empf/src/App.jsx:167-181 | a successful sign-in opens the session and clears the error; a refused one keeps the session and sets the sign-in error; nothing else changes |
| Directory.EmployeeDirectory.Logout | empf/src/App.jsx:184-187 | signing out closes the session and changes nothing else |
| Directory.EmployeeDirectory.SetSearchQuery | empf/src/App.jsx:235 | typing sets the query and changes nothing else |
| Directory.EmployeeDirectory.SetSearchType | empf/src/App.jsx:242 | choosing the search type sets it and changes nothing else |
| Directory.EmployeeDirectory.SetSiteFilter | empf/src/App.jsx:294 | choosing a site sets the site filter and changes nothing else |
| Directory.EmployeeDirectory.Search | empf/src/App.jsx:84-131 | nothing happens without a session; otherwise the built query is sent, a successful answer replaces the list and goes to page 1, and an error sets its message and keeps the list |
| Directory.EmployeeDirectory.ResetUid | empf/src/App.jsx:141-164 | a successful update resets the local list and returns the record without uid and password; a failed one changes nothing |
| Directory.EmployeeDirectory.ClearFilters | empf/src/App.jsx:190-197 | query and site are emptied, the type goes back to uid, the results are cleared and nothing is searched |
| Directory.EmployeeDirectory.Previous | empf/src/App.jsx:519-521 | the page moves back with the clamp and stays a real page |
| Directory.EmployeeDirectory.Next | empf/src/App.jsx:535-537 | the page moves on with the clamp and stays a real page |
| Directory.EmployeeDirectory.LoadSites | empf/src/App.jsx:65-81 | with a session and an answer the site list is replaced by the unique sites; otherwise it is left as it was |
| Upload.FieldBlankIsTrimTest | empf/src/components/AddEmployee.jsx:52 | a form field counts as blank exactly when its trimmed text is empty |
| Upload.ValidateForm | empf/src/components/AddEmployee.jsx:50-62 | any message the check produces is an error |
| Upload.BlankFieldsWrittenOut | empf/src/components/AddEmployee.jsx:51-52 | the listed fields are exactly the blank required fields, in the order empid, empname, department, site, classification |
| Upload.ValidateFormIff | empf/src/components/AddEmployee.jsx:50-62 | the form passes exactly when none of the five required fields is blank |
| Upload.FieldMissingIsTrimTest | empf/src/components/AddEmployee.jsx:218 | a sheet field is missing exactly when it is absent, falsy or empty after `toString().trim()` |
| Upload.RowMissingWrittenOut | empf/src/components/AddEmployee.jsx:218 | a row's missing list is exactly its missing required fields, in the required order |
| Upload.CompleteRowHasKeys | empf/src/components/AddEmployee.jsx:218-238 | a row missing nothing has every required column, each filled |
| Upload.CheckNamesRequired | empf/src/components/AddEmployee.jsx:218-220 | an incomplete row names at least one field, and only required ones |
| Upload.CompleteRowPassesForm | empf/src/components/AddEmployee.jsx:218-242 | a record the bulk check lets through would also pass the form's check |
| Upload.DetailLineStartsWithRow | empf/src/components/AddEmployee.jsx:222 | every error line starts with `Row <n>: ` |
| Upload.RowPrefixDetermined | empf/src/components/AddEmployee.jsx:222 | the head of an error line determines its row number |
| Upload.DetailLineNamesRow | empf/src/components/AddEmployee.jsx:222 | equal error lines name the same row |
| Upload.DetailLines | empf/src/components/AddEmployee.jsx:221-259 | the shown lines are the lines of the failures, in order |
| Upload.StepClassifies | empf/src/components/AddEmployee.jsx:214-260 | each row increments `processed` and exactly one of the error, skip and addition counters; an incomplete row is an error with its Missing entry and no insert; a known id is only skipped; only a successful insert adds the id |
| Upload.StepKeepsConsistent | empf/src/components/AddEmployee.jsx:214-260 | one pass of the loop keeps the counters, the known ids and the failure list consistent |
| Upload.RunConsistent | empf/src/components/AddEmployee.jsx:207-261 | after the loop `processed` is the row count and `processed = added + skipped + errors`; there is one failure per error and one record per addition; the failures are in row order; the known ids are the existing ones plus the inserted ones; no id was inserted twice or was already present |
| Upload.RunReports | empf/src/components/AddEmployee.jsx:218-260 | every failure names a row of the sheet and reports that row's missing fields or its insert's answer |
| Upload.DetailLinesDistinct | empf/src/components/AddEmployee.jsx:222-259 | the error lines of one upload are pairwise different |
| Upload.FinalMessage | empf/src/components/AddEmployee.jsx:272-287 | success exactly when something was added, error exactly when nothing was added and some row failed, warning otherwise |
| Upload.WarningMeansAllSkipped | empf/src/components/AddEmployee.jsx:282-286 | the warning means every row was a known id and nothing was inserted |
| Upload.ProcessRow | empf/src/components/AddEmployee.jsx:215-260 | the loop body turns the tally into the one-row step for the checked row and its insert's answer |
| Upload.ProcessRecord | empf/src/components/AddEmployee.jsx:227-260 | a complete row is skipped when known, and otherwise counted by its insert's answer |
| Upload.ProcessRows | empf/src/components/AddEmployee.jsx:207-261 | the loop over all rows gives the tally of the rows in sheet order |
| Upload.HandleUpload | empf/src/components/AddEmployee.jsx:168-287 | an empty sheet, missing columns (listed in order) or a failed id fetch stop with an error and no insert; otherwise the results, the accepted records and the final message are those of the loop, and the results' counters add up |

## Left out

- All calls to the hosted table are outside the model: the session lookup, sign-in and sign-out, the selects, inserts and the update. What they answer is an input, as described above. For the session that input is whether a session was found or the sign-in succeeded (`CheckSession`, `Login`).
- Ordering on the server is left out: the search's `order("empname")` and the fetch order of the stats lookup. The answers are taken as given sequences.
- The `ilike` and `like` wildcards are left out. A `%` or `_` typed in the query is treated as plain text by `Selects`.
- Directory.NumericValue accepts only an optional sign followed by decimal digits. The other texts `isNaN` accepts are not modelled: hexadecimal (`0x1F`), binary (`0b11`), octal (`0o17`), fractions, exponents and `Infinity`. For these the source sends `eq("empid", parseInt(value))`, which is 0 for the binary and octal forms, while the model sends the substring search.
- JavaScript numbers are doubles, and the model's numbers are exact integers. So `parseInt` of a digit string longer than about 16 digits rounds in the source but not in `NumericValue` and `DigitsValue`. A sheet number's `toString()` rounds above 2^53 and switches to exponent form from 1e21 (`1e+21`), while `Num(n)` and `CellText` write every digit.
- `toLowerCase` is modelled on ASCII letters only, because Unicode case mapping tables are outside the model.
- Stats.GenerateMetaData: the distributions are dictionaries from label to count. The percentage strings made with `toFixed(2)` and the entry order of `Object.entries` are not modelled, because they are floating-point formatting and engine key ordering. The unrounded percentage is stated over reals by `Percentage`.
- Stats.Normalize: the regular expression `/CABANG.*|-.*/` is modelled as a cut at the first hyphen or `CABANG`. This is the same for single-line values, which is what a tab-separated cell or a table column holds.
- Directory.FindDuplicates: the result is a dictionary from the shared key to its group. The order of `Object.values` is not modelled.
- Directory.FindDuplicates: keys a plain `{}` inherits are not modelled. A uid that lower-cases to `constructor` or `__proto__` finds an inherited value in `acc`, so the source skips creating the group, and `acc[key].push` then throws a TypeError. The model makes an ordinary group for every key.
- Stats.BuildRow: a header that trims to `__proto__` is not stored by the source, because assigning it on a plain object sets the prototype and adds no key. The model stores it like any other label. The same holds for `Stats.ParseText` and `Stats.RowOfKeys`.
- Stats.GenerateMetaData: labels that name an inherited property of a plain object are not modelled. For `constructor`, `toString`, `valueOf` and the like, `(count[label] || 0) + 1` starts from the inherited function, so the count becomes a string and its percentage `NaN%`. A `__proto__` label is dropped. The model counts every label from 0.
- Sheet cells are text or whole numbers. Fractional numbers, booleans and dates read from a workbook are not modelled.
- Reading the workbook, making the template and the `Failed to process the Excel file` catch around them are not modelled, because they are file parsing and a download.
- The single-record submit (`handleSubmit`) is left out, apart from the `validateForm` check it calls. The rest of it is one insert and the messages around it.
- `ExportData.jsx` is not part of this model. It is a paged download with a progress bar.
- Loading flags, the sidebar and filter-panel toggles, window resizing, `alert`, `confirm` and the interleaving of asynchronous state updates are UI plumbing and are left out.
- Upload.HandleUpload: `errorDetails` is kept as structured failures (`RowError`), and their text lines are rendered by `DetailLines` when the results are set. The loop's local variables are gathered into one `Tally` record.
- Directory.EmployeeDirectory.Previous: the precondition is the render condition of the buttons (`hasSearched && employees.length > 0`), so the page arithmetic is only stated where the buttons exist.
- Directory.EmployeeDirectory.Next: same precondition as Previous, for the same reason.
- Where the written design and the code differ, the model follows the code:
  - The code counts three dimensions and has no grouping dimension.
  - A label left empty by a leading `CABANG` stays `""` and is not turned into `'Others'` (`Stats.NormalizeBranchFirst`).
  - The bucket rule compares the classification with `'HO'` and `'Branch'`, so any other value, including `SITE` and `CONTRACTOR` from the add form, lands in `'Others'`.

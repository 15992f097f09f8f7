/** The statistic processor: parses pasted tab-separated leaderboard text,
    looks the players up in the employee table, picks the winner and counts
    the players per department bucket, site and directorate. */
module Stats {
  import opened Optional
  import opened Lists
  import opened Text
  import opened Employees

  /** A parsed line: trimmed header label to trimmed cell (or "N/A"). */
  type Row = map<string, string>

  const NotAvailable := "N/A"
  const PlayerColumn := "Player"
  const Others := "Others"

  // ---------------------------------------------------------------- parser

  /** `rawText.trim().split('\n')`. */
  function Lines(text: string): seq<string> {
    Split(Trim(text), '\n')
  }

  /** The value stored for header position `i`: `values[i]?.trim() || 'N/A'`. */
  function CellValue(values: seq<string>, i: nat): string {
    if i < |values| && Trim(values[i]) != "" then Trim(values[i]) else NotAvailable
  }

  /** The header labels: each tab-separated token of the header line, trimmed. */
  function TrimAll(tokens: seq<string>): (ls: seq<string>)
    ensures |ls| == |tokens| && forall i :: 0 <= i < |tokens| ==> ls[i] == Trim(tokens[i])
  {
    seq(|tokens|, i requires 0 <= i < |tokens| => Trim(tokens[i]))
  }

  /** The record built for one line: every label, in order, is assigned its
      cell, so a repeated label keeps the value of its last position. */
  function RowOf(labels: seq<string>, values: seq<string>): Row {
    if |labels| == 0 then map[]
    else RowOf(labels[..|labels| - 1], values)[labels[|labels| - 1] := CellValue(values, |labels| - 1)]
  }

  lemma RowOfSnoc(labels: seq<string>, values: seq<string>, i: nat)
    requires i < |labels|
    ensures RowOf(labels[..i + 1], values) == RowOf(labels[..i], values)[labels[i] := CellValue(values, i)]
  {
    assert labels[..i + 1][..i] == labels[..i];
  }

  /** A record's keys are exactly the header labels. */
  lemma {:induction false} RowOfKeys(labels: seq<string>, values: seq<string>)
    ensures forall k :: k in RowOf(labels, values) <==> k in labels
  {
    if |labels| > 0 {
      var n := |labels| - 1;
      RowOfKeys(labels[..n], values);
      assert labels == labels[..n] + [labels[n]];
    }
  }

  function HeaderLabels(text: string): seq<string> {
    TrimAll(Split(Lines(text)[0], '\t'))
  }

  /** The records of the pasted text: one per line after the header line. */
  function ParsedRows(text: string): seq<Row> {
    var lines := Lines(text);
    seq(|lines| - 1, j requires 0 <= j < |lines| - 1 => RowOf(HeaderLabels(text), Split(lines[j + 1], '\t')))
  }

  /** A field holds the trimmed cell in its column, or "N/A" when the line has
      no such cell or the cell is blank; a later header with the same trimmed
      label overrides it. */
  lemma {:induction false} RowFieldValue(labels: seq<string>, values: seq<string>, i: nat)
    requires i < |labels|
    requires forall j :: i < j < |labels| ==> labels[j] != labels[i]
    ensures labels[i] in RowOf(labels, values)
    ensures i >= |values| || IsBlank(values[i]) ==> RowOf(labels, values)[labels[i]] == NotAvailable
    ensures i < |values| && !IsBlank(values[i]) ==> RowOf(labels, values)[labels[i]] == Trim(values[i])
  {
    if i < |values| {
      TrimEmptyIffBlank(values[i]);
    }
    var n := |labels| - 1;
    if i < n {
      assert labels[..n][i] == labels[i];
      forall j | i < j < n ensures labels[..n][j] != labels[..n][i] {
        assert labels[..n][j] == labels[j];
      }
      RowFieldValue(labels[..n], values, i);
    }
  }

  /** Cells beyond the header count are dropped. */
  lemma {:induction false} RowIgnoresExtraCells(labels: seq<string>, values: seq<string>)
    requires |values| >= |labels|
    ensures RowOf(labels, values) == RowOf(labels, values[..|labels|])
  {
    if |labels| > 0 {
      var n := |labels| - 1;
      var cut := values[..|labels|];
      RowIgnoresExtraCells(labels[..n], values);
      RowIgnoresExtraCells(labels[..n], cut);
      assert cut[..n] == values[..n];
      assert cut[n] == values[n];
    }
  }

  /** Parsing yields one record per line break of the trimmed text, that is
      one per line after the header line. */
  lemma ParsedRowsCount(text: string)
    ensures |ParsedRows(text)| == multiset(Trim(text))['\n']
  {
    SplitCount(Trim(text), '\n');
  }

  /** Every record is keyed by exactly the trimmed header tokens. */
  lemma ParsedRowsKeys(text: string, j: nat)
    requires j < |ParsedRows(text)|
    ensures forall k :: k in ParsedRows(text)[j] <==> k in HeaderLabels(text)
  {
    RowOfKeys(HeaderLabels(text), Split(Lines(text)[j + 1], '\t'));
  }

  /** `parseTextData`'s inner loop: the record of one line, filled header by header. */
  method BuildRow(headers: seq<string>, line: string) returns (row: Row)
    ensures row == RowOf(TrimAll(headers), Split(line, '\t'))
  {
    var values := Split(line, '\t');
    ghost var labels := TrimAll(headers);
    row := map[];
    var i := 0;
    while i < |headers|
      invariant 0 <= i <= |headers|
      invariant row == RowOf(labels[..i], values)
    {
      var cell := if i < |values| then Trim(values[i]) else "";
      row := row[Trim(headers[i]) := if cell != "" then cell else NotAvailable];
      RowOfSnoc(labels, values, i);
      i := i + 1;
    }
    assert labels[..|headers|] == labels;
  }

  /** `rows.slice(1).map(...)` over the lines of the trimmed text. */
  method ParseText(text: string) returns (rows: seq<Row>)
    ensures rows == ParsedRows(text)
  {
    var lines := Lines(text);
    var headers := Split(lines[0], '\t');
    ghost var labels := HeaderLabels(text);
    rows := [];
    var k := 1;
    while k < |lines|
      invariant 1 <= k <= |lines|
      invariant |rows| == k - 1
      invariant forall j :: 0 <= j < k - 1 ==> rows[j] == RowOf(labels, Split(lines[j + 1], '\t'))
    {
      var row := BuildRow(headers, lines[k]);
      rows := rows + [row];
      k := k + 1;
    }
    ghost var spec := ParsedRows(text);
    assert |spec| == |rows|;
    assert forall j :: 0 <= j < |rows| ==> rows[j] == spec[j];
  }

  // ------------------------------------------------------------- join keys

  /** `row['Player']`, absent when the text has no Player column. */
  function PlayerOf(row: Row): Option<string> {
    if PlayerColumn in row then Some(row[PlayerColumn]) else None
  }

  function Players(rows: seq<Row>): (ps: seq<Option<string>>)
    ensures |ps| == |rows| && forall i :: 0 <= i < |rows| ==> ps[i] == PlayerOf(rows[i])
  {
    seq(|rows|, i requires 0 <= i < |rows| => PlayerOf(rows[i]))
  }

  /** The uids sent to the lookup: every row's Player value, in row order,
      without the "N/A" ones. */
  function LookupKeys(rows: seq<Row>): (keys: seq<Option<string>>)
    ensures forall i :: 0 <= i < |keys| ==> keys[i] != Some(NotAvailable)
    ensures forall i :: 0 <= i < |keys| ==> keys[i] in Players(rows)
    ensures forall i :: 0 <= i < |rows| && PlayerOf(rows[i]) != Some(NotAvailable) ==> PlayerOf(rows[i]) in keys
  {
    FilterFacts(Players(rows), k => k != Some(NotAvailable));
    Filter(Players(rows), k => k != Some(NotAvailable))
  }

  /** The key list keeps row order: the keys of a concatenation are the keys
      of the first part followed by those of the second. */
  lemma LookupKeysAppend(a: seq<Row>, b: seq<Row>)
    ensures LookupKeys(a + b) == LookupKeys(a) + LookupKeys(b)
  {
    assert Players(a + b) == Players(a) + Players(b);
    FilterAppend(Players(a), Players(b), k => k != Some(NotAvailable));
  }

  // ---------------------------------------------------------------- winner

  /** `row.uid === uid`: a missing key never matches. */
  predicate HasUid(e: Employee, key: Option<string>) {
    key.Some? && e.uid == key
  }

  /** `fetched.find((row) => row.uid === uid)`. */
  function FindByUid(fetched: seq<Employee>, key: Option<string>): (r: Option<Employee>)
    ensures r.None? <==> forall i :: 0 <= i < |fetched| ==> !HasUid(fetched[i], key)
    ensures r.Some? ==> exists i :: 0 <= i < |fetched| && fetched[i] == r.value && HasUid(fetched[i], key) &&
                                   forall j :: 0 <= j < i ==> !HasUid(fetched[j], key)
  {
    if |fetched| == 0 then None
    else if HasUid(fetched[0], key) then Some(fetched[0])
    else
      var r := FindByUid(fetched[1..], key);
      assert forall i :: 1 <= i < |fetched| ==> fetched[i] == fetched[1..][i - 1];
      r
  }

  /** `(data[rank] || {})['Player']`. */
  function RankKey(rows: seq<Row>, rank: nat): Option<string> {
    if rank < |rows| then PlayerOf(rows[rank]) else None
  }

  predicate RankMatches(rows: seq<Row>, fetched: seq<Employee>, rank: nat) {
    FindByUid(fetched, RankKey(rows, rank)).Some?
  }

  /** The record reported when none of the first three players was found. */
  const Placeholder := Employee("N/A", "No valid winner found", None, None,
    Some("N/A"), Some("N/A"), Some("N/A"), None, Some("N/A"), None)

  /** The winner: the first fetched record for the rank-one player, else for
      rank two, else for rank three, else the placeholder. */
  function ResolveWinner(rows: seq<Row>, fetched: seq<Employee>): (w: Employee)
    ensures !RankMatches(rows, fetched, 0) && !RankMatches(rows, fetched, 1) && !RankMatches(rows, fetched, 2)
      ==> w == Placeholder
    ensures RankMatches(rows, fetched, 0) || RankMatches(rows, fetched, 1) || RankMatches(rows, fetched, 2) ==>
      && w in fetched
      && (HasUid(w, RankKey(rows, 0)) || HasUid(w, RankKey(rows, 1)) || HasUid(w, RankKey(rows, 2)))
  {
    var first := FindByUid(fetched, RankKey(rows, 0));
    var second := if first.Some? then first else FindByUid(fetched, RankKey(rows, 1));
    var third := if second.Some? then second else FindByUid(fetched, RankKey(rows, 2));
    if third.Some? then third.value else Placeholder
  }

  /** Ranked fallback: when rank `k` is the best rank with a match, the winner
      is the first fetched record whose uid is that player's. */
  lemma WinnerIsBestRankedMatch(rows: seq<Row>, fetched: seq<Employee>, k: nat)
    requires k < 3 && RankMatches(rows, fetched, k)
    requires forall j :: 0 <= j < k ==> !RankMatches(rows, fetched, j)
    ensures Some(ResolveWinner(rows, fetched)) == FindByUid(fetched, RankKey(rows, k))
  {
    if k > 0 {
      assert !RankMatches(rows, fetched, 0);
    }
    if k > 1 {
      assert !RankMatches(rows, fetched, 1);
    }
  }

  // ------------------------------------------------------------ normaliser

  /** Where the replaced pattern (CABANG or a hyphen, with the rest of the line) can start. */
  predicate MarkerAt(s: string, i: nat)
    requires i < |s|
  {
    s[i] == '-' || OccursAt(s, "CABANG", i)
  }

  /** The earliest marker position at or after `from`, or `|s|` when there is none. */
  function CutIndex(s: string, from: nat): (c: nat)
    requires from <= |s|
    ensures from <= c <= |s|
    ensures c < |s| ==> MarkerAt(s, c)
    ensures forall j :: from <= j < c ==> !MarkerAt(s, j)
    decreases |s| - from
  {
    if from == |s| then |s|
    else if MarkerAt(s, from) then from
    else CutIndex(s, from + 1)
  }

  /** `normalizeText`: "Others" for a missing or empty value, otherwise the
      text before the first hyphen or CABANG, trimmed. */
  function Normalize(text: Option<string>): (r: string)
    ensures text == None || text == Some("") ==> r == Others
  {
    if text == None || text.value == "" then Others
    else Trim(text.value[..CutIndex(text.value, 0)])
  }

  predicate MarkerFree(s: string) {
    forall j :: 0 <= j < |s| ==> !MarkerAt(s, j)
  }

  /** A text with no marker position contains neither a hyphen nor CABANG. */
  lemma MarkerFreeMeansNoMarker(s: string)
    requires MarkerFree(s)
    ensures !Contains(s, "-") && !Contains(s, "CABANG")
  {
    if Contains(s, "-") {
      var i: nat :| i <= |s| && OccursAt(s, "-", i);
      assert s[i..i + 1][0] == s[i];
      assert MarkerAt(s, i);
    }
    if Contains(s, "CABANG") {
      var i: nat :| i <= |s| && OccursAt(s, "CABANG", i);
      assert MarkerAt(s, i);
    }
  }

  /** A piece of `s` lying before any marker of `s` has no marker of its own. */
  lemma SliceMarkerFree(s: string, a: nat, b: nat)
    requires a <= b <= |s|
    requires forall j :: a <= j < b ==> !MarkerAt(s, j)
    ensures MarkerFree(s[a..b])
  {
    var t := s[a..b];
    forall j | 0 <= j < |t| ensures !MarkerAt(t, j) {
      assert !MarkerAt(s, a + j);
      assert t[j] == s[a + j];
      if j + 6 <= |t| {
        SliceOfSlice(s, a, b, j, j + 6);
      }
    }
  }

  /** A normalised label is trimmed and contains neither a hyphen nor CABANG;
      it may be empty, as for "CABANG X". */
  lemma NormalizeStripsMarkers(text: Option<string>)
    ensures IsTrimmed(Normalize(text)) && MarkerFree(Normalize(text))
    ensures !Contains(Normalize(text), "-") && !Contains(Normalize(text), "CABANG")
  {
    if text == None || text.value == "" {
      assert MarkerFree(Others);
    } else {
      var t := text.value;
      var c := CutIndex(t, 0);
      var p := t[..c];
      TrimIsSlice(p);
      var a := |p| - |TrimStart(p)|;
      var r := Trim(p);
      assert r == t[a..a + |r|];
      SliceMarkerFree(t, a, a + |r|);
    }
    MarkerFreeMeansNoMarker(Normalize(text));
  }

  /** A non-empty label is its own label. */
  lemma NormalizeIdempotent(text: Option<string>)
    ensures Normalize(text) != "" ==> Normalize(Some(Normalize(text))) == Normalize(text)
  {
    var r := Normalize(text);
    NormalizeStripsMarkers(text);
    if r != "" {
      assert CutIndex(r, 0) == |r|;
      assert r[..|r|] == r;
      TrimOfTrimmed(r);
    }
  }

  /** The branch marker at the very start leaves an empty label, not "Others". */
  lemma NormalizeBranchFirst(s: string)
    requires s != "" && OccursAt(s, "CABANG", 0)
    ensures Normalize(Some(s)) == ""
  {
    assert MarkerAt(s, 0);
  }

  // ----------------------------------------------------------- aggregation

  /** The department bucket: the division for head office, the department for
      a branch, "Others" for any other classification (a SITE or CONTRACTOR
      employee included). */
  function DepartmentBucket(e: Employee): string {
    if e.classification == Some("HO") then Normalize(e.division)
    else if e.classification == Some("Branch") then Normalize(e.department)
    else Others
  }

  function DepartmentLabels(data: seq<Employee>): (ls: seq<string>)
    ensures |ls| == |data| && forall i :: 0 <= i < |data| ==> ls[i] == DepartmentBucket(data[i])
  {
    seq(|data|, i requires 0 <= i < |data| => DepartmentBucket(data[i]))
  }

  function SiteLabels(data: seq<Employee>): (ls: seq<string>)
    ensures |ls| == |data| && forall i :: 0 <= i < |data| ==> ls[i] == Normalize(data[i].site)
  {
    seq(|data|, i requires 0 <= i < |data| => Normalize(data[i].site))
  }

  function DirectorateLabels(data: seq<Employee>): (ls: seq<string>)
    ensures |ls| == |data| && forall i :: 0 <= i < |data| ==> ls[i] == Normalize(data[i].directorate)
  {
    seq(|data|, i requires 0 <= i < |data| => Normalize(data[i].directorate))
  }

  /** `count[label] = (count[label] || 0) + 1`. */
  function Bump(count: map<string, nat>, key: string): map<string, nat> {
    count[key := (if key in count then count[key] else 0) + 1]
  }

  /** The frequency dictionary built by bumping every label in turn. */
  function Tally(labels: seq<string>): map<string, nat> {
    if |labels| == 0 then map[]
    else Bump(Tally(labels[..|labels| - 1]), labels[|labels| - 1])
  }

  /** One entry per distinct label, holding how often it occurs. */
  lemma {:induction false} TallyCounts(labels: seq<string>)
    ensures forall k :: k in Tally(labels) <==> k in labels
    ensures forall k :: k in Tally(labels) ==> Tally(labels)[k] == multiset(labels)[k] && Tally(labels)[k] >= 1
  {
    if |labels| > 0 {
      var n := |labels| - 1;
      TallyCounts(labels[..n]);
      assert labels == labels[..n] + [labels[n]];
      assert multiset(labels) == multiset(labels[..n]) + multiset{labels[n]};
    }
  }

  /** Counting one more label bumps that label's count. */
  lemma TallySnoc(labels: seq<string>, i: nat)
    requires i < |labels|
    ensures Tally(labels[..i + 1]) == Bump(Tally(labels[..i]), labels[i])
  {
    assert labels[..i + 1][..i] == labels[..i];
  }

  ghost function PickKey(m: map<string, nat>): string
    requires |m| > 0
  {
    var k :| k in m; k
  }

  lemma RemoveKeyShrinks(m: map<string, nat>, k: string)
    requires k in m
    ensures |m - {k}| == |m| - 1
  {
    assert (m - {k}).Keys == m.Keys - {k};
  }

  /** The sum of the counts of a distribution. */
  ghost function SumCounts(m: map<string, nat>): nat
    decreases |m|
  {
    if |m| == 0 then 0
    else
      var k := PickKey(m);
      RemoveKeyShrinks(m, k);
      m[k] + SumCounts(m - {k})
  }

  /** The counts of a dictionary that agrees with a multiset add up to its size. */
  lemma {:induction false} SumCountsOfMultiset(m: map<string, nat>, ms: multiset<string>)
    requires forall k :: k in m ==> m[k] == ms[k]
    requires forall k :: k in ms ==> k in m
    ensures SumCounts(m) == |ms|
    decreases |m|
  {
    if |m| == 0 {
      assert forall k :: k !in ms;
      assert ms == multiset{};
    } else {
      var k := PickKey(m);
      RemoveKeyShrinks(m, k);
      var rest := ms[k := 0];
      var mine := multiset{}[k := ms[k]];
      assert ms == rest + mine;
      SumCountsOfMultiset(m - {k}, rest);
    }
  }

  /** Every player is counted exactly once in a distribution. */
  lemma TallySum(labels: seq<string>)
    ensures SumCounts(Tally(labels)) == |labels|
  {
    var m := Tally(labels);
    TallyCounts(labels);
    SumCountsOfMultiset(m, multiset(labels));
  }

  /** `(count / totalPlayers) * 100`, before formatting. */
  function Percentage(count: nat, total: nat): (p: real)
    requires total > 0
    ensures p * (total as real) == (count as real) * 100.0
  {
    (count as real) / (total as real) * 100.0
  }

  ghost function SumPercentages(m: map<string, nat>, total: nat): real
    requires total > 0
    decreases |m|
  {
    if |m| == 0 then 0.0
    else
      var k := PickKey(m);
      RemoveKeyShrinks(m, k);
      Percentage(m[k], total) + SumPercentages(m - {k}, total)
  }

  /** Summing the percentages of a distribution gives the percentage of its total count. */
  lemma {:induction false} SumPercentagesOfSum(m: map<string, nat>, total: nat)
    requires total > 0
    ensures SumPercentages(m, total) == Percentage(SumCounts(m), total)
    decreases |m|
  {
    if |m| > 0 {
      var k := PickKey(m);
      RemoveKeyShrinks(m, k);
      SumPercentagesOfSum(m - {k}, total);
      PercentageAdditive(m[k], SumCounts(m - {k}), total);
    }
  }

  lemma PercentageAdditive(a: nat, b: nat, total: nat)
    requires total > 0
    ensures Percentage(a, total) + Percentage(b, total) == Percentage(a + b, total)
  {
    var t := total as real;
    assert (a as real) / t + (b as real) / t == ((a + b) as real) / t;
  }

  /** The percentages of one distribution add up to 100 (before rounding). */
  lemma PercentagesSumTo100(labels: seq<string>)
    requires |labels| > 0
    ensures SumPercentages(Tally(labels), |labels|) == 100.0
  {
    var m := Tally(labels);
    TallySum(labels);
    SumPercentagesOfSum(m, |labels|);
    PercentageOfWhole(|labels|);
  }

  lemma PercentageOfWhole(total: nat)
    requires total > 0
    ensures Percentage(total, total) == 100.0
  {
    var t := total as real;
    assert t / t == 1.0;
  }

  /** What `generateMetaData` returns: `{}` for no records, otherwise the
      winner as given and the three distributions. */
  datatype MetaData =
    | NoMetaData
    | MetaData(winner: Employee, departments: map<string, nat>, sites: map<string, nat>,
               directorates: map<string, nat>, totalPlayers: nat)

  function MetaDataOf(data: seq<Employee>, rankOne: Employee): MetaData {
    if |data| == 0 then NoMetaData
    else MetaData(rankOne, Tally(DepartmentLabels(data)), Tally(SiteLabels(data)),
                  Tally(DirectorateLabels(data)), |data|)
  }

  /** `m` is a frequency distribution of `labels`: every label appears in
      it, every count is at least one, and the counts add up to the number
      of labels (so no label is counted twice). */
  ghost predicate IsDistributionOf(m: map<string, nat>, labels: seq<string>) {
    && SumCounts(m) == |labels|
    && (forall k :: k in m ==> m[k] >= 1)
    && (forall i :: 0 <= i < |labels| ==> labels[i] in m)
  }

  lemma TallyIsDistribution(labels: seq<string>)
    ensures IsDistributionOf(Tally(labels), labels)
  {
    TallySum(labels);
    TallyCounts(labels);
  }

  /** A non-empty result reports the winner it was given and one
      distribution per dimension over all fetched records. */
  lemma MetaDataDistributions(data: seq<Employee>, rankOne: Employee)
    requires |data| > 0
    ensures var md := MetaDataOf(data, rankOne);
      && md.MetaData? && md.winner == rankOne && md.totalPlayers == |data|
      && IsDistributionOf(md.departments, DepartmentLabels(data))
      && IsDistributionOf(md.sites, SiteLabels(data))
      && IsDistributionOf(md.directorates, DirectorateLabels(data))
  {
    TallyIsDistribution(DepartmentLabels(data));
    TallyIsDistribution(SiteLabels(data));
    TallyIsDistribution(DirectorateLabels(data));
  }

  /** `generateMetaData`: counts the normalised records into the three dictionaries. */
  method GenerateMetaData(data: seq<Employee>, rankOne: Employee) returns (meta: MetaData)
    ensures meta == MetaDataOf(data, rankOne)
  {
    if |data| == 0 {
      return NoMetaData;
    }
    var departmentCount: map<string, nat> := map[];
    var siteCount: map<string, nat> := map[];
    var directorateCount: map<string, nat> := map[];
    ghost var depts, sites, dirs := DepartmentLabels(data), SiteLabels(data), DirectorateLabels(data);
    for i := 0 to |data|
      invariant departmentCount == Tally(depts[..i])
      invariant siteCount == Tally(sites[..i])
      invariant directorateCount == Tally(dirs[..i])
    {
      var row := data[i];
      var department := if row.classification == Some("HO") then Normalize(row.division)
        else if row.classification == Some("Branch") then Normalize(row.department)
        else Others;
      var site := Normalize(row.site);
      var directorate := Normalize(row.directorate);
      assert department == depts[i] && site == sites[i] && directorate == dirs[i];
      TallySnoc(depts, i);
      TallySnoc(sites, i);
      TallySnoc(dirs, i);
      departmentCount := Bump(departmentCount, department);
      siteCount := Bump(siteCount, site);
      directorateCount := Bump(directorateCount, directorate);
    }
    assert depts[..|data|] == depts;
    assert sites[..|data|] == sites;
    assert dirs[..|data|] == dirs;
    meta := MetaData(rankOne, departmentCount, siteCount, directorateCount, |data|);
  }

  // ---------------------------------------------------------- result state

  /** The component's result state: the parsed rows, the fetched records and
      the metadata, all replaced by each successful run. */
  class StatsProcessor {
    var parsedData: seq<Row>
    var actualData: seq<Employee>
    var metaData: MetaData

    constructor ()
      ensures parsedData == [] && actualData == [] && metaData == NoMetaData
    {
      parsedData := [];
      actualData := [];
      metaData := NoMetaData;
    }

    /** `parseTextData`. `store` answers the one bulk lookup by uid (a failed
        lookup answers `[]`); `lookup` is the key list sent, `None` when the
        text was blank and nothing was looked up. */
    method Process(rawText: string, store: seq<Option<string>> -> seq<Employee>)
      returns (lookup: Option<seq<Option<string>>>)
      modifies this
      ensures IsBlank(rawText) ==>
        && lookup == None
        && parsedData == old(parsedData) && actualData == old(actualData) && metaData == old(metaData)
      ensures !IsBlank(rawText) ==>
        var rows := ParsedRows(rawText);
        && lookup == Some(LookupKeys(rows))
        && parsedData == rows
        && actualData == store(LookupKeys(rows))
        && metaData == MetaDataOf(actualData, ResolveWinner(rows, actualData))
    {
      TrimEmptyIffBlank(rawText);
      if Trim(rawText) == "" {
        return None;
      }
      var data := ParseText(rawText);
      parsedData := data;
      var uids := Filter(Players(data), k => k != Some(NotAvailable));
      lookup := Some(uids);
      var fetched := store(uids);
      actualData := fetched;
      var winner := FindByUid(fetched, RankKey(data, 0));
      if winner.None? {
        winner := FindByUid(fetched, RankKey(data, 1));
      }
      if winner.None? {
        winner := FindByUid(fetched, RankKey(data, 2));
      }
      var rankOne := if winner.Some? then winner.value else Placeholder;
      var meta := GenerateMetaData(fetched, rankOne);
      metaData := meta;
    }
  }

}

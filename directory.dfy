/** The employee directory screen: the search it sends, the page of results it
    shows, the duplicate-UID report, the site list and the UID reset. */
module Directory {
  import opened Optional
  import opened Text
  import opened Employees

  // ------------------------------------------------------------ duplicates

  /** The grouping key of a record: its lower-cased `uid`, or none when the
      `uid` is missing or empty (such records are passed over). */
  function KeyOf(e: Employee): Option<string> {
    match e.uid
    case Some(u) => if u != "" then Some(Lower(u)) else None
    case None => None
  }

  /** The records with key `k`, in the order `reduce` pushes them. */
  function GroupOf(xs: seq<Employee>, k: string): seq<Employee> {
    if |xs| == 0 then []
    else
      var last := xs[|xs| - 1];
      GroupOf(xs[..|xs| - 1], k) + (if KeyOf(last) == Some(k) then [last] else [])
  }

  /** A group holds each record with its key as often as the list does, and
      nothing else. */
  lemma {:induction false} GroupContents(xs: seq<Employee>, k: string, e: Employee)
    ensures multiset(GroupOf(xs, k))[e] == if KeyOf(e) == Some(k) then multiset(xs)[e] else 0
  {
    if |xs| > 0 {
      var n := |xs| - 1;
      GroupContents(xs[..n], k, e);
      assert xs == xs[..n] + [xs[n]];
    }
  }

  /** Grouping a concatenation keeps the records of the first part ahead of
      those of the second. */
  lemma {:induction false} GroupOfAppend(a: seq<Employee>, b: seq<Employee>, k: string)
    ensures GroupOf(a + b, k) == GroupOf(a, k) + GroupOf(b, k)
  {
    if |b| > 0 {
      var n := |b| - 1;
      assert (a + b)[..|a + b| - 1] == a + b[..n];
      GroupOfAppend(a, b[..n], k);
    } else {
      assert a + b == a;
    }
  }

  /** Two records land in the same group exactly when their uids agree after
      lower-casing (and are present). */
  lemma SameGroupIff(xs: seq<Employee>, i: nat, j: nat)
    requires i < |xs| && j < |xs|
    ensures (exists k :: xs[i] in GroupOf(xs, k) && xs[j] in GroupOf(xs, k))
            <==> KeyOf(xs[i]).Some? && KeyOf(xs[i]) == KeyOf(xs[j])
  {
    assert xs[i] in multiset(xs) && xs[j] in multiset(xs);
    if KeyOf(xs[i]).Some? && KeyOf(xs[i]) == KeyOf(xs[j]) {
      var k := KeyOf(xs[i]).value;
      GroupContents(xs, k, xs[i]);
      GroupContents(xs, k, xs[j]);
      assert xs[i] in multiset(GroupOf(xs, k));
      assert xs[j] in multiset(GroupOf(xs, k));
    }
    forall k | xs[i] in GroupOf(xs, k) && xs[j] in GroupOf(xs, k)
      ensures KeyOf(xs[i]) == Some(k) == KeyOf(xs[j])
    {
      GroupContents(xs, k, xs[i]);
      GroupContents(xs, k, xs[j]);
      assert xs[i] in multiset(GroupOf(xs, k));
      assert xs[j] in multiset(GroupOf(xs, k));
    }
  }

  /** A record without a uid is in no group; a record with one is in its
      own key's group and in no other. */
  lemma GroupMembership(xs: seq<Employee>, i: nat)
    requires i < |xs|
    ensures KeyOf(xs[i]) == None ==> forall k :: xs[i] !in GroupOf(xs, k)
    ensures KeyOf(xs[i]).Some? ==> xs[i] in GroupOf(xs, KeyOf(xs[i]).value)
    ensures forall k :: KeyOf(xs[i]) != Some(k) ==> xs[i] !in GroupOf(xs, k)
  {
    assert xs[i] in multiset(xs);
    forall k ensures xs[i] in GroupOf(xs, k) <==> KeyOf(xs[i]) == Some(k) {
      GroupContents(xs, k, xs[i]);
      assert xs[i] in GroupOf(xs, k) <==> xs[i] in multiset(GroupOf(xs, k));
    }
  }

  /** `findDuplicates`: the groups of more than one record, keyed by the
      lower-cased uid they share. */
  method FindDuplicates(employees: seq<Employee>) returns (groups: map<string, seq<Employee>>)
    ensures forall k :: k in groups <==> |GroupOf(employees, k)| > 1
    ensures forall k :: k in groups ==> groups[k] == GroupOf(employees, k)
  {
    var acc: map<string, seq<Employee>> := map[];
    for i := 0 to |employees|
      invariant forall k :: k in acc <==> |GroupOf(employees[..i], k)| > 0
      invariant forall k :: k in acc ==> acc[k] == GroupOf(employees[..i], k)
    {
      var current := employees[i];
      assert employees[..i + 1][..i] == employees[..i];
      match KeyOf(current) {
        case None =>
        case Some(key) =>
          if key !in acc {
            acc := acc[key := []];
          }
          acc := acc[key := acc[key] + [current]];
      }
    }
    assert employees[..|employees|] == employees;
    groups := map k | k in acc && |acc[k]| > 1 :: acc[k];
  }

  // ------------------------------------------------------------ pagination

  const ItemsPerPage := 10

  /** `(currentPage - 1) * itemsPerPage`. */
  function StartIndex(page: int): int {
    (page - 1) * ItemsPerPage
  }

  /** `Math.ceil(employees.length / itemsPerPage)`. */
  function TotalPages(n: nat): (pages: nat)
    ensures pages * ItemsPerPage >= n
    ensures n > 0 ==> (pages - 1) * ItemsPerPage < n
    ensures n == 0 <==> pages == 0
  {
    (n + ItemsPerPage - 1) / ItemsPerPage
  }

  /** `employees.slice(startIndex, startIndex + itemsPerPage)`; a start past
      the end gives the empty page, as `slice` clamps. */
  function PageSlice(xs: seq<Employee>, page: int): (rows: seq<Employee>)
    requires page >= 1
    ensures |rows| <= ItemsPerPage
    ensures forall j :: 0 <= j < |rows| ==> StartIndex(page) + j < |xs| && rows[j] == xs[StartIndex(page) + j]
    ensures StartIndex(page) < |xs| ==> |rows| == ShownTo(page, |xs|) - StartIndex(page)
  {
    var from := if StartIndex(page) < |xs| then StartIndex(page) else |xs|;
    var to := if StartIndex(page) + ItemsPerPage < |xs| then StartIndex(page) + ItemsPerPage else |xs|;
    xs[from..to]
  }

  /** The "to" figure of "Showing … to … of …": `Math.min(startIndex + itemsPerPage, n)`. */
  function ShownTo(page: int, n: nat): int {
    if StartIndex(page) + ItemsPerPage < n then StartIndex(page) + ItemsPerPage else n
  }

  /** Every record is shown on exactly one page, the one its index falls in,
      and that page exists. */
  lemma PagesCover(xs: seq<Employee>, i: nat)
    requires i < |xs|
    ensures 1 <= i / ItemsPerPage + 1 <= TotalPages(|xs|)
    ensures PageSlice(xs, i / ItemsPerPage + 1)[i % ItemsPerPage] == xs[i]
    ensures forall page :: page >= 1 && page != i / ItemsPerPage + 1 ==>
              !(StartIndex(page) <= i < StartIndex(page) + |PageSlice(xs, page)|)
  {
    var page := i / ItemsPerPage + 1;
    assert StartIndex(page) == i - i % ItemsPerPage;
    forall p | p >= 1 && p != page
      ensures !(StartIndex(p) <= i < StartIndex(p) + |PageSlice(xs, p)|)
    {
      if p < page {
        assert StartIndex(p) + ItemsPerPage <= StartIndex(page);
      } else {
        assert StartIndex(p) >= StartIndex(page) + ItemsPerPage;
      }
    }
  }

  /** Previous: `Math.max(prev - 1, 1)`. */
  function PreviousPage(page: int): (p: int)
    ensures p >= 1
    ensures page > 1 ==> p == page - 1
  {
    if page - 1 > 1 then page - 1 else 1
  }

  /** Next: `Math.min(prev + 1, totalPages)`. */
  function NextPage(page: int, total: nat): (p: int)
    ensures p <= total
    ensures page < total ==> p == page + 1
  {
    if page + 1 < total then page + 1 else total
  }

  // -------------------------------------------------------------- the query

  datatype SearchType = ByUid | ByEmpid

  /** The id condition `handleSearch` adds to the query. */
  datatype IdFilter =
    | NoIdFilter
    | UidLike(pattern: string)     // ilike "uid" '%pattern%'
    | EmpidEquals(value: int)      // eq "empid" parseInt(value)
    | EmpidLike(pattern: string)   // like "empid::text" '%pattern%'

  /** The conditions sent besides `uid is not null and uid <> ''`. */
  datatype Query = Query(id: IdFilter, site: Option<string>)

  /** The integer a numeric query denotes: an optional sign and decimal digits. */
  function NumericValue(s: string): (v: Option<int>)
    ensures v.Some? ==> 0 < |s|
  {
    if |s| > 0 && (s[0] == '-' || s[0] == '+') && IsDigits(s[1..]) then
      var magnitude: int := DigitsValue(s[1..]);
      Some(if s[0] == '-' then -magnitude else magnitude)
    else if IsDigits(s) then Some(DigitsValue(s))
    else None
  }

  /** The text of a number reads back as that number. */
  lemma NumericValueOfInt(n: int)
    ensures NumericValue(IntToString(n)) == Some(n)
  {
    if n < 0 {
      NatToStringRoundTrip(-n);
      assert IntToString(n)[1..] == NatToString(-n);
    } else {
      NatToStringRoundTrip(n);
      var s := NatToString(n);
      assert IsDigit(s[0]);
    }
  }

  /** The filter choice of `handleSearch`. */
  function BuildQuery(searchQuery: string, searchType: SearchType, siteFilter: string): Query {
    var value := Trim(searchQuery);
    var id :=
      if value == "" then NoIdFilter
      else if searchType == ByUid then UidLike(value)
      else match NumericValue(value) {
        case Some(n) => EmpidEquals(n)
        case None => EmpidLike(value)
      };
    Query(id, if siteFilter != "" then Some(siteFilter) else None)
  }

  /** What the query asks the table for: a record with a uid that meets the
      id condition and, when one is chosen, has the site. */
  predicate Selects(q: Query, e: Employee) {
    && KeyOf(e).Some?
    && match q.id {
         case NoIdFilter => true
         case UidLike(p) => Contains(Lower(e.uid.value), Lower(p))
         case EmpidEquals(n) => NumericValue(e.empid) == Some(n)
         case EmpidLike(p) => Contains(e.empid, p)
       }
    && (q.site.Some? ==> e.site == q.site)
  }

  /** With a blank query and no site every record that has a uid is asked for,
      and only those. */
  lemma BlankSearchSelectsAllWithUid(searchQuery: string, searchType: SearchType, e: Employee)
    requires IsBlank(searchQuery)
    ensures Selects(BuildQuery(searchQuery, searchType, ""), e) <==> e.uid.Some? && e.uid.value != ""
  {
    TrimEmptyIffBlank(searchQuery);
  }

  /** A chosen site narrows the search to that site and never widens it. */
  lemma SiteFilterNarrows(searchQuery: string, searchType: SearchType, site: string, e: Employee)
    requires site != ""
    ensures Selects(BuildQuery(searchQuery, searchType, site), e)
            <==> Selects(BuildQuery(searchQuery, searchType, ""), e) && e.site == Some(site)
  {
  }

  /** Typing a record's own uid, with any blanks around it and in any ASCII
      case, finds that record. */
  lemma UidSearchFindsRecord(searchQuery: string, e: Employee)
    requires KeyOf(e).Some?
    requires Lower(Trim(searchQuery)) == Lower(Trim(e.uid.value))
    ensures Selects(BuildQuery(searchQuery, ByUid, ""), e)
  {
    var value := Trim(searchQuery);
    if value != "" {
      assert BuildQuery(searchQuery, ByUid, "") == Query(UidLike(value), None);
      TrimmedOccursIgnoringCase(searchQuery, e.uid.value);
    }
  }

  /** Typing the number of a record's employee id finds that record. */
  lemma EmpidSearchFindsRecord(n: int, e: Employee)
    requires KeyOf(e).Some?
    requires e.empid == IntToString(n)
    ensures Selects(BuildQuery(IntToString(n), ByEmpid, ""), e)
  {
    NumericValueOfInt(n);
    TrimOfTrimmed(IntToString(n));
  }

  // ------------------------------------------------------------ site list

  /** `[...new Set(data.map(emp => emp.site).filter(Boolean))]`. */
  function UniqueSites(sites: seq<Column>): seq<string> {
    if |sites| == 0 then []
    else
      var prior := UniqueSites(sites[..|sites| - 1]);
      match sites[|sites| - 1]
      case Some(s) => if s != "" && s !in prior then prior + [s] else prior
      case None => prior
  }

  /** The site list holds every non-empty site once, in order of first
      appearance. */
  lemma {:induction false} UniqueSitesFacts(sites: seq<Column>)
    ensures forall i, j :: 0 <= i < j < |UniqueSites(sites)| ==> UniqueSites(sites)[i] != UniqueSites(sites)[j]
    ensures forall s :: s in UniqueSites(sites) <==> s != "" && Some(s) in sites
    ensures forall i, j, q :: 0 <= i < j < |UniqueSites(sites)| && 0 <= q < |sites| && sites[q] == Some(UniqueSites(sites)[j])
              ==> Some(UniqueSites(sites)[i]) in sites[..q]
  {
    if |sites| > 0 {
      var n := |sites| - 1;
      UniqueSitesFacts(sites[..n]);
      assert sites == sites[..n] + [sites[n]];
      var prior := UniqueSites(sites[..n]);
      var r := UniqueSites(sites);
      forall i, j, q | 0 <= i < j < |r| && 0 <= q < |sites| && sites[q] == Some(r[j])
        ensures Some(r[i]) in sites[..q]
      {
        if j < |prior| {
          if q < n {
            assert sites[..n][q] == sites[q];
            assert sites[..n][..q] == sites[..q];
          } else {
            assert r[i] in prior;
            var p :| 0 <= p < n && sites[..n][p] == Some(r[i]);
            assert sites[..q][p] == Some(r[i]);
          }
        } else {
          assert r[j] !in prior;
          assert q == n;
          assert r[i] in prior;
          var p :| 0 <= p < n && sites[..n][p] == Some(r[i]);
          assert sites[..q][p] == Some(r[i]);
        }
      }
    }
  }

  // ------------------------------------------------------------- UID reset

  /** `employees.map(emp => emp.empid === employee.empid ? {...emp, uid: null, password: null} : emp)`. */
  function ResetList(xs: seq<Employee>, empid: string): (ys: seq<Employee>)
    ensures |ys| == |xs|
  {
    seq(|xs|, i requires 0 <= i < |xs| =>
      if xs[i].empid == empid then xs[i].(uid := None, password := None) else xs[i])
  }

  /** The reset clears uid and password of the records with that id, keeps
      everything else about them and leaves every other record as it was. */
  lemma ResetOnlyTouchesEmpid(xs: seq<Employee>, empid: string, i: nat)
    requires i < |xs|
    ensures xs[i].empid != empid ==> ResetList(xs, empid)[i] == xs[i]
    ensures xs[i].empid == empid ==>
              ResetList(xs, empid)[i] == xs[i].(uid := None, password := None)
              && ResetList(xs, empid)[i].uid == None && ResetList(xs, empid)[i].password == None
  {
  }

  /** Resetting twice is resetting once. */
  lemma ResetIdempotent(xs: seq<Employee>, empid: string)
    ensures ResetList(ResetList(xs, empid), empid) == ResetList(xs, empid)
  {
  }

  /** After a reset no record with that id is in any duplicate group. */
  lemma ResetLeavesNoDuplicate(xs: seq<Employee>, empid: string, k: string)
    ensures forall e :: e in GroupOf(ResetList(xs, empid), k) ==> e.empid != empid
  {
    var ys := ResetList(xs, empid);
    forall e | e in GroupOf(ys, k) ensures e.empid != empid {
      GroupContents(ys, k, e);
      assert e in multiset(GroupOf(ys, k));
      assert e in multiset(ys);
      var i :| 0 <= i < |ys| && ys[i] == e;
    }
  }

  // ----------------------------------------------------------- the screen

  /** The outcome of the `employees` select. */
  datatype Response = Rows(data: seq<Employee>) | QueryError | Threw

  const FetchFailed := "Failed to fetch employees. Please try again."
  const SearchFailed := "An error occurred during search."
  const LoginFailed := "Invalid email or password. Please try again."

  /** The search screen's state. */
  class EmployeeDirectory {
    var signedIn: bool
    var employees: seq<Employee>
    var searchQuery: string
    var searchType: SearchType
    var siteFilter: string
    var currentPage: int
    var hasSearched: bool
    var error: string
    var uniqueSites: seq<string>

    /** The current page is a real page of the list whenever there is a list. */
    ghost predicate Valid()
      reads this
    {
      currentPage >= 1 && (|employees| > 0 ==> currentPage <= TotalPages(|employees|))
    }

    constructor()
      ensures Valid()
      ensures !signedIn && employees == [] && searchQuery == "" && searchType == ByUid
      ensures siteFilter == "" && currentPage == 1 && !hasSearched && error == "" && uniqueSites == []
    {
      signedIn := false;
      employees := [];
      searchQuery := "";
      searchType := ByUid;
      siteFilter := "";
      currentPage := 1;
      hasSearched := false;
      error := "";
      uniqueSites := [];
    }

    /** The session check on load: signed in exactly when a session was found. */
    method CheckSession(session: bool)
      requires Valid()
      modifies this`signedIn
      ensures Valid() && signedIn == session
    {
      signedIn := session;
    }

    /** `handleLogin`: a successful sign-in opens the session and clears the
        error; a refused one keeps the session and shows the error. */
    method Login(succeeded: bool)
      requires Valid()
      modifies this`signedIn, this`error
      ensures Valid()
      ensures succeeded ==> signedIn && error == ""
      ensures !succeeded ==> signedIn == old(signedIn) && error == LoginFailed
    {
      if succeeded {
        signedIn := true;
        error := "";
      } else {
        error := LoginFailed;
      }
    }

    /** `handleLogout`: the session is closed. */
    method Logout()
      requires Valid()
      modifies this`signedIn
      ensures Valid() && !signedIn
    {
      signedIn := false;
    }

    /** Typing in the search box. */
    method SetSearchQuery(query: string)
      requires Valid()
      modifies this`searchQuery
      ensures Valid() && searchQuery == query
    {
      searchQuery := query;
    }

    /** Choosing what the search box searches by. */
    method SetSearchType(kind: SearchType)
      requires Valid()
      modifies this`searchType
      ensures Valid() && searchType == kind
    {
      searchType := kind;
    }

    /** Choosing a site, or "" for all sites. */
    method SetSiteFilter(site: string)
      requires Valid()
      modifies this`siteFilter
      ensures Valid() && siteFilter == site
    {
      siteFilter := site;
    }

    /** `handleSearch`: nothing without a session; otherwise it sends the
        query built from the inputs, and a successful answer replaces the list
        and goes back to page 1. */
    method Search(response: Response) returns (sent: Option<Query>)
      requires Valid()
      modifies this
      ensures Valid()
      ensures !old(signedIn) ==> sent == None && unchanged(this)
      ensures old(signedIn) ==> sent == Some(BuildQuery(searchQuery, searchType, siteFilter)) && hasSearched
      ensures old(signedIn) && response.Rows? ==>
                employees == response.data && currentPage == 1 && error == ""
      ensures old(signedIn) && !response.Rows? ==>
                employees == old(employees) && currentPage == old(currentPage)
                && error == (if response.QueryError? then FetchFailed else SearchFailed)
      ensures signedIn == old(signedIn) && searchQuery == old(searchQuery)
      ensures searchType == old(searchType) && siteFilter == old(siteFilter)
      ensures uniqueSites == old(uniqueSites)
    {
      if !signedIn {
        return None;
      }
      hasSearched := true;
      sent := Some(BuildQuery(searchQuery, searchType, siteFilter));
      match response {
        case Rows(data) =>
          employees := data;
          currentPage := 1;
          error := "";
        case QueryError =>
          error := FetchFailed;
        case Threw =>
          error := SearchFailed;
      }
    }

    /** `removeUidAndPassword` once the user confirmed: when the update
        succeeds the local list drops the uid and password of every record
        with that id and the record is returned without them; otherwise
        nothing changes and the record comes back as it was. */
    method ResetUid(employee: Employee, updated: bool) returns (result: Employee)
      requires Valid()
      modifies this
      ensures Valid()
      ensures updated ==> employees == ResetList(old(employees), employee.empid)
      ensures updated ==> result == employee.(uid := None, password := None)
      ensures !updated ==> employees == old(employees) && result == employee
      ensures currentPage == old(currentPage) && error == old(error) && hasSearched == old(hasSearched)
      ensures signedIn == old(signedIn) && searchQuery == old(searchQuery) && searchType == old(searchType)
      ensures siteFilter == old(siteFilter) && uniqueSites == old(uniqueSites)
    {
      if !updated {
        return employee;
      }
      employees := ResetList(employees, employee.empid);
      result := employee.(uid := None, password := None);
    }

    /** `clearFilters`: inputs back to their defaults and no results. */
    method ClearFilters()
      requires Valid()
      modifies this
      ensures Valid()
      ensures searchQuery == "" && siteFilter == "" && searchType == ByUid
      ensures employees == [] && !hasSearched && error == ""
      ensures currentPage == old(currentPage) && signedIn == old(signedIn) && uniqueSites == old(uniqueSites)
    {
      searchQuery := "";
      siteFilter := "";
      searchType := ByUid;
      employees := [];
      hasSearched := false;
      error := "";
    }

    /** The Previous button, shown with the results. */
    method Previous()
      requires Valid() && hasSearched && |employees| > 0
      modifies this`currentPage
      ensures Valid()
      ensures currentPage == PreviousPage(old(currentPage))
    {
      currentPage := PreviousPage(currentPage);
    }

    /** The Next button, shown with the results. */
    method Next()
      requires Valid() && hasSearched && |employees| > 0
      modifies this`currentPage
      ensures Valid()
      ensures currentPage == NextPage(old(currentPage), TotalPages(|employees|))
    {
      currentPage := NextPage(currentPage, TotalPages(|employees|));
    }

    /** The site list fetched once signed in; an error leaves it as it was. */
    method LoadSites(response: Option<seq<Column>>)
      modifies this`uniqueSites
      ensures signedIn && response.Some? ==> uniqueSites == UniqueSites(response.value)
      ensures !(signedIn && response.Some?) ==> uniqueSites == old(uniqueSites)
    {
      if signedIn && response.Some? {
        uniqueSites := UniqueSites(response.value);
      }
    }
  }
}

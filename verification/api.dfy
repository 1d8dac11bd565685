/** The pure decisions of src/api.py: the two query parameter sets of a job,
    the paging rule and the page loop, the product-name variants, the
    relevance test of a CVE for a job, dropping jobs that found nothing, and
    the final sort and deduplication of a job's CVEs.

    HTTP is not modelled: the server is a function from the requested start
    index to the page it answers with, and the two formatted window bounds
    are parameters. */
module Api {
  import opened Outcomes
  import opened JsonValues
  import opened Text
  import opened Formatters
  import opened Seqs
  import opened Ordering
  import opened Sorting
  import opened Container
  import opened JobStates
  import opened Paging

  // ----- query parameters -----

  datatype Queries = Queries(pub: map<string, string>, mod: map<string, string>)

  const PubKeys: set<string> := {"pubStartDate", "pubEndDate"}
  const ModKeys: set<string> := {"modStartDate", "modEndDate"}
  const PageSize: string := "100"

  /** The two parameter sets before any override: the same window, once as
      the publication window and once as the modification window. */
  function DefaultQueries(start: string, end: string): Queries {
    Queries(map["pubStartDate" := start, "pubEndDate" := end, "resultsPerPage" := PageSize],
            map["modStartDate" := start, "modEndDate" := end, "resultsPerPage" := PageSize])
  }

  /** One turn of the override loop. */
  function Apply(q: Queries, p: Param): Queries {
    if p.name in PubKeys then q.(pub := q.pub[p.name := p.value])
    else if p.name in ModKeys then q.(mod := q.mod[p.name := p.value])
    else Queries(q.pub[p.name := p.value], q.mod[p.name := p.value])
  }

  function ApplyAll(q: Queries, ps: seq<Param>): Queries
    decreases |ps|
  {
    if |ps| == 0 then q else ApplyAll(Apply(q, ps[0]), ps[1..])
  }

  /** `create_params(job)`, with `start` and `end` the formatted last run and
      current time. */
  function CreateParams(job: Job, start: string, end: string): Queries {
    ApplyAll(DefaultQueries(start, end), job.params)
  }

  /** The value the last parameter named `k` gives, if any. */
  function LastValue(ps: seq<Param>, k: string): Option<string> {
    if |ps| == 0 then None
    else
      match LastValue(ps[1..], k)
      case Some(v) => Some(v)
      case None => if ps[0].name == k then Some(ps[0].value) else None
  }

  /** What the override loop does to any starting pair of parameter sets:
      a publication-window key only reaches the first, a modification-window
      key only the second, and any other key reaches both, the last override
      winning. */
  lemma {:induction false} ApplyAllSpec(q: Queries, ps: seq<Param>, k: string)
    ensures k in ApplyAll(q, ps).pub <==> k in q.pub || (LastValue(ps, k).Some? && k !in ModKeys)
    ensures k in ApplyAll(q, ps).mod <==> k in q.mod || (LastValue(ps, k).Some? && k !in PubKeys)
    ensures k in ApplyAll(q, ps).pub ==>
              ApplyAll(q, ps).pub[k] == if LastValue(ps, k).Some? && k !in ModKeys then LastValue(ps, k).value else q.pub[k]
    ensures k in ApplyAll(q, ps).mod ==>
              ApplyAll(q, ps).mod[k] == if LastValue(ps, k).Some? && k !in PubKeys then LastValue(ps, k).value else q.mod[k]
    decreases |ps|
  {
    if |ps| > 0 {
      ApplyAllSpec(Apply(q, ps[0]), ps[1..], k);
    }
  }

  /** `create_params`: both queries ask for pages of "100" unless a parameter
      overrides it; the window bounds go to their own query only; every other
      parameter lands in both with the same value. */
  lemma CreateParamsSpec(job: Job, start: string, end: string, k: string)
    ensures var q := CreateParams(job, start, end);
            var v := LastValue(job.params, k);
            && (k in q.pub <==> k in {"pubStartDate", "pubEndDate", "resultsPerPage"} || (v.Some? && k !in ModKeys))
            && (k in q.mod <==> k in {"modStartDate", "modEndDate", "resultsPerPage"} || (v.Some? && k !in PubKeys))
            && (v.Some? && k !in PubKeys && k !in ModKeys ==> q.pub[k] == v.value && q.mod[k] == v.value)
            && (v.None? && k == "resultsPerPage" ==> q.pub[k] == PageSize && q.mod[k] == PageSize)
            && (v.None? && k in PubKeys ==> q.pub[k] == (if k == "pubStartDate" then start else end))
            && (v.None? && k in ModKeys ==> q.mod[k] == (if k == "modStartDate" then start else end))
  {
    ApplyAllSpec(DefaultQueries(start, end), job.params, k);
  }

  /** Without window overrides the modification window is the publication
      window. */
  lemma SameWindowByDefault(job: Job, start: string, end: string)
    requires forall i :: 0 <= i < |job.params| ==> job.params[i].name !in PubKeys + ModKeys
    ensures var q := CreateParams(job, start, end);
            && "pubStartDate" in q.pub && "pubEndDate" in q.pub
            && "modStartDate" in q.mod && "modEndDate" in q.mod
            && q.mod["modStartDate"] == q.pub["pubStartDate"] && q.mod["modEndDate"] == q.pub["pubEndDate"]
  {
    forall k | k in PubKeys + ModKeys ensures LastValue(job.params, k).None? {
      NoOverride(job.params, k);
    }
    CreateParamsSpec(job, start, end, "pubStartDate");
    CreateParamsSpec(job, start, end, "pubEndDate");
    CreateParamsSpec(job, start, end, "modStartDate");
    CreateParamsSpec(job, start, end, "modEndDate");
  }

  lemma {:induction false} NoOverride(ps: seq<Param>, k: string)
    requires forall i :: 0 <= i < |ps| ==> ps[i].name != k
    ensures LastValue(ps, k).None?
  {
    if |ps| > 0 {
      NoOverride(ps[1..], k);
    }
  }

  // ----- paging -----

  /** A value Python's arithmetic takes as a number: an int, or a bool as
      0 or 1. */
  predicate Numeric(j: Json) {
    j.JNum? || j.JBool?
  }

  function IntOf(j: Json): int
    requires Numeric(j)
  {
    match j
    case JNum(n) => n
    case JBool(b) => if b then 1 else 0
  }

  /** `data[key]` exists and is a number. */
  predicate NumAt(data: Json, key: string) {
    Subscript(data, key).Ok? && Numeric(Subscript(data, key).value)
  }

  function NumOf(data: Json, key: string): int
    requires NumAt(data, key)
  {
    IntOf(Subscript(data, key).value)
  }

  /** `get_next_index` on a page as the server sent it: the three
      subscripts in order, the first missing key raising KeyError (or
      TypeError when the page is not a dict), then the arithmetic, which
      raises TypeError unless all three values are numbers. */
  function PageNextIndex(data: Json): (r: Result<Option<int>>)
    ensures r.Ok? <==> NumAt(data, "resultsPerPage") && NumAt(data, "startIndex") && NumAt(data, "totalResults")
    ensures r.Ok? ==> r.value == GetNextIndex(NumOf(data, "resultsPerPage"), NumOf(data, "startIndex"),
                                              NumOf(data, "totalResults"))
    ensures data.JObj? && !HasKey(data.members, "resultsPerPage") ==> r == Err(KeyError)
    ensures !data.JObj? ==> r == Err(TypeError)
    ensures Status(r) ==
              AndThen(Status(Subscript(data, "resultsPerPage")),
              AndThen(Status(Subscript(data, "startIndex")),
              AndThen(Status(Subscript(data, "totalResults")),
                      if NumAt(data, "resultsPerPage") && NumAt(data, "startIndex") && NumAt(data, "totalResults")
                      then Ok(()) else Err(TypeError))))
  {
    var rpp :- Subscript(data, "resultsPerPage");
    var start :- Subscript(data, "startIndex");
    var total :- Subscript(data, "totalResults");
    if Numeric(rpp) && Numeric(start) && Numeric(total) then Ok(GetNextIndex(IntOf(rpp), IntOf(start), IntOf(total)))
    else Err(TypeError)
  }

  /** A boolean count is Python's int 1: a page saying `"resultsPerPage":
      true` of five results still asks for the next index, 1. */
  lemma BoolCountIsOne()
    ensures PageNextIndex(JObj([Member("resultsPerPage", JBool(true)), Member("startIndex", JNum(0)),
                                Member("totalResults", JNum(5))])) == Ok(Some(1))
  {
  }

  // ----- the page loop -----

  /** A server whose pages report the numbers the loop is driven by: the
      start index asked for, a fixed positive page size and a fixed total.
      A page may still be malformed. */
  ghost predicate Echoes(server: int -> Json, rpp: int, total: int) {
    forall i :: PageNextIndex(server(i)).Ok? ==> PageNextIndex(server(i)).value == GetNextIndex(rpp, i, total)
  }

  /** The reports of one page: `raw_data["result"]["CVE_Items"]`, parsed. */
  function ReportsOfPage(page: Json): (r: Result<seq<Report>>)
    ensures r.Ok? ==> && Subscript(page, "result").Ok?
                      && Subscript(Subscript(page, "result").value, "CVE_Items").Ok?
                      && Iterate(Subscript(Subscript(page, "result").value, "CVE_Items").value).Ok?
                      && MapAll(Iterate(Subscript(Subscript(page, "result").value, "CVE_Items").value).value, ParseReport) == r
    ensures Subscript(page, "result").Err? ==> r == Err(Subscript(page, "result").error)
    ensures Subscript(page, "result").Ok? ==>
              var items := Subscript(Subscript(page, "result").value, "CVE_Items");
              Status(r) ==
                AndThen(Status(items),
                AndThen(Status(Then(items, Iterate)),
                        Status(Then(Then(items, Iterate), ParseReports))))
  {
    var result :- Subscript(page, "result");
    var items :- Subscript(result, "CVE_Items");
    var list :- Iterate(items);
    ParseReports(list)
  }

  /** `[CVEReport(x) for x in items]`. */
  function ParseReports(items: seq<Json>): Result<seq<Report>> {
    MapAll(items, ParseReport)
  }

  /** `get_all_new_pages` against a server answering every start index. */
  method GetAllNewPages(server: int -> Json, rpp: int, total: int)
      returns (r: Result<seq<Report>>, starts: seq<int>, pages: seq<Json>)
    requires rpp > 0 && Echoes(server, rpp, total)
    ensures |starts| >= 1 && |pages| == |starts|
    ensures forall k :: 0 <= k < |starts| ==> starts[k] == k * rpp && pages[k] == server(starts[k])
    ensures forall k :: 0 <= k < |starts| - 1 ==>
              total - rpp > starts[k] + 1 && PageNextIndex(pages[k]).Ok? && ReportsOfPage(pages[k]).Ok?
    ensures r.Ok? <==> PageNextIndex(pages[|pages| - 1]).Ok? && ReportsOfPage(pages[|pages| - 1]).Ok?
    ensures r.Ok? ==> !(total - rpp > starts[|starts| - 1] + 1)
    ensures r.Ok? ==> |starts| * rpp >= total - 1
    ensures r.Ok? ==> ConcatAll(pages, ReportsOfPage) == r
  {
    r, starts, pages := PageLoop(server, PageNextIndex, ReportsOfPage, rpp, total);
    if r.Ok? {
      CoversAllButLast(|starts|, rpp, total);
    }
  }

  // ----- relevance of a CVE for a job -----

  /** The second spelling `extend_product_name_list` adds for a lower-cased
      product name: blanks become underscores; only when there is no blank do
      underscores become blanks; a name with neither has no second spelling. */
  function Variant(p: string): string {
    if ' ' in p then Replace(p, ' ', '_')
    else if '_' in p then Replace(p, '_', ' ')
    else p
  }

  /** `extend_product_name_list(job)`. */
  function ExtendProductNameList(products: seq<string>): (r: set<string>)
    ensures forall x :: x in r <==> exists i :: 0 <= i < |products| && (x == Lower(products[i]) || x == Variant(Lower(products[i])))
  {
    var lowered := set i | 0 <= i < |products| :: Lower(products[i]);
    var spaced := set p | p in lowered && ' ' in p :: Replace(p, ' ', '_');
    var underscored := set p | p in lowered && ' ' !in p && '_' in p :: Replace(p, '_', ' ');
    lowered + spaced + underscored
  }

  lemma LowerReplace(s: string, x: char, y: char)
    requires !('A' <= x <= 'Z') && !('a' <= x <= 'z') && !('A' <= y <= 'Z')
    ensures Lower(Replace(s, x, y)) == Replace(Lower(s), x, y)
  {
    forall i | 0 <= i < |s| ensures Lower(Replace(s, x, y))[i] == Replace(Lower(s), x, y)[i] {
    }
  }

  /** Every name the extended list holds is in lower case. */
  lemma ExtendedNamesAreLower(products: seq<string>, x: string)
    requires x in ExtendProductNameList(products)
    ensures Lower(x) == x
  {
    var i :| 0 <= i < |products| && (x == Lower(products[i]) || x == Variant(Lower(products[i])));
    var p := Lower(products[i]);
    LowerIdempotent(products[i]);
    LowerReplace(p, ' ', '_');
    LowerReplace(p, '_', ' ');
  }

  /** A name keeps its blank and underscore spelling, and the other spelling
      is added: blanks to underscores whenever there is a blank, underscores to
      blanks only when there is none. */
  lemma SpellingsAdded(products: seq<string>, i: int)
    requires 0 <= i < |products|
    ensures var p := Lower(products[i]);
            && p in ExtendProductNameList(products)
            && (' ' in p ==> Replace(p, ' ', '_') in ExtendProductNameList(products))
            && (' ' !in p && '_' in p ==> Replace(p, '_', ' ') in ExtendProductNameList(products))
  {
  }

  /** Because the two replacements are exclusive, a name with both a blank and
      an underscore never gets its all-blanks spelling: "A_b C" yields
      "a_b c" and "a_b_c", but not "a b c". */
  lemma MixedNameKeepsUnderscore()
    ensures "a_b c" in ExtendProductNameList(["A_b C"])
    ensures "a_b_c" in ExtendProductNameList(["A_b C"])
    ensures "a b c" !in ExtendProductNameList(["A_b C"])
  {
    var ps := ["A_b C"];
    var p := Lower(ps[0]);
    assert p == "a_b c";
    assert ' ' in p && p[3] == ' ';
    assert Replace(p, ' ', '_') == "a_b_c";
    assert Variant(p) == "a_b_c";
    assert "a b c" != p;
  }

  /** `field.lower()` for one entry of the vendor fields: only a string has
      the method. */
  function LowerField(j: Json): (r: Result<string>)
    ensures j.JStr? <==> r.Ok?
    ensures r.Ok? ==> r.value == Lower(j.s)
    ensures r.Err? ==> r.error == AttributeError
  {
    if j.JStr? then Ok(Lower(j.s)) else Err(AttributeError)
  }

  /** The CPE match of a report's CPE as a Python value: `None` or a string. */
  function MatchValue(c: Cpe): Json {
    match c.cpeMatch
    case None => JNull
    case Some(m) => JStr(m)
  }

  /** The entries `check_for_relevant_cve` searches, before lower-casing: the
      assigner, each entry of the reference sources and of the description
      (unpacked by iteration), and each CPE's match string. */
  function FieldValues(report: Report): (r: Result<seq<Json>>)
    ensures r.Ok? <==> Iterate(report.cve.refsource).Ok? && Iterate(report.cve.description).Ok?
    ensures r.Ok? ==> |r.value| == 1 + |Iterate(report.cve.refsource).value|
                                      + |Iterate(report.cve.description).value| + |report.cpes|
    ensures r.Ok? ==> r.value[0] == report.cve.assigner
    ensures r.Ok? ==> var refs := Iterate(report.cve.refsource).value;
                      var descs := Iterate(report.cve.description).value;
                      && r.value[1..1 + |refs|] == refs
                      && r.value[1 + |refs|..1 + |refs| + |descs|] == descs
    ensures r.Ok? ==> forall i :: 0 <= i < |report.cpes| ==> r.value[|r.value| - |report.cpes| + i] == MatchValue(report.cpes[i])
  {
    var refs :- Iterate(report.cve.refsource);
    var descs :- Iterate(report.cve.description);
    Ok([report.cve.assigner] + refs + descs + seq(|report.cpes|, i requires 0 <= i < |report.cpes| => MatchValue(report.cpes[i])))
  }

  /** The lower-cased vendor fields; a `None` CPE match or any other value
      that is not a string raises AttributeError. */
  function VendorFields(report: Report): (r: Result<seq<string>>)
    ensures r.Ok? <==> FieldValues(report).Ok? && forall i :: 0 <= i < |FieldValues(report).value| ==> FieldValues(report).value[i].JStr?
    ensures r.Ok? ==> forall i :: 0 <= i < |r.value| ==> Lower(r.value[i]) == r.value[i]
    ensures r.Ok? ==> var values := FieldValues(report).value;
                      |r.value| == |values| && forall i :: 0 <= i < |values| ==> r.value[i] == Lower(values[i].s)
    ensures FieldValues(report).Err? ==> r == Err(FieldValues(report).error)
    ensures FieldValues(report).Ok? && r.Err? ==> r.error == AttributeError
  {
    var values :- FieldValues(report);
    var fields :- MapAll(values, LowerField);
    forall i | 0 <= i < |fields| ensures Lower(fields[i]) == fields[i] {
      LowerIdempotent(values[i].s);
    }
    Ok(fields)
  }

  /** Every CPE's match string is searched, so a CPE without one makes the
      check raise. */
  lemma CpeMatchesSearched(report: Report)
    requires VendorFields(report).Ok?
    ensures forall c :: c in report.cpes ==> c.cpeMatch.Some? && Lower(c.cpeMatch.value) in VendorFields(report).value
  {
    var values := FieldValues(report).value;
    var fields := VendorFields(report).value;
    forall c | c in report.cpes ensures c.cpeMatch.Some? && Lower(c.cpeMatch.value) in fields {
      var i :| 0 <= i < |report.cpes| && report.cpes[i] == c;
      var k := |values| - |report.cpes| + i;
      assert values[k] == MatchValue(c);
      assert LowerField(values[k]) == Ok(fields[k]);
    }
  }

  /** Some field holds `needle` as a substring. */
  predicate AnyContains(fields: seq<string>, needle: string) {
    exists i :: 0 <= i < |fields| && Contains(fields[i], needle)
  }

  /** The decision on the lower-cased fields: the lower-cased vendor occurs in
      some field, and some spelling of some product occurs in some field. */
  predicate Relevant(fields: seq<string>, vendor: string, products: seq<string>) {
    AnyContains(fields, Lower(vendor)) && exists p :: p in ExtendProductNameList(products) && AnyContains(fields, p)
  }

  /** `check_for_relevant_cve(cve_report, job)`. */
  function CheckForRelevantCve(report: Report, job: Job): (r: Result<bool>)
    ensures r.Ok? <==> VendorFields(report).Ok?
    ensures r.Ok? ==> (r.value <==> Relevant(VendorFields(report).value, job.vendor, job.products))
  {
    var fields :- VendorFields(report);
    Ok(Relevant(fields, job.vendor, job.products))
  }

  /** The check ignores letter case in the configured vendor and products:
      only their lower-case forms matter. */
  lemma CheckIgnoresCase(report: Report, job: Job, vendor: string, products: seq<string>)
    requires Lower(vendor) == Lower(job.vendor)
    requires |products| == |job.products| && forall i :: 0 <= i < |products| ==> Lower(products[i]) == Lower(job.products[i])
    ensures CheckForRelevantCve(report, job.(vendor := vendor, products := products)) == CheckForRelevantCve(report, job)
  {
    SameLowerSameNames(products, job.products);
  }

  lemma SameLowerSameNames(a: seq<string>, b: seq<string>)
    requires |a| == |b| && forall i :: 0 <= i < |a| ==> Lower(a[i]) == Lower(b[i])
    ensures ExtendProductNameList(a) == ExtendProductNameList(b)
  {
    forall x ensures x in ExtendProductNameList(a) <==> x in ExtendProductNameList(b) {
      if x in ExtendProductNameList(a) {
        var i :| 0 <= i < |a| && (x == Lower(a[i]) || x == Variant(Lower(a[i])));
        assert Lower(a[i]) == Lower(b[i]);
      }
      if x in ExtendProductNameList(b) {
        var i :| 0 <= i < |b| && (x == Lower(b[i]) || x == Variant(Lower(b[i])));
        assert Lower(a[i]) == Lower(b[i]);
      }
    }
  }

  /** A product written with a blank matches a CPE that spells it with an
      underscore: once the vendor occurs in some field, a field holding the
      underscored spelling makes the CVE relevant. */
  lemma UnderscoreSpellingMatches(fields: seq<string>, vendor: string, products: seq<string>, k: int)
    requires 0 <= k < |products| && ' ' in Lower(products[k])
    requires AnyContains(fields, Lower(vendor))
    requires AnyContains(fields, Replace(Lower(products[k]), ' ', '_'))
    ensures Relevant(fields, vendor, products)
  {
    var p := Replace(Lower(products[k]), ' ', '_');
    assert p == Variant(Lower(products[k]));
    assert p in ExtendProductNameList(products);
  }

  /** "Widget Pro" is also looked for as "widget_pro". */
  lemma WidgetProSpellings()
    ensures "widget_pro" in ExtendProductNameList(["Widget Pro"])
  {
    var ps := ["Widget Pro"];
    assert Lower(ps[0]) == "widget pro";
    assert "widget pro"[6] == ' ';
    assert Replace("widget pro", ' ', '_') == "widget_pro";
  }

  /** A CVE is kept for a job when the check says so. */
  predicate Kept(job: Job, c: Report) {
    CheckForRelevantCve(c, job) == Ok(true)
  }

  /** `filter_cves(cves, job)`: the relevant CVEs in their order; the first
      CVE whose check raises is the error. */
  function FilterCves(cves: seq<Report>, job: Job): (r: Result<seq<Report>>)
    ensures r.Ok? <==> forall i :: 0 <= i < |cves| ==> CheckForRelevantCve(cves[i], job).Ok?
    ensures r.Err? ==> exists i :: 0 <= i < |cves| && CheckForRelevantCve(cves[i], job) == Err(r.error)
                                   && forall j :: 0 <= j < i ==> CheckForRelevantCve(cves[j], job).Ok?
    ensures r.Ok? ==> forall c :: c in r.value <==> c in cves && CheckForRelevantCve(c, job) == Ok(true)
    ensures r.Ok? ==> multiset(r.value) <= multiset(cves)
  {
    var _ :- MapAll(cves, (c: Report) => CheckForRelevantCve(c, job));
    Ok(Filter(cves, c => Kept(job, c)))
  }

  /** Filtering the CVEs of two pages separately and joining the results is
      filtering all of them. */
  lemma FilterCvesAppend(a: seq<Report>, b: seq<Report>, job: Job)
    requires FilterCves(a, job).Ok? && FilterCves(b, job).Ok?
    ensures FilterCves(a + b, job) == Ok(FilterCves(a, job).value + FilterCves(b, job).value)
  {
    assert forall i :: 0 <= i < |a + b| ==> CheckForRelevantCve((a + b)[i], job).Ok? by {
      forall i | 0 <= i < |a + b| ensures CheckForRelevantCve((a + b)[i], job).Ok? {
        if i < |a| {
          assert (a + b)[i] == a[i];
        } else {
          assert (a + b)[i] == b[i - |a|];
        }
      }
    }
    FilterAppend(a, b, c => Kept(job, c));
  }

  // ----- dropping jobs without results -----

  /** `job.new_cves or job.updated_cves`. */
  predicate HasCves(job: Job) {
    NonEmpty(job.newCves) || NonEmpty(job.updatedCves)
  }

  /** The files of the jobs without results, in job order. */
  function DroppedFiles(jobs: seq<Job>): (fs: seq<string>)
    ensures forall f :: f in fs <==> exists i :: 0 <= i < |jobs| && !HasCves(jobs[i]) && jobs[i].file == f
  {
    if |jobs| == 0 then []
    else
      assert forall i :: 1 <= i < |jobs| ==> jobs[i] == jobs[1..][i - 1];
      (if HasCves(jobs[0]) then [] else [jobs[0].file]) + DroppedFiles(jobs[1..])
  }

  /** `filter_empty_jobs(states, jobs)` at time `now`: the jobs with results,
      in order, and the store after saving, one by one, the run of every
      other job. */
  function FilterEmptyJobs(states: Store, jobs: seq<Job>, now: Time): (r: (seq<Job>, Store))
    ensures r.0 == Filter(jobs, HasCves)
    ensures r.1 == SaveAll(states, DroppedFiles(jobs), now)
    decreases |jobs|
  {
    if |jobs| == 0 then ([], states)
    else if HasCves(jobs[0]) then
      var rest := FilterEmptyJobs(states, jobs[1..], now);
      assert DroppedFiles(jobs) == DroppedFiles(jobs[1..]);
      ([jobs[0]] + rest.0, rest.1)
    else
      var f := jobs[0].file;
      assert DroppedFiles(jobs) == [f] + DroppedFiles(jobs[1..]);
      assert ([f] + DroppedFiles(jobs[1..]))[1..] == DroppedFiles(jobs[1..]);
      FilterEmptyJobs(SaveLastJobRun(states, f, now), jobs[1..], now)
  }

  /** What dropping does to the store: exactly the files of dropped jobs are
      stamped with the current minute, and every other file keeps its run. */
  lemma FilterEmptyJobsStore(states: Store, jobs: seq<Job>, now: Time)
    ensures var store := FilterEmptyJobs(states, jobs, now).1;
            && store.Keys == states.Keys + set f | f in DroppedFiles(jobs)
            && (forall i :: 0 <= i < |jobs| && !HasCves(jobs[i]) ==> store[jobs[i].file] == RoundTime(now))
            && (forall f :: f in states && f !in DroppedFiles(jobs) ==> store[f] == states[f])
  {
    forall i | 0 <= i < |jobs| && !HasCves(jobs[i]) ensures jobs[i].file in DroppedFiles(jobs) {
      DroppedFileListed(jobs, i);
    }
  }

  lemma DroppedFileListed(jobs: seq<Job>, i: int)
    requires 0 <= i < |jobs| && !HasCves(jobs[i])
    ensures jobs[i].file in DroppedFiles(jobs)
  {
  }

  // ----- sorting and deduplication -----

  /** The converse order: `sorted(..., reverse=True)` is the stable sort by
      this order. */
  function Gt(a: int, b: int): bool {
    a > b
  }

  lemma GtStrictTotal()
    ensures StrictTotal(Gt)
  {
  }

  /** The sort key `cve_score.base_score`, read as a number. */
  function BaseScore(c: Report): int {
    if Numeric(c.score.baseScore) then IntOf(c.score.baseScore) else 0
  }

  /** What an item without a score resolves to: `impact` is an empty dict,
      so the path ends in the deep search's empty list. */
  predicate Unscored(c: Report) {
    c.score.baseScore == JArr([])
  }

  /** Whether `sorted` can compare the keys: a list of fewer than two reports
      needs no comparison; otherwise the base scores must all be numbers, or
      all be empty lists, which compare equal. */
  predicate Comparable(cves: seq<Report>) {
    || |cves| < 2
    || (forall i :: 0 <= i < |cves| ==> Numeric(cves[i].score.baseScore))
    || (forall i :: 0 <= i < |cves| ==> Unscored(cves[i]))
  }

  /** `sorted(cves, key=lambda c: c.cve_score.base_score, reverse=True)`:
      the same reports, highest base score first, reports with equal scores in
      their original order. */
  function SortByScore(cves: seq<Report>): (r: Result<seq<Report>>)
    ensures r.Ok? <==> Comparable(cves)
    ensures r.Err? ==> r.error == TypeError
    ensures r.Ok? ==> multiset(r.value) == multiset(cves)
    ensures r.Ok? ==> forall i, j :: 0 <= i < j < |r.value| ==> BaseScore(r.value[i]) >= BaseScore(r.value[j])
    ensures r.Ok? ==> SameKeyOrder(r.value, cves, BaseScore)
    ensures (forall i :: 0 <= i < |cves| ==> Unscored(cves[i])) ==> r == Ok(cves)
  {
    if forall i :: 0 <= i < |cves| ==> Unscored(cves[i]) then
      Ok(cves)
    else if Comparable(cves) then
      GtStrictTotal();
      SortByStable(cves, BaseScore, Gt);
      Ok(SortBy(cves, BaseScore, Gt))
    else Err(TypeError)
  }

  /** The CVE ids of a list of reports. */
  function Ids(cves: seq<Report>): (ids: seq<Json>)
    ensures forall id :: id in ids <==> exists c :: c in cves && c.cve.id == id
  {
    if |cves| == 0 then []
    else
      assert forall c :: c in cves <==> c == cves[0] || c in cves[1..];
      [cves[0].cve.id] + Ids(cves[1..])
  }

  /** `[cve for cve in updated if not cve.cve.id in new_cve_ids]`. */
  function Dedup(updated: seq<Report>, newCves: seq<Report>): (r: seq<Report>)
    ensures forall c :: c in r <==> c in updated && c.cve.id !in Ids(newCves)
    ensures multiset(r) <= multiset(updated)
  {
    Filter(updated, (c: Report) => c.cve.id !in Ids(newCves))
  }

  /** The new CVEs after the first step: a non-empty list is sorted. */
  function SortNew(o: Option<seq<Report>>): (r: Result<Option<seq<Report>>>)
    ensures !NonEmpty(o) ==> r == Ok(o)
    ensures NonEmpty(o) ==> r.Ok? == Comparable(o.value)
    ensures r.Ok? && NonEmpty(o) ==> r.value.Some? && SortByScore(o.value) == Ok(r.value.value)
    ensures r.Err? ==> r.error == TypeError
  {
    if !NonEmpty(o) then Ok(o)
    else
      var sorted :- SortByScore(o.value);
      Ok(Some(sorted))
  }

  /** The updated CVEs after the second step, given the new CVEs after the
      first: a non-empty list loses the CVEs that are also new (when there
      are new ones) and is sorted. */
  function SortUpdated(o: Option<seq<Report>>, newCves: Option<seq<Report>>): (r: Result<Option<seq<Report>>>)
    ensures !NonEmpty(o) ==> r == Ok(o)
    ensures r.Ok? && NonEmpty(o) ==>
              && r.value.Some?
              && SortByScore(if NonEmpty(newCves) then Dedup(o.value, newCves.value) else o.value) == Ok(r.value.value)
    ensures NonEmpty(o) ==> r.Ok? == Comparable(if NonEmpty(newCves) then Dedup(o.value, newCves.value) else o.value)
    ensures r.Err? ==> r.error == TypeError
  {
    if !NonEmpty(o) then Ok(o)
    else
      var kept := if NonEmpty(newCves) then Dedup(o.value, newCves.value) else o.value;
      var sorted :- SortByScore(kept);
      Ok(Some(sorted))
  }

  /** What `sort_and_deduplicate_cves` does to one job. */
  function SortAndDeduplicate(job: Job): (r: Result<Job>)
    ensures r.Ok? ==> r.value.(newCves := job.newCves, updatedCves := job.updatedCves) == job
    ensures r.Err? ==> r.error == TypeError
    ensures r.Ok? ==> SortNew(job.newCves) == Ok(r.value.newCves)
    ensures r.Ok? ==> SortUpdated(job.updatedCves, r.value.newCves) == Ok(r.value.updatedCves)
    ensures r.Ok? <==> SortNew(job.newCves).Ok? && SortUpdated(job.updatedCves, SortNew(job.newCves).value).Ok?
  {
    var newCves :- SortNew(job.newCves);
    var updatedCves :- SortUpdated(job.updatedCves, newCves);
    Ok(job.(newCves := newCves, updatedCves := updatedCves))
  }

  /** `sort_and_deduplicate_cves(jobs)`: every job in turn; the first job
      whose sort raises is the error. */
  function SortAndDeduplicateCves(jobs: seq<Job>): (r: Result<seq<Job>>)
    ensures r.Ok? <==> forall i :: 0 <= i < |jobs| ==> SortAndDeduplicate(jobs[i]).Ok?
    ensures r.Ok? ==> |r.value| == |jobs| && forall i :: 0 <= i < |jobs| ==> SortAndDeduplicate(jobs[i]) == Ok(r.value[i])
    ensures r.Err? ==> exists i :: 0 <= i < |jobs| && SortAndDeduplicate(jobs[i]) == Err(r.error)
                                   && forall j :: 0 <= j < i ==> SortAndDeduplicate(jobs[j]).Ok?
  {
    MapAll(jobs, SortAndDeduplicate)
  }

  /** Two lists that are permutations of each other hold the same ids. */
  lemma PermutationSameIds(a: seq<Report>, b: seq<Report>)
    requires multiset(a) == multiset(b)
    ensures forall id :: id in Ids(a) <==> id in Ids(b)
  {
    forall c ensures c in a <==> c in b {
      assert c in a <==> multiset(a)[c] > 0;
      assert c in b <==> multiset(b)[c] > 0;
    }
  }

  /** A non-empty list of new CVEs keeps its reports and comes out ordered by
      descending base score, equal scores in their original order; an empty
      or missing list is left alone. */
  lemma NewCvesSorted(job: Job)
    requires SortAndDeduplicate(job).Ok?
    ensures var out := SortAndDeduplicate(job).value.newCves;
            && (NonEmpty(job.newCves) ==>
                  && out.Some?
                  && multiset(out.value) == multiset(job.newCves.value)
                  && (forall i, j :: 0 <= i < j < |out.value| ==> BaseScore(out.value[i]) >= BaseScore(out.value[j]))
                  && SameKeyOrder(out.value, job.newCves.value, BaseScore))
            && (!NonEmpty(job.newCves) ==> out == job.newCves)
  {
  }

  /** A non-empty list of updated CVEs loses exactly the CVEs whose id is
      among the non-empty new CVEs, and comes out ordered by descending base
      score; an empty or missing list is left alone. */
  lemma UpdatedCvesDeduplicated(job: Job)
    requires SortAndDeduplicate(job).Ok?
    ensures var out := SortAndDeduplicate(job).value.updatedCves;
            && (NonEmpty(job.updatedCves) ==>
                  && out.Some?
                  && (forall c :: c in out.value <==>
                        c in job.updatedCves.value && !(NonEmpty(job.newCves) && c.cve.id in Ids(job.newCves.value)))
                  && (forall i, j :: 0 <= i < j < |out.value| ==> BaseScore(out.value[i]) >= BaseScore(out.value[j])))
            && (!NonEmpty(job.updatedCves) ==> out == job.updatedCves)
  {
    var out := SortAndDeduplicate(job).value;
    if NonEmpty(job.updatedCves) && NonEmpty(job.newCves) {
      PermutationSameIds(out.newCves.value, job.newCves.value);
      var kept := Dedup(job.updatedCves.value, out.newCves.value);
      forall c ensures c in out.updatedCves.value <==> c in kept {
        assert c in out.updatedCves.value <==> multiset(out.updatedCves.value)[c] > 0;
        assert c in kept <==> multiset(kept)[c] > 0;
      }
    } else if NonEmpty(job.updatedCves) {
      var kept := job.updatedCves.value;
      forall c ensures c in out.updatedCves.value <==> c in kept {
        assert c in out.updatedCves.value <==> multiset(out.updatedCves.value)[c] > 0;
        assert c in kept <==> multiset(kept)[c] > 0;
      }
    }
  }

  /** After deduplication no CVE is reported both as new and as updated. */
  lemma NoCveNewAndUpdated(job: Job)
    requires SortAndDeduplicate(job).Ok?
    ensures var out := SortAndDeduplicate(job).value;
            out.newCves.Some? && out.updatedCves.Some? ==>
              forall c, d :: c in out.newCves.value && d in out.updatedCves.value ==> c.cve.id != d.cve.id
  {
    var out := SortAndDeduplicate(job).value;
    if out.newCves.Some? && out.updatedCves.Some? {
      UpdatedCvesDeduplicated(job);
      if NonEmpty(job.newCves) {
        NewCvesSorted(job);
        PermutationSameIds(out.newCves.value, job.newCves.value);
      }
    }
  }
}

/** The records of src/container.py: a configured job, and a CVE report read
    from one item of the version 1 NVD feed through the resolver.

    Every field of a report is whatever `recursive_get` finds at a fixed path,
    so a field is a `Json`; only the two dates and the CPE match string pass
    through a formatter. Building a report runs the resolver calls in the
    source's order, and the first one that raises is the report's error. */
module Container {
  import opened Outcomes
  import opened JsonValues
  import opened DataParser
  import opened Formatters

  /** One entry of `additional_parameters`, in the dict's insertion order. */
  datatype Param = Param(name: string, value: string)

  datatype Job = Job(
    starttime: int,
    interval: int,
    updates: bool,
    sendTo: string,
    vendor: string,
    products: seq<string>,
    file: string,
    lastRun: Time,
    params: seq<Param>,
    newCves: Option<seq<Report>>,
    updatedCves: Option<seq<Report>>)

  datatype Cve = Cve(
    id: Json,
    assigner: Json,
    urls: Json,
    refsource: Json,
    description: Json,
    published: Option<string>,
    modified: Option<string>)

  datatype Cpe = Cpe(vulnerable: Json, cpeMatch: Option<string>, versionStart: Json, versionEnd: Json)

  datatype Score = Score(
    attackVector: Json,
    baseScore: Json,
    baseSeverity: Json,
    exploitabilityScore: Json,
    impactScore: Json)

  datatype Report = Report(cve: Cve, cpes: seq<Cpe>, score: Score)

  /** Python truthiness of a job's `new_cves` or `updated_cves`: a list
      that is there and not empty. */
  predicate NonEmpty(o: Option<seq<Report>>) {
    o.Some? && |o.value| > 0
  }

  /** `CVE(data)`. */
  function ParseCve(data: Json): (r: Result<Cve>)
    ensures r.Ok? ==> RecursiveGet(data, ["cve", "CVE_data_meta", "ID"]) == Ok(r.value.id)
    ensures r.Ok? ==> RecursiveGet(data, ["cve", "CVE_data_meta", "ASSIGNER"]) == Ok(r.value.assigner)
    ensures r.Ok? ==> RecursiveGet(data, ["cve", "references", "reference_data", "url"]) == Ok(r.value.urls)
    ensures r.Ok? ==> RecursiveGet(data, ["cve", "references", "reference_data", "refsource"]) == Ok(r.value.refsource)
    ensures r.Ok? ==> RecursiveGet(data, ["cve", "description", "description_data", "value"]) == Ok(r.value.description)
    ensures r.Ok? ==> RecursiveGet(data, ["publishedDate"]).Ok?
                      && FormatCpeDates(RecursiveGet(data, ["publishedDate"]).value) == Ok(r.value.published)
    ensures r.Ok? ==> RecursiveGet(data, ["lastModifiedDate"]).Ok?
                      && FormatCpeDates(RecursiveGet(data, ["lastModifiedDate"]).value) == Ok(r.value.modified)
    ensures Status(r) ==
              AndThen(Status(RecursiveGet(data, ["cve", "CVE_data_meta", "ID"])),
              AndThen(Status(RecursiveGet(data, ["cve", "CVE_data_meta", "ASSIGNER"])),
              AndThen(Status(RecursiveGet(data, ["cve", "references", "reference_data", "url"])),
              AndThen(Status(RecursiveGet(data, ["cve", "references", "reference_data", "refsource"])),
              AndThen(Status(RecursiveGet(data, ["cve", "description", "description_data", "value"])),
              AndThen(Status(Then(RecursiveGet(data, ["publishedDate"]), FormatCpeDates)),
                      Status(Then(RecursiveGet(data, ["lastModifiedDate"]), FormatCpeDates))))))))
  {
    var id :- RecursiveGet(data, ["cve", "CVE_data_meta", "ID"]);
    var assigner :- RecursiveGet(data, ["cve", "CVE_data_meta", "ASSIGNER"]);
    var urls :- RecursiveGet(data, ["cve", "references", "reference_data", "url"]);
    var refsource :- RecursiveGet(data, ["cve", "references", "reference_data", "refsource"]);
    var description :- RecursiveGet(data, ["cve", "description", "description_data", "value"]);
    var pubDate :- RecursiveGet(data, ["publishedDate"]);
    var published :- FormatCpeDates(pubDate);
    var modDate :- RecursiveGet(data, ["lastModifiedDate"]);
    var modified :- FormatCpeDates(modDate);
    Ok(Cve(id, assigner, urls, refsource, description, published, modified))
  }

  /** `CPE(data)`: the version 1 feed has only the inclusive start and the
      exclusive end bound, taken as they are. */
  function ParseCpe(data: Json): (r: Result<Cpe>)
    ensures r.Ok? ==> RecursiveGet(data, ["vulnerable"]) == Ok(r.value.vulnerable)
    ensures r.Ok? ==> RecursiveGet(data, ["cpe23Uri"]).Ok?
                      && FormatCpeMatch(RecursiveGet(data, ["cpe23Uri"]).value) == Ok(r.value.cpeMatch)
    ensures r.Ok? ==> RecursiveGet(data, ["versionStartIncluding"]) == Ok(r.value.versionStart)
    ensures r.Ok? ==> RecursiveGet(data, ["versionEndExcluding"]) == Ok(r.value.versionEnd)
    ensures Status(r) ==
              AndThen(Status(RecursiveGet(data, ["vulnerable"])),
              AndThen(Status(Then(RecursiveGet(data, ["cpe23Uri"]), FormatCpeMatch)),
              AndThen(Status(RecursiveGet(data, ["versionStartIncluding"])),
                      Status(RecursiveGet(data, ["versionEndExcluding"])))))
  {
    var vulnerable :- RecursiveGet(data, ["vulnerable"]);
    var uri :- RecursiveGet(data, ["cpe23Uri"]);
    var cpeMatch :- FormatCpeMatch(uri);
    var versionStart :- RecursiveGet(data, ["versionStartIncluding"]);
    var versionEnd :- RecursiveGet(data, ["versionEndExcluding"]);
    Ok(Cpe(vulnerable, cpeMatch, versionStart, versionEnd))
  }

  /** `CVEScore(data)`, where `data` is the resolved `impact/baseMetricV3`. */
  function ParseScore(data: Json): (r: Result<Score>)
    ensures r.Ok? ==> RecursiveGet(data, ["cvssV3", "attackVector"]) == Ok(r.value.attackVector)
    ensures r.Ok? ==> RecursiveGet(data, ["cvssV3", "baseScore"]) == Ok(r.value.baseScore)
    ensures r.Ok? ==> RecursiveGet(data, ["cvssV3", "baseSeverity"]) == Ok(r.value.baseSeverity)
    ensures r.Ok? ==> RecursiveGet(data, ["exploitabilityScore"]) == Ok(r.value.exploitabilityScore)
    ensures r.Ok? ==> RecursiveGet(data, ["impactScore"]) == Ok(r.value.impactScore)
    ensures Status(r) ==
              AndThen(Status(RecursiveGet(data, ["cvssV3", "attackVector"])),
              AndThen(Status(RecursiveGet(data, ["cvssV3", "baseScore"])),
              AndThen(Status(RecursiveGet(data, ["cvssV3", "baseSeverity"])),
              AndThen(Status(RecursiveGet(data, ["exploitabilityScore"])),
                      Status(RecursiveGet(data, ["impactScore"]))))))
  {
    var attackVector :- RecursiveGet(data, ["cvssV3", "attackVector"]);
    var baseScore :- RecursiveGet(data, ["cvssV3", "baseScore"]);
    var baseSeverity :- RecursiveGet(data, ["cvssV3", "baseSeverity"]);
    var exploitability :- RecursiveGet(data, ["exploitabilityScore"]);
    var impact :- RecursiveGet(data, ["impactScore"]);
    Ok(Score(attackVector, baseScore, baseSeverity, exploitability, impact))
  }

  /** `CVEReport(data)` for one item of the feed. */
  function ParseReport(data: Json): (r: Result<Report>)
    ensures r.Ok? ==> ParseCve(data) == Ok(r.value.cve)
    ensures r.Ok? ==> RecursiveGet(data, ["impact", "baseMetricV3"]).Ok?
                      && ParseScore(RecursiveGet(data, ["impact", "baseMetricV3"]).value) == Ok(r.value.score)
    ensures r.Ok? ==> var found := RecursiveGet(data, ["configurations", "nodes", "cpe_match"]);
                      found.Ok? && Iterate(found.value).Ok?
                      && |r.value.cpes| == |Iterate(found.value).value|
                      && forall i :: 0 <= i < |r.value.cpes| ==>
                           ParseCpe(Iterate(found.value).value[i]) == Ok(r.value.cpes[i])
    ensures (RecursiveGet(data, ["configurations", "nodes", "cpe_match"]) == Ok(JNull)
             && RecursiveGet(data, ["impact", "baseMetricV3"]).Ok? && ParseCve(data).Ok?)
            ==> r == Err(TypeError)
    ensures var found := RecursiveGet(data, ["configurations", "nodes", "cpe_match"]);
            var scoreData := RecursiveGet(data, ["impact", "baseMetricV3"]);
            Status(r) ==
              AndThen(Status(found),
              AndThen(Status(scoreData),
              AndThen(Status(ParseCve(data)),
              AndThen(Status(Then(found, Iterate)),
              AndThen(Status(Then(Then(found, Iterate), ParseCpes)),
                      Status(Then(scoreData, ParseScore)))))))
  {
    var cpeData :- RecursiveGet(data, ["configurations", "nodes", "cpe_match"]);
    var scoreData :- RecursiveGet(data, ["impact", "baseMetricV3"]);
    var cve :- ParseCve(data);
    var items :- Iterate(cpeData);
    var cpes :- ParseCpes(items);
    var score :- ParseScore(scoreData);
    Ok(Report(cve, cpes, score))
  }

  /** `[CPE(x) for x in items]`. */
  function ParseCpes(items: seq<Json>): Result<seq<Cpe>> {
    MapAll(items, ParseCpe)
  }

  /** Items without the CVE metadata block still parse: every path into it
      resolves to the empty list, not to None. */
  lemma MissingMetadataIsEmpty(ms: seq<Member>)
    requires KeyAbsent(JObj(ms), "cve") && ListsOfObjects(JObj(ms))
    ensures ParseCve(JObj(ms)).Ok? ==>
              ParseCve(JObj(ms)).value.id == JArr([]) && ParseCve(JObj(ms)).value.assigner == JArr([])
  {
    MissingPathIsEmpty(ms, ["cve", "CVE_data_meta", "ID"]);
    MissingPathIsEmpty(ms, ["cve", "CVE_data_meta", "ASSIGNER"]);
  }

  /** An item still awaiting analysis carries `"impact": {}`. The empty dict
      is falsy, so the deep search runs, finds nothing, and the score block
      resolves to the empty list; every score field, the base score among
      them, is then the empty list too. */
  lemma AwaitingAnalysisIsUnscored()
    ensures RecursiveGet(JObj([Member("impact", JObj([]))]), ["impact", "baseMetricV3"]) == Ok(JArr([]))
    ensures ParseScore(JArr([])) == Ok(Score(JArr([]), JArr([]), JArr([]), JArr([]), JArr([])))
  {
    var ms := [Member("impact", JObj([]))];
    assert Traverse(JObj([]), "impact") == Ok(JArr([]));
    assert MemberHits(ms[0], "impact") == Ok([]);
    assert ms[1..] == [];
    assert DeepTraverse(ms[1..], "impact") == Ok([]);
    assert DeepTraverse(ms, "impact") == Append(Ok([]), Ok([]));
    assert Get(ms, "impact") == Some(JObj([])) && GetOrNull(ms, "impact") == JObj([]) && !Truthy(JObj([]));
    var none: seq<Json> := [];
    assert none + none == none;
    assert DeepTraverse(ms, "impact") == Ok([]);
    assert Traverse(JObj(ms), "impact") == Ok(JArr([]));
    var rest: seq<string> := ["baseMetricV3"];
    EmptyListWalk(rest);
    assert Walk(JObj(ms), ["impact", "baseMetricV3"]) == Ok(JArr([]));
    EmptyListWalk(["cvssV3", "attackVector"]);
    EmptyListWalk(["cvssV3", "baseScore"]);
    EmptyListWalk(["cvssV3", "baseSeverity"]);
    EmptyListWalk(["exploitabilityScore"]);
    EmptyListWalk(["impactScore"]);
  }
}

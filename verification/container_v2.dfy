/** The report records of mycves/container.py, read from one item of the
    version 2 NVD feed. Compared with the version 1 records, every CVE field
    sits under "cve", the CPE bounds become "incl. …"/"excl. …" strings, and
    the score is taken from the newest CVSS metric the item carries, with
    absent or falsy fields defaulting to "".

    `format_cve_dates` parses an ISO date with the datetime library; it is a
    parameter here, and may fail. */
module ContainerV2 {
  import opened Outcomes
  import opened JsonValues
  import opened DataParser
  import opened Formatters

  datatype Cve = Cve(
    id: Json,
    urls: Json,
    sources: Json,
    descriptions: Json,
    published: Option<string>,
    modified: Option<string>)

  datatype Cpe = Cpe(vulnerable: Json, cpeMatch: Option<string>, versionStart: string, versionEnd: string)

  datatype Score = Score(
    attackVector: Json,
    baseScore: Json,
    baseSeverity: Json,
    exploitabilityScore: Json,
    impactScore: Json)

  datatype Report = Report(cve: Cve, cpes: seq<Cpe>, score: Score)

  /** The `x if (x := get_cve(key)) is not None else x` date rule. */
  function OptionalDate(data: Json, key: string, formatDate: Json -> Result<string>): (r: Result<Option<string>>)
    ensures RecursiveGet(data, ["cve", key]) == Ok(JNull) ==> r == Ok(None)
    ensures r == Ok(None) ==> RecursiveGet(data, ["cve", key]) == Ok(JNull)
    ensures r.Ok? && r.value.Some? ==>
              RecursiveGet(data, ["cve", key]).Ok? && formatDate(RecursiveGet(data, ["cve", key]).value) == Ok(r.value.value)
    ensures RecursiveGet(data, ["cve", key]) != Ok(JNull)
            ==> Status(r) == Status(Then(RecursiveGet(data, ["cve", key]), formatDate))
  {
    var date :- RecursiveGet(data, ["cve", key]);
    if date == JNull then Ok(None)
    else
      var s :- formatDate(date);
      Ok(Some(s))
  }

  /** `CVE(data)`. */
  function ParseCve(data: Json, formatDate: Json -> Result<string>): (r: Result<Cve>)
    ensures r.Ok? ==> RecursiveGet(data, ["cve", "id"]) == Ok(r.value.id)
    ensures r.Ok? ==> RecursiveGet(data, ["cve", "references", "url"]) == Ok(r.value.urls)
    ensures r.Ok? ==> RecursiveGet(data, ["cve", "references", "source"]) == Ok(r.value.sources)
    ensures r.Ok? ==> RecursiveGet(data, ["cve", "descriptions", "value"]) == Ok(r.value.descriptions)
    ensures r.Ok? ==> OptionalDate(data, "published", formatDate) == Ok(r.value.published)
    ensures r.Ok? ==> OptionalDate(data, "lastModified", formatDate) == Ok(r.value.modified)
    ensures Status(r) ==
              AndThen(Status(RecursiveGet(data, ["cve", "id"])),
              AndThen(Status(RecursiveGet(data, ["cve", "references", "url"])),
              AndThen(Status(RecursiveGet(data, ["cve", "references", "source"])),
              AndThen(Status(RecursiveGet(data, ["cve", "descriptions", "value"])),
              AndThen(Status(OptionalDate(data, "published", formatDate)),
                      Status(OptionalDate(data, "lastModified", formatDate)))))))
  {
    var id :- RecursiveGet(data, ["cve", "id"]);
    var urls :- RecursiveGet(data, ["cve", "references", "url"]);
    var sources :- RecursiveGet(data, ["cve", "references", "source"]);
    var descriptions :- RecursiveGet(data, ["cve", "descriptions", "value"]);
    var published :- OptionalDate(data, "published", formatDate);
    var modified :- OptionalDate(data, "lastModified", formatDate);
    Ok(Cve(id, urls, sources, descriptions, published, modified))
  }

  const Incl: string := "incl. "
  const Excl: string := "excl. "

  /** The conditional expression for `version_start`/`version_end`: the
      inclusive bound when it is truthy, otherwise the exclusive bound when
      that is truthy, otherwise "". The exclusive key is only resolved when
      the inclusive one is falsy. */
  function VersionBound(data: Json, inclusive: string, exclusive: string): (r: Result<string>)
    ensures RecursiveGet(data, [inclusive]).Err? ==> r == RecursiveGet(data, [inclusive]).PropagateFailure()
    ensures RecursiveGet(data, [inclusive]).Ok? && Truthy(RecursiveGet(data, [inclusive]).value)
            ==> r == Ok(Incl + Str(RecursiveGet(data, [inclusive]).value))
    ensures RecursiveGet(data, [inclusive]).Ok? && !Truthy(RecursiveGet(data, [inclusive]).value)
            && RecursiveGet(data, [exclusive]).Ok? && Truthy(RecursiveGet(data, [exclusive]).value)
            ==> r == Ok(Excl + Str(RecursiveGet(data, [exclusive]).value))
    ensures RecursiveGet(data, [inclusive]).Ok? && !Truthy(RecursiveGet(data, [inclusive]).value)
            && RecursiveGet(data, [exclusive]).Ok? && !Truthy(RecursiveGet(data, [exclusive]).value)
            ==> r == Ok("")
  {
    var including :- RecursiveGet(data, [inclusive]);
    if Truthy(including) then Ok(Incl + Str(including))
    else
      var excluding :- RecursiveGet(data, [exclusive]);
      if Truthy(excluding) then Ok(Excl + Str(excluding)) else Ok("")
  }

  /** A bound string says which kind of bound it is and carries the value's
      text after the six-character tag, so it can be read back. */
  lemma VersionBoundReadBack(data: Json, inclusive: string, exclusive: string)
    requires VersionBound(data, inclusive, exclusive).Ok?
    ensures var b := VersionBound(data, inclusive, exclusive).value;
            || b == ""
            || (|b| >= 6 && b[..6] == Incl && b[6..] == Str(RecursiveGet(data, [inclusive]).value))
            || (|b| >= 6 && b[..6] == Excl && b[6..] == Str(RecursiveGet(data, [exclusive]).value))
  {
    var b := VersionBound(data, inclusive, exclusive).value;
    var including := RecursiveGet(data, [inclusive]).value;
    if Truthy(including) {
      assert (Incl + Str(including))[..6] == Incl;
      assert (Incl + Str(including))[6..] == Str(including);
    } else {
      var excluding := RecursiveGet(data, [exclusive]).value;
      if Truthy(excluding) {
        assert (Excl + Str(excluding))[..6] == Excl;
        assert (Excl + Str(excluding))[6..] == Str(excluding);
      }
    }
  }

  /** When both bounds are present, the inclusive one is reported. */
  lemma InclusiveWins(data: Json, inclusive: string, exclusive: string, lo: Json, hi: Json)
    requires RecursiveGet(data, [inclusive]) == Ok(lo) && Truthy(lo)
    requires RecursiveGet(data, [exclusive]) == Ok(hi) && Truthy(hi)
    ensures VersionBound(data, inclusive, exclusive) == Ok(Incl + Str(lo))
  {
  }

  /** `CPE(data)`. */
  function ParseCpe(data: Json): (r: Result<Cpe>)
    ensures r.Ok? ==> RecursiveGet(data, ["vulnerable"]) == Ok(r.value.vulnerable)
    ensures r.Ok? ==> RecursiveGet(data, ["criteria"]).Ok?
                      && FormatCpeMatch(RecursiveGet(data, ["criteria"]).value) == Ok(r.value.cpeMatch)
    ensures r.Ok? ==> VersionBound(data, "versionStartIncluding", "versionStartExcluding") == Ok(r.value.versionStart)
    ensures r.Ok? ==> VersionBound(data, "versionEndIncluding", "versionEndExcluding") == Ok(r.value.versionEnd)
    ensures Status(r) ==
              AndThen(Status(RecursiveGet(data, ["vulnerable"])),
              AndThen(Status(Then(RecursiveGet(data, ["criteria"]), FormatCpeMatch)),
              AndThen(Status(VersionBound(data, "versionStartIncluding", "versionStartExcluding")),
                      Status(VersionBound(data, "versionEndIncluding", "versionEndExcluding")))))
  {
    var vulnerable :- RecursiveGet(data, ["vulnerable"]);
    var criteria :- RecursiveGet(data, ["criteria"]);
    var cpeMatch :- FormatCpeMatch(criteria);
    var versionStart :- VersionBound(data, "versionStartIncluding", "versionStartExcluding");
    var versionEnd :- VersionBound(data, "versionEndIncluding", "versionEndExcluding");
    Ok(Cpe(vulnerable, cpeMatch, versionStart, versionEnd))
  }

  /** The metric versions in order of preference. */
  const MetricKeys: seq<string> := ["cvssMetricV31", "cvssMetricV30", "cvssMetricV2"]

  /** The `if`/`elif` chain choosing what the score is read from: the first
      entry of the first metric list present, else an empty dict. */
  function PreferredMetric(metrics: Json, keys: seq<string>): (r: Result<Json>)
    ensures |keys| == 0 ==> r == Ok(JObj([]))
    ensures metrics.JObj? && |keys| > 0 && HasKey(metrics.members, keys[0])
            ==> r == First(GetOrNull(metrics.members, keys[0]))
    ensures metrics.JObj? && |keys| > 0 && !HasKey(metrics.members, keys[0])
            ==> r == PreferredMetric(metrics, keys[1..])
  {
    if |keys| == 0 then Ok(JObj([]))
    else
      var present :- In(metrics, keys[0]);
      if present then
        var list :- Subscript(metrics, keys[0]);
        First(list)
      else PreferredMetric(metrics, keys[1..])
  }

  /** `data["metrics"]` followed by the preference chain. */
  function ScoreSource(data: Json): (r: Result<Json>)
    ensures !data.JObj? ==> r.Err?
    ensures data.JObj? && !HasKey(data.members, "metrics") ==> r == Err(KeyError)
    ensures data.JObj? && HasKey(data.members, "metrics")
            ==> r == PreferredMetric(GetOrNull(data.members, "metrics"), MetricKeys)
  {
    var metrics :- Subscript(data, "metrics");
    PreferredMetric(metrics, MetricKeys)
  }

  /** A metrics dict with a version 3.1 list scores from its first entry,
      whatever older versions it also has; without 3.1 and 3.0 the version 2
      list is used; with none of them the score is read from an empty dict. */
  lemma MetricPreference(ms: seq<Member>)
    ensures HasKey(ms, "cvssMetricV31")
            ==> PreferredMetric(JObj(ms), MetricKeys) == First(GetOrNull(ms, "cvssMetricV31"))
    ensures !HasKey(ms, "cvssMetricV31") && HasKey(ms, "cvssMetricV30")
            ==> PreferredMetric(JObj(ms), MetricKeys) == First(GetOrNull(ms, "cvssMetricV30"))
    ensures !HasKey(ms, "cvssMetricV31") && !HasKey(ms, "cvssMetricV30") && HasKey(ms, "cvssMetricV2")
            ==> PreferredMetric(JObj(ms), MetricKeys) == First(GetOrNull(ms, "cvssMetricV2"))
    ensures !HasKey(ms, "cvssMetricV31") && !HasKey(ms, "cvssMetricV30") && !HasKey(ms, "cvssMetricV2")
            ==> PreferredMetric(JObj(ms), MetricKeys) == Ok(JObj([]))
  {
    var k := MetricKeys;
    assert k[1..] == ["cvssMetricV30", "cvssMetricV2"];
    assert k[1..][1..] == ["cvssMetricV2"];
    assert k[1..][1..][1..] == [];
  }

  /** `get(p1) or get(p2) or … or ""`: the first truthy resolver result, or
      "" when every one is falsy. A later path is only resolved when every
      earlier one was falsy. */
  function FirstTruthy(src: Json, paths: seq<seq<string>>): (r: Result<Json>)
    ensures r.Ok? ==> Truthy(r.value) || r.value == JStr("")
    ensures |paths| > 0 && RecursiveGet(src, paths[0]).Ok? && Truthy(RecursiveGet(src, paths[0]).value)
            ==> r == RecursiveGet(src, paths[0])
    ensures r.Ok? && Truthy(r.value) ==> exists i :: 0 <= i < |paths| && RecursiveGet(src, paths[i]) == r
    ensures forall k :: 0 <= k < |paths| && FalsyBefore(src, paths, k) && Decides(RecursiveGet(src, paths[k]))
                        ==> r == RecursiveGet(src, paths[k])
  {
    if |paths| == 0 then Ok(JStr(""))
    else
      var v :- RecursiveGet(src, paths[0]);
      if Truthy(v) then Ok(v)
      else
        var rest := FirstTruthy(src, paths[1..]);
        assert forall i :: 0 <= i < |paths[1..]| ==> paths[1..][i] == paths[i + 1];
        assert rest.Ok? && Truthy(rest.value) ==> exists i :: 1 <= i < |paths| && RecursiveGet(src, paths[i]) == rest
        by {
          if rest.Ok? && Truthy(rest.value) {
            var i :| 0 <= i < |paths[1..]| && RecursiveGet(src, paths[1..][i]) == rest;
            assert paths[1..][i] == paths[i + 1];
          }
        }
        assert forall k :: 1 <= k < |paths| && FalsyBefore(src, paths, k) ==> FalsyBefore(src, paths[1..], k - 1);
        rest
  }

  /** Every path before the `k`-th resolves to something falsy, so the
      `or` chain reaches the `k`-th. */
  predicate FalsyBefore(src: Json, paths: seq<seq<string>>, k: int)
    requires 0 <= k <= |paths|
  {
    forall j :: 0 <= j < k ==> RecursiveGet(src, paths[j]).Ok? && !Truthy(RecursiveGet(src, paths[j]).value)
  }

  /** A resolver result that ends the `or` chain: an exception or a truthy value. */
  predicate Decides(r: Result<Json>) {
    r.Err? || Truthy(r.value)
  }

  /** A field whose every candidate path resolves to something falsy, such
      as a base score of 0, comes out as "". */
  lemma {:induction false} FalsyFieldsDefault(src: Json, paths: seq<seq<string>>)
    requires forall i :: 0 <= i < |paths| ==> RecursiveGet(src, paths[i]).Ok? && !Truthy(RecursiveGet(src, paths[i]).value)
    ensures FirstTruthy(src, paths) == Ok(JStr(""))
  {
    if |paths| > 0 {
      assert forall i :: 0 <= i < |paths[1..]| ==> paths[1..][i] == paths[i + 1];
      FalsyFieldsDefault(src, paths[1..]);
    }
  }

  /** `CVEScore(data)`, where `data` is the resolved "cve" object. */
  function ParseScore(data: Json): (r: Result<Score>)
    ensures r.Ok? ==> ScoreSource(data).Ok?
    ensures r.Ok? ==> var src := ScoreSource(data).value;
                      && FirstTruthy(src, [["cvssData", "attackVector"], ["cvssData", "accessVector"]])
                         == Ok(r.value.attackVector)
                      && FirstTruthy(src, [["cvssData", "baseScore"]]) == Ok(r.value.baseScore)
                      && FirstTruthy(src, [["cvssData", "baseSeverity"], ["baseSeverity"]])
                         == Ok(r.value.baseSeverity)
                      && FirstTruthy(src, [["exploitabilityScore"]]) == Ok(r.value.exploitabilityScore)
                      && FirstTruthy(src, [["impactScore"]]) == Ok(r.value.impactScore)
    ensures ScoreSource(data).Err? ==> r == Err(ScoreSource(data).error)
    ensures ScoreSource(data).Ok? ==>
              var src := ScoreSource(data).value;
              Status(r) ==
                AndThen(Status(FirstTruthy(src, [["cvssData", "attackVector"], ["cvssData", "accessVector"]])),
                AndThen(Status(FirstTruthy(src, [["cvssData", "baseScore"]])),
                AndThen(Status(FirstTruthy(src, [["cvssData", "baseSeverity"], ["baseSeverity"]])),
                AndThen(Status(FirstTruthy(src, [["exploitabilityScore"]])),
                        Status(FirstTruthy(src, [["impactScore"]]))))))
  {
    var src :- ScoreSource(data);
    var attackVector :- FirstTruthy(src, [["cvssData", "attackVector"], ["cvssData", "accessVector"]]);
    var baseScore :- FirstTruthy(src, [["cvssData", "baseScore"]]);
    var baseSeverity :- FirstTruthy(src, [["cvssData", "baseSeverity"], ["baseSeverity"]]);
    var exploitability :- FirstTruthy(src, [["exploitabilityScore"]]);
    var impact :- FirstTruthy(src, [["impactScore"]]);
    Ok(Score(attackVector, baseScore, baseSeverity, exploitability, impact))
  }

  /** `CVEReport(data)` for one item of the feed. */
  function ParseReport(data: Json, formatDate: Json -> Result<string>): (r: Result<Report>)
    ensures r.Ok? ==> ParseCve(data, formatDate) == Ok(r.value.cve)
    ensures r.Ok? ==> RecursiveGet(data, ["cve"]).Ok?
                      && ParseScore(RecursiveGet(data, ["cve"]).value) == Ok(r.value.score)
    ensures r.Ok? ==> var found := RecursiveGet(data, ["cve", "configurations", "nodes", "cpeMatch"]);
                      found.Ok? && Iterate(found.value).Ok?
                      && |r.value.cpes| == |Iterate(found.value).value|
                      && forall i :: 0 <= i < |r.value.cpes| ==>
                           ParseCpe(Iterate(found.value).value[i]) == Ok(r.value.cpes[i])
    ensures var found := RecursiveGet(data, ["cve", "configurations", "nodes", "cpeMatch"]);
            var scoreData := RecursiveGet(data, ["cve"]);
            Status(r) ==
              AndThen(Status(found),
              AndThen(Status(scoreData),
              AndThen(Status(ParseCve(data, formatDate)),
              AndThen(Status(Then(found, Iterate)),
              AndThen(Status(Then(Then(found, Iterate), ParseCpes)),
                      Status(Then(scoreData, ParseScore)))))))
  {
    var cpeData :- RecursiveGet(data, ["cve", "configurations", "nodes", "cpeMatch"]);
    var scoreData :- RecursiveGet(data, ["cve"]);
    var cve :- ParseCve(data, formatDate);
    var items :- Iterate(cpeData);
    var cpes :- ParseCpes(items);
    var score :- ParseScore(scoreData);
    Ok(Report(cve, cpes, score))
  }

  /** `[CPE(x) for x in items]`. */
  function ParseCpes(items: seq<Json>): Result<seq<Cpe>> {
    MapAll(items, ParseCpe)
  }
}

/** The decisions of src/mail.py: the subject line of a notification, the
    sender and recipient headers, and when the jobs of a group have their run
    recorded.

    Rendering the HTML body, connecting to the SMTP server and sending are
    not modelled; their success or failure is a parameter. */
module Mail {
  import opened Outcomes
  import opened Text
  import opened Formatters
  import opened Container
  import opened JobStates

  /** `any(job.new_cves for job in jobs)`. */
  function AnyNew(jobs: seq<Job>): (r: bool)
    ensures r <==> exists i :: 0 <= i < |jobs| && NonEmpty(jobs[i].newCves)
  {
    if |jobs| == 0 then false
    else
      assert forall i :: 1 <= i < |jobs| ==> jobs[i] == jobs[1..][i - 1];
      NonEmpty(jobs[0].newCves) || AnyNew(jobs[1..])
  }

  /** `any(job.updated_cves for job in jobs)`. */
  function AnyUpdated(jobs: seq<Job>): (r: bool)
    ensures r <==> exists i :: 0 <= i < |jobs| && NonEmpty(jobs[i].updatedCves)
  {
    if |jobs| == 0 then false
    else
      assert forall i :: 1 <= i < |jobs| ==> jobs[i] == jobs[1..][i - 1];
      NonEmpty(jobs[0].updatedCves) || AnyUpdated(jobs[1..])
  }

  /** `create_subject_prefix(jobs)`. */
  function CreateSubjectPrefix(jobs: seq<Job>): string {
    if AnyNew(jobs) && AnyUpdated(jobs) then "New and updated"
    else if AnyNew(jobs) then "New"
    else "Updated"
  }

  /** Which of the three prefixes a group gets, in terms of its jobs: the
      third one, "Updated", is also what a group without any CVE gets. */
  lemma SubjectPrefixCases(jobs: seq<Job>)
    ensures CreateSubjectPrefix(jobs) == "New and updated" <==>
              (exists i :: 0 <= i < |jobs| && NonEmpty(jobs[i].newCves))
              && (exists i :: 0 <= i < |jobs| && NonEmpty(jobs[i].updatedCves))
    ensures CreateSubjectPrefix(jobs) == "New" <==>
              (exists i :: 0 <= i < |jobs| && NonEmpty(jobs[i].newCves))
              && !(exists i :: 0 <= i < |jobs| && NonEmpty(jobs[i].updatedCves))
    ensures CreateSubjectPrefix(jobs) == "Updated" <==>
              !(exists i :: 0 <= i < |jobs| && NonEmpty(jobs[i].newCves))
  {
    assert "New" != "New and updated" && "Updated" != "New and updated" && "Updated" != "New";
  }

  /** A group in which no job found anything is still announced as
      "Updated". */
  lemma NothingFoundIsUpdated(jobs: seq<Job>)
    requires forall i :: 0 <= i < |jobs| ==> !NonEmpty(jobs[i].newCves) && !NonEmpty(jobs[i].updatedCves)
    ensures CreateSubjectPrefix(jobs) == "Updated"
  {
    SubjectPrefixCases(jobs);
  }

  /** The capitalized vendors of the jobs, in job order. */
  function Vendors(jobs: seq<Job>): (vs: seq<string>)
    ensures |vs| == |jobs|
    ensures forall i :: 0 <= i < |jobs| ==> vs[i] == Capitalize(jobs[i].vendor)
  {
    seq(|jobs|, i requires 0 <= i < |jobs| => Capitalize(jobs[i].vendor))
  }

  const SubjectMiddle: string := " for your products from "

  /** `create_message_subject(jobs)`: the subject and the title. */
  function CreateMessageSubject(jobs: seq<Job>): (r: (string, string))
    ensures r.1 == CreateSubjectPrefix(jobs) + " CVEs"
    ensures r.0 == r.1 + SubjectMiddle + Join(Vendors(jobs), ", ")
  {
    var title := CreateSubjectPrefix(jobs) + " CVEs";
    (title + SubjectMiddle + Join(Vendors(jobs), ", "), title)
  }

  /** The subject of a one-job group names that job's vendor, capitalized;
      the subject always starts with the title. */
  lemma SubjectOfSingleJob(job: Job)
    ensures var r := CreateMessageSubject([job]);
            && r.1 <= r.0
            && r.0 == r.1 + SubjectMiddle + Capitalize(job.vendor)
  {
    var v := Capitalize(job.vendor);
    assert Vendors([job]) == [v];
    assert Join([v], ", ") == v;
    var r := CreateMessageSubject([job]);
    var after := SubjectMiddle + v;
    assert r.0 == r.1 + SubjectMiddle + v;
    assert r.0 == r.1 + after;
    assert r.0[..|r.1|] == r.1;
  }

  /** The subject of any non-empty group reads back: it starts with the
      title and the fixed middle text, and when no vendor holds a comma the
      rest splits on ',' into the capitalized vendors in job order, every
      one after the first behind the blank of the ", " separator. */
  lemma SubjectReadBack(jobs: seq<Job>)
    requires |jobs| > 0
    requires forall i :: 0 <= i < |jobs| ==> ',' !in Capitalize(jobs[i].vendor)
    ensures var r := CreateMessageSubject(jobs);
            var head := r.1 + SubjectMiddle;
            && head <= r.0
            && var parts := Split(r.0[|head|..], ',');
            && |parts| == |jobs|
            && parts[0] == Capitalize(jobs[0].vendor)
            && forall i :: 1 <= i < |jobs| ==> parts[i] == " " + Capitalize(jobs[i].vendor)
  {
    var r := CreateMessageSubject(jobs);
    var head := r.1 + SubjectMiddle;
    var vs := Vendors(jobs);
    var tail := Join(vs, ", ");
    assert r.0 == head + tail;
    assert r.0[..|head|] == head;
    assert r.0[|head|..] == tail;
    assert ", " == [','] + " ";
    JoinPadded(vs, ',', " ");
    var pieces := [vs[0]] + Padded(vs[1..], " ");
    forall i | 0 <= i < |pieces| ensures ',' !in pieces[i] {
      if i > 0 {
        assert pieces[i] == " " + vs[i];
        assert forall k :: 0 <= k < |vs[i]| ==> pieces[i][k + 1] == vs[i][k];
      }
    }
    JoinSplitRoundTrip(pieces, ',');
  }

  /** The headers of the message `create_email` builds. */
  datatype Headers = Headers(subject: string, from: string, to: string, updates: bool)

  /** `create_email(settings, jobs)` without the body: the sender comes from
      the settings and the recipient from the first job, so an empty group
      raises IndexError; `rendered` says whether the template rendered. */
  function CreateEmail(sender: string, jobs: seq<Job>, rendered: bool): (r: Result<Headers>)
    ensures |jobs| == 0 ==> r == Err(IndexError)
    ensures |jobs| > 0 && !rendered ==> r == Err(EmailException)
    ensures r.Ok? <==> |jobs| > 0 && rendered
    ensures r.Ok? ==> r.value.from == sender && r.value.to == jobs[0].sendTo
    ensures r.Ok? ==> r.value.subject == CreateMessageSubject(jobs).0
    ensures r.Ok? ==> (r.value.updates <==> exists i :: 0 <= i < |jobs| && NonEmpty(jobs[i].updatedCves))
  {
    if |jobs| == 0 then Err(IndexError)
    else if !rendered then Err(EmailException)
    else Ok(Headers(CreateMessageSubject(jobs).0, sender, jobs[0].sendTo, AnyUpdated(jobs)))
  }

  /** How the connection and the `sendmail` call went. A connect timeout or
      connection error becomes EmailException; any other failure keeps its
      own kind. */
  datatype Delivery = Delivered | ConnectTimeout | ConnectFailed | OtherFailure(error: Error)

  function Files(jobs: seq<Job>): (fs: seq<string>)
    ensures |fs| == |jobs|
    ensures forall i :: 0 <= i < |jobs| ==> fs[i] == jobs[i].file
  {
    seq(|jobs|, i requires 0 <= i < |jobs| => jobs[i].file)
  }

  /** `send_email(settings, states, job_group)` at time `now`: the result
      and the watermark store afterwards. */
  function SendEmail(states: Store, group: seq<Job>, sender: string, rendered: bool, delivery: Delivery,
                     now: Time): (r: (Result<bool>, Store))
    ensures r.0.Ok? <==> |group| > 0 && rendered && delivery == Delivered
    ensures r.0.Ok? ==> r.0.value
    ensures r.0.Err? ==> r.1 == states
    ensures r.0.Ok? ==> r.1 == SaveAll(states, Files(group), now)
    ensures |group| == 0 ==> r.0 == Err(IndexError)
    ensures |group| > 0 && !rendered ==> r.0 == Err(EmailException)
    ensures |group| > 0 && rendered && (delivery == ConnectTimeout || delivery == ConnectFailed)
            ==> r.0 == Err(EmailException)
    ensures |group| > 0 && rendered && delivery.OtherFailure? ==> r.0 == Err(delivery.error)
  {
    match CreateEmail(sender, group, rendered)
    case Err(e) => (Err(e), states)
    case Ok(_) =>
      match delivery
      case Delivered => (Ok(true), SaveAll(states, Files(group), now))
      case ConnectTimeout => (Err(EmailException), states)
      case ConnectFailed => (Err(EmailException), states)
      case OtherFailure(e) => (Err(e), states)
  }

  /** The watermark rule: after a successful send every job of the group has
      its run recorded at the current minute and no other file changes;
      after a failure nothing changes. */
  lemma WatermarkOnlyAfterSend(states: Store, group: seq<Job>, sender: string, rendered: bool,
                               delivery: Delivery, now: Time)
    ensures var r := SendEmail(states, group, sender, rendered, delivery, now);
            && (r.0.Ok? ==> forall i :: 0 <= i < |group| ==> group[i].file in r.1 && r.1[group[i].file] == RoundTime(now))
            && (r.0.Ok? ==>
                  forall f :: f in states && (forall i :: 0 <= i < |group| ==> group[i].file != f) ==>
                    f in r.1 && r.1[f] == states[f])
            && (r.0.Err? ==> r.1 == states)
  {
    var r := SendEmail(states, group, sender, rendered, delivery, now);
    var fs := Files(group);
    if r.0.Ok? {
      forall i | 0 <= i < |group| ensures group[i].file in fs {
        assert fs[i] == group[i].file;
      }
    }
  }
}

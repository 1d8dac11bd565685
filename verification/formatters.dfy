/** The formatters of src/formatters.py: minute truncation of a timestamp,
    the CPE match-string shortening and the date-prefix cut.

    Timestamps are naive local date-times counted in microseconds, so
    `datetime.second` and `datetime.microsecond` together are the remainder
    modulo one minute. */
module Formatters {
  import opened Outcomes
  import opened JsonValues
  import opened Text

  type Time = int

  const MicrosPerMinute: int := 60_000_000
  const MicrosPerHour: int := 3_600_000_000

  function Hour(t: Time): int {
    (t / MicrosPerHour) % 24
  }

  function Minute(t: Time): int {
    (t / MicrosPerMinute) % 60
  }

  /** `round_time`: drop the seconds and microseconds. */
  function RoundTime(t: Time): (r: Time)
    ensures r <= t < r + MicrosPerMinute
    ensures r % MicrosPerMinute == 0
  {
    t - t % MicrosPerMinute
  }

  lemma RoundTimeIdempotent(t: Time)
    ensures RoundTime(RoundTime(t)) == RoundTime(t)
  {
  }

  /** Python's `parts[lo:hi]`, which clamps both bounds to the length. */
  function Slice<T>(parts: seq<T>, lo: nat, hi: nat): seq<T>
    requires lo <= hi
  {
    var a := if lo <= |parts| then lo else |parts|;
    var b := if hi <= |parts| then hi else |parts|;
    parts[a..b]
  }

  /** The string part of `format_cpe_match`: the vendor, product and version
      fields of a CPE 2.3 name, space separated, trailing dashes dropped. */
  function CpeMatchText(cpe: string): (r: string)
    ensures |r| == 0 || r[|r| - 1] != '-'
    ensures |Split(cpe, ':')| < 4 ==> r == ""
  {
    RStrip(Join(Slice(Split(cpe, ':'), 3, 6), " "), '-')
  }

  /** `format_cpe_match` on what the resolver returned: None stays None, a
      string is shortened, anything else fails inside `split` and is reported
      as a FormatException. */
  function FormatCpeMatch(cpe: Json): (r: Result<Option<string>>)
    ensures cpe == JNull ==> r == Ok(None)
    ensures cpe.JStr? ==> r == Ok(Some(CpeMatchText(cpe.s)))
    ensures !cpe.JNull? && !cpe.JStr? ==> r == Err(FormatException)
  {
    match cpe
    case JNull => Ok(None)
    case JStr(s) => Ok(Some(CpeMatchText(s)))
    case _ => Err(FormatException)
  }

  /** The CPE 2.3 formatted string `cpe:2.3:<part>:<vendor>:<product>:<version>`
      followed by `tail` (the remaining `:`-separated fields, or nothing). */
  function CpeName(part: string, vendor: string, product: string, version: string, tail: string): string {
    Join(["cpe", "2.3", part, vendor, product, version], ":") + tail
  }

  /** A CPE name built from its fields gives back vendor, product and version. */
  lemma {:induction false} CpeMatchOfFields(part: string, vendor: string, product: string,
                                            version: string, tail: string)
    requires ':' !in part && ':' !in vendor && ':' !in product && ':' !in version
    requires |version| > 0 && version[|version| - 1] != '-'
    requires |tail| == 0 || tail[0] == ':'
    ensures CpeMatchText(CpeName(part, vendor, product, version, tail))
         == vendor + " " + product + " " + version
  {
    var fields := ["cpe", "2.3", part, vendor, product, version];
    assert forall i :: 0 <= i < |fields| ==> ':' !in fields[i];
    SplitJoined(fields, tail, ':');
    var parts := Split(CpeName(part, vendor, product, version, tail), ':');
    assert parts == fields + TailPieces(tail, ':');
    assert Slice(parts, 3, 6) == [vendor, product, version];
    var joined := vendor + " " + product + " " + version;
    var three := [vendor, product, version];
    assert three[1..] == [product, version] && three[1..][1..] == [version];
    assert Join([product, version], " ") == product + " " + version;
    assert Join(three, " ") == vendor + " " + (product + " " + version);
    assert Join(three, " ") == joined;
    assert joined[|joined| - 1] == version[|version| - 1];
  }

  /** The pieces `tail` adds after the last field: none when it is empty, the
      pieces after its leading separator otherwise. */
  function TailPieces(tail: string, c: char): seq<string> {
    if |tail| == 0 then [] else Split(tail[1..], c)
  }

  /** Fields without the separator, joined by it and followed by a tail that
      starts with it (or is empty), split back into the same fields. */
  lemma {:induction false} SplitJoined(fields: seq<string>, tail: string, c: char)
    requires |fields| >= 1
    requires forall i :: 0 <= i < |fields| ==> c !in fields[i]
    requires |tail| == 0 || tail[0] == c
    ensures Split(Join(fields, [c]) + tail, c) == fields + TailPieces(tail, c)
  {
    var f := fields[0];
    if |fields| == 1 {
      if |tail| == 0 {
        assert Join(fields, [c]) + tail == f;
        SplitNoSeparator(f, c);
      } else {
        assert Join(fields, [c]) + tail == f + [c] + tail[1..];
        SplitAfter(f, tail[1..], c);
      }
    } else {
      var more := fields[1..];
      assert forall i :: 0 <= i < |more| ==> c !in more[i] by {
        forall i | 0 <= i < |more| ensures c !in more[i] {
          assert more[i] == fields[i + 1];
        }
      }
      SplitJoined(more, tail, c);
      var b := Join(more, [c]) + tail;
      assert Join(fields, [c]) + tail == f + [c] + b;
      SplitAfter(f, b, c);
      assert fields == [f] + more;
    }
  }

  lemma SplitNoSeparator(s: string, c: char)
    requires c !in s
    ensures Split(s, c) == [s]
  {
    if |s| > 0 {
      SplitNoSeparator(s[1..], c);
      assert [s[0]] + s[1..] == s;
    }
  }

  /** Splitting `a + [c] + b` where `a` has no `c` gives `a` then the pieces of `b`. */
  lemma {:induction false} SplitAfter(a: string, b: string, c: char)
    requires c !in a
    ensures Split(a + [c] + b, c) == [a] + Split(b, c)
  {
    var s := a + [c] + b;
    if |a| == 0 {
      assert s[1..] == b;
    } else {
      assert s[1..] == a[1..] + [c] + b;
      SplitAfter(a[1..], b, c);
      assert [a[0]] + a[1..] == a;
    }
  }

  /** The string part of `format_cpe_dates`: everything before the first "T". */
  function DatePrefix(date: string): (r: string)
    ensures r <= date && 'T' !in r
    ensures 'T' in date ==> date[|r|] == 'T'
    ensures 'T' !in date ==> r == date
  {
    SplitHead(date, 'T');
    Split(date, 'T')[0]
  }

  lemma {:induction false} SplitHead(s: string, c: char)
    ensures Split(s, c)[0] <= s
    ensures c in s ==> s[|Split(s, c)[0]|] == c
    ensures c !in s ==> Split(s, c)[0] == s
  {
    if |s| > 0 {
      SplitHead(s[1..], c);
      if s[0] != c {
        assert Split(s, c)[0] == [s[0]] + Split(s[1..], c)[0];
      }
    }
  }

  /** `format_cpe_dates` on what the resolver returned. */
  function FormatCpeDates(date: Json): (r: Result<Option<string>>)
    ensures date == JNull ==> r == Ok(None)
    ensures date.JStr? ==> r == Ok(Some(DatePrefix(date.s)))
    ensures !date.JNull? && !date.JStr? ==> r == Err(FormatException)
  {
    match date
    case JNull => Ok(None)
    case JStr(s) => Ok(Some(DatePrefix(s)))
    case _ => Err(FormatException)
  }
}

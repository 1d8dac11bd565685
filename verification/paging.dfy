/** The paging of src/api.py: `get_next_index`, which decides from the
    numbers a page reports whether another page is needed, and the loop of
    `get_cve_page` as `get_all_new_pages` drains it. The server is a function
    from the start index asked for to the page it answers with. */
module Paging {
  import opened Outcomes

  /** `get_next_index` on the three numbers of a page. */
  function GetNextIndex(resultsPerPage: int, startIndex: int, totalResults: int): (r: Option<int>)
    ensures r.Some? <==> totalResults - resultsPerPage > startIndex + 1
    ensures r.Some? ==> r.value == startIndex + resultsPerPage
  {
    if totalResults - resultsPerPage > startIndex + 1 then Some(startIndex + resultsPerPage) else None
  }

  /** An index asked for is always below the last record's index. */
  lemma NextIndexBelowLast(resultsPerPage: int, startIndex: int, totalResults: int)
    requires GetNextIndex(resultsPerPage, startIndex, totalResults).Some?
    ensures GetNextIndex(resultsPerPage, startIndex, totalResults).value < totalResults - 1
  {
  }

  /** The `> start_index + 1` rule stops one page early: of 101 results in
      pages of 100 only the first page is fetched, so record 100 is never
      asked for; with 102 results the second page is fetched. */
  lemma PagingStopsEarly()
    ensures GetNextIndex(100, 0, 101) == None
    ensures GetNextIndex(100, 0, 102) == Some(100)
  {
  }

  /** The loop of `get_all_new_pages` over the pages `get_cve_page` yields,
      for any page-decoding `next` and page-parsing `parse`: fetch the page
      at the current start index, decide the next index from it, parse it,
      and go on while there is a next index. `starts` are the start indices
      asked for and `pages` the pages received. */
  method PageLoop<P, R>(server: int -> P, next: P -> Result<Option<int>>, parse: P -> Result<seq<R>>,
                        rpp: int, total: int)
      returns (r: Result<seq<R>>, starts: seq<int>, pages: seq<P>)
    requires rpp > 0
    requires forall i :: next(server(i)).Ok? ==> next(server(i)).value == GetNextIndex(rpp, i, total)
    ensures |starts| >= 1 && |pages| == |starts|
    ensures starts == Multiples(|starts|, rpp)
    ensures forall k :: 0 <= k < |starts| ==> pages[k] == server(starts[k])
    ensures forall k :: 0 <= k < |starts| - 1 ==>
              total - rpp > starts[k] + 1 && next(pages[k]).Ok? && parse(pages[k]).Ok?
    ensures r.Ok? <==> next(pages[|pages| - 1]).Ok? && parse(pages[|pages| - 1]).Ok?
    ensures r.Ok? ==> !(total - rpp > starts[|starts| - 1] + 1)
    ensures r.Ok? ==> ConcatAll(pages, parse) == r
  {
    var index := 0;
    var acc: seq<R> := [];
    starts := [];
    pages := [];
    while true
      invariant index == |starts| * rpp && |pages| == |starts|
      invariant starts == Multiples(|starts|, rpp)
      invariant forall k :: 0 <= k < |starts| ==> pages[k] == server(starts[k])
      invariant forall k :: 0 <= k < |starts| ==>
                  total - rpp > starts[k] + 1 && next(pages[k]).Ok? && parse(pages[k]).Ok?
      invariant ConcatAll(pages, parse) == Ok(acc)
      decreases total - index
    {
      var page := server(index);
      MulSucc(|starts|, rpp);
      ConcatAllSnoc(pages, page, parse);
      assert Multiples(|starts| + 1, rpp) == starts + [index];
      starts := starts + [index];
      pages := pages + [page];
      var n := next(page);
      if n.Err? {
        r := Err(n.error);
        return;
      }
      var reports := parse(page);
      if reports.Err? {
        r := Err(reports.error);
        return;
      }
      acc := acc + reports.value;
      if n.value.None? {
        r := Ok(acc);
        return;
      }
      index := n.value.value;
    }
  }

  /** The first `n` multiples of `m`, from 0. */
  function Multiples(n: nat, m: int): (ms: seq<int>)
    ensures |ms| == n && forall k :: 0 <= k < n ==> ms[k] == k * m
  {
    seq(n, k => k * m)
  }

  /** When the loop stops normally the pages asked for cover every record
      but possibly the last. */
  lemma CoversAllButLast(n: nat, rpp: int, total: int)
    requires n >= 1 && rpp > 0 && !(total - rpp > (n - 1) * rpp + 1)
    ensures n * rpp >= total - 1
  {
    MulSucc(n - 1, rpp);
  }

  lemma MulSucc(n: int, m: int)
    ensures (n + 1) * m == n * m + m
  {
  }
}

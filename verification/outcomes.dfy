/** Optional values and the exceptions the pipeline can raise, as values.

    Python code that raises is modelled by a function returning `Result<T>`;
    `:-` propagates an `Err` exactly as an uncaught exception propagates. */
module Outcomes {

  datatype Option<+T> = None | Some(value: T)

  /** The exception kinds the modelled code can raise. */
  datatype Error =
    | TypeError        // iterating or subscripting a value that does not support it
    | KeyError         // a missing key in `d[key]`
    | IndexError       // `xs[0]` on an empty list or string
    | AttributeError   // a string method called on a value that is not a string
    | ZeroDivisionError  // `x % 0`
    | FormatException  // a formatter given a value it cannot format
    | EmailException   // rendering, connecting or sending a notification failed

  datatype Result<+T> = Ok(value: T) | Err(error: Error) {

    predicate IsFailure() {
      Err?
    }

    function PropagateFailure<U>(): Result<U>
      requires Err?
    {
      Err(error)
    }

    function Extract(): T
      requires Ok?
    {
      value
    }
  }

  /** `[f(x) for x in xs]` where `f` may raise: the first element whose call
      fails is the error. */
  function MapAll<A, B>(xs: seq<A>, f: A -> Result<B>): (r: Result<seq<B>>)
    ensures r.Ok? <==> forall i :: 0 <= i < |xs| ==> f(xs[i]).Ok?
    ensures r.Ok? ==> |r.value| == |xs|
    ensures r.Ok? ==> forall i :: 0 <= i < |xs| ==> f(xs[i]) == Ok(r.value[i])
    ensures r.Err? ==> exists i :: 0 <= i < |xs| && f(xs[i]) == Err(r.error)
                                   && forall j :: 0 <= j < i ==> f(xs[j]).Ok?
  {
    if |xs| == 0 then Ok([])
    else
      var head :- f(xs[0]);
      var rest := MapAll(xs[1..], f);
      assert forall i :: 1 <= i < |xs| ==> xs[i] == xs[1..][i - 1];
      assert rest.Err? ==> exists i :: 0 <= i < |xs| && f(xs[i]) == Err(rest.error)
                                       && forall j :: 0 <= j < i ==> f(xs[j]).Ok?
      by {
        if rest.Err? {
          var k :| 0 <= k < |xs[1..]| && f(xs[1..][k]) == Err(rest.error)
                   && forall j :: 0 <= j < k ==> f(xs[1..][j]).Ok?;
          assert forall j :: 0 <= j < k + 1 ==> f(xs[j]).Ok? by {
            forall j | 0 <= j < k + 1 ensures f(xs[j]).Ok? {
              if j > 0 { assert f(xs[1..][j - 1]).Ok?; }
            }
          }
        }
      }
      var tail :- rest;
      Ok([head] + tail)
  }

  /** A step's outcome without its value: whether it raised, and what. */
  function Status<T>(r: Result<T>): Result<()> {
    if r.Ok? then Ok(()) else Err(r.error)
  }

  /** A step that needs the value of an earlier one: it runs only when the
      earlier step succeeded, and otherwise passes its exception on. */
  function Then<A, B>(r: Result<A>, f: A -> Result<B>): Result<B> {
    if r.Ok? then f(r.value) else Err(r.error)
  }

  /** Two statements that may raise, run one after the other: the first
      one's exception if it raises, otherwise the second one's outcome. */
  function AndThen(first: Result<()>, second: Result<()>): Result<()> {
    if first.Err? then first else second
  }

  /** `for x in xs: out.extend(f(x))` where `f` may raise. */
  function ConcatAll<A, B>(xs: seq<A>, f: A -> Result<seq<B>>): (r: Result<seq<B>>)
    ensures r.Ok? <==> forall k :: 0 <= k < |xs| ==> f(xs[k]).Ok?
  {
    if |xs| == 0 then Ok([])
    else
      var prev :- ConcatAll(xs[..|xs| - 1], f);
      var last :- f(xs[|xs| - 1]);
      assert forall k :: 0 <= k < |xs| - 1 ==> xs[k] == xs[..|xs| - 1][k];
      Ok(prev + last)
  }

  /** One more element: the earlier ones are the prefix, and the output
      grows by the new element's output. */
  lemma ConcatAllSnoc<A, B>(xs: seq<A>, x: A, f: A -> Result<seq<B>>)
    ensures (xs + [x])[..|xs|] == xs && (xs + [x])[|xs|] == x
    ensures ConcatAll(xs + [x], f).Ok? <==> ConcatAll(xs, f).Ok? && f(x).Ok?
    ensures ConcatAll(xs + [x], f).Ok? ==>
              ConcatAll(xs + [x], f).value == ConcatAll(xs, f).value + f(x).value
  {
    var all := xs + [x];
    assert all[..|all| - 1] == xs;
    assert forall k :: 0 <= k < |xs| ==> all[k] == xs[k];
  }
}

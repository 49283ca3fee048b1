/** Failure-carrying values shared by every module of the model.

    `Option` stands for a Python value that may be `None`; `Result` stands for
    a computation that either returns a value or raises one of the exceptions
    the source raises (see `Error`).
 */
module Options {

  datatype Option<+T> = None | Some(value: T) {

    predicate IsFailure() {
      None?
    }

    function PropagateFailure<U>(): Option<U>
      requires None?
    {
      None
    }

    function Extract(): T
      requires Some?
    {
      value
    }

    function GetOr(default: T): T {
      match this
      case Some(v) => v
      case None => default
    }
  }

  /** The exceptions the modelled code raises or reports. */
  datatype Error =
    | ValueError                // a conversion such as int() or date() failed
    | InvalidOperation          // decimal.Decimal() was given text that is not a number
    | OverflowError             // date arithmetic left years 1..9999
    | KeyError                  // a lookup such as FuelType[name] failed
    | AttributeError            // an attribute of None was read
    | ArgumentTypeError         // argparse type conversion failed
    | HttpBadRequest            // fastapi.HTTPException(status_code=400)
    | FetchFailed               // the fetcher or the parser raised while importing a date
    | IntegrityError            // the database refused a row: a NOT NULL column was given NULL, or a UNIQUE key repeated
    | TypeError                 // a call was given a keyword argument its signature lacks
    | RequestException          // requests raised an error other than an HTTP error status

  datatype Result<+T> = Ok(value: T) | Err(error: Error) {

    predicate IsFailure() {
      Err?
    }

    function PropagateFailure<U>(): Result<U>
      requires Err?
    {
      Err(error)
    }

    function Extract(): T
      requires Ok?
    {
      value
    }
  }

  /** Running conversions one after another: the values in order, or the first error raised. */
  function Collect<T>(rs: seq<Result<T>>): (r: Result<seq<T>>)
    ensures r.Ok? ==> |r.value| == |rs| && forall i :: 0 <= i < |rs| ==> rs[i] == Ok(r.value[i])
    ensures r.Err? ==> exists i :: 0 <= i < |rs| && rs[i] == Err(r.error) && forall j :: 0 <= j < i ==> rs[j].Ok?
  {
    if rs == [] then Ok([])
    else
      var first :- rs[0];
      var rest :- Collect(rs[1..]);
      CollectCons(rs, rest);
      Ok([first] + rest)
  }

  lemma CollectCons<T>(rs: seq<Result<T>>, rest: seq<T>)
    requires rs != [] && rs[0].Ok? && |rest| == |rs| - 1
    requires forall i :: 0 <= i < |rs| - 1 ==> rs[1..][i] == Ok(rest[i])
    ensures forall i :: 0 <= i < |rs| ==> rs[i] == Ok(([rs[0].value] + rest)[i])
  {
    forall i | 0 < i < |rs|
      ensures rs[i] == Ok(([rs[0].value] + rest)[i])
    {
      assert rs[i] == rs[1..][i - 1];
    }
  }

  /** The values of the inputs f maps to Some, in input order, as a list comprehension with a filter builds them. */
  function FilterMap<A, B>(xs: seq<A>, f: A -> Option<B>): (ys: seq<B>)
    ensures |ys| <= |xs|
  {
    if xs == [] then []
    else (if f(xs[0]).Some? then [f(xs[0]).value] else []) + FilterMap(xs[1..], f)
  }

  /** The inputs are handled one at a time. */
  lemma {:induction false} FilterMapConcat<A, B>(xs: seq<A>, zs: seq<A>, f: A -> Option<B>)
    ensures FilterMap(xs + zs, f) == FilterMap(xs, f) + FilterMap(zs, f)
  {
    if xs == [] {
      assert xs + zs == zs;
    } else {
      var head := if f(xs[0]).Some? then [f(xs[0]).value] else [];
      assert (xs + zs)[0] == xs[0];
      assert (xs + zs)[1..] == xs[1..] + zs;
      FilterMapConcat(xs[1..], zs, f);
      calc {
        FilterMap(xs + zs, f);
        head + FilterMap(xs[1..] + zs, f);
        head + (FilterMap(xs[1..], f) + FilterMap(zs, f));
        (head + FilterMap(xs[1..], f)) + FilterMap(zs, f);
      }
    }
  }

  /** An output is the image of some input, and every image of an input is output. */
  lemma {:induction false} FilterMapMembers<A, B>(xs: seq<A>, f: A -> Option<B>, y: B)
    ensures y in FilterMap(xs, f) <==> exists k :: 0 <= k < |xs| && f(xs[k]) == Some(y)
  {
    if xs != [] {
      FilterMapMembers(xs[1..], f, y);
      if exists k :: 0 <= k < |xs| && f(xs[k]) == Some(y) {
        var k :| 0 <= k < |xs| && f(xs[k]) == Some(y);
        if k > 0 {
          assert xs[1..][k - 1] == xs[k];
        }
      }
      if exists k :: 0 <= k < |xs[1..]| && f(xs[1..][k]) == Some(y) {
        var k :| 0 <= k < |xs[1..]| && f(xs[1..][k]) == Some(y);
        assert xs[k + 1] == xs[1..][k];
      }
    }
  }
}

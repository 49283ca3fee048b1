/** The command-line type converters for lists of enum members,
    `--types A,B,...`: the text is upper-cased, split on commas and each part
    looked up by member name, any unknown name failing the whole argument.
 */
module Arguments {
  import opened Options
  import opened Text

  /** `[lookup[part] for part in text.upper().split(',')]` when the text is
      non-empty, `None` for an empty one; a `KeyError` becomes
      `ArgumentTypeError`. */
  function ParseNames<T>(s: string, fromName: string -> Result<T>): (r: Result<Option<seq<T>>>)
    ensures s == "" <==> r == Ok(None)
    ensures r.Err? ==> r.error == ArgumentTypeError
    ensures s != "" ==> var parts := SplitOn(Upper(s), ',');
      r.Ok? <==> AllNamed(parts, fromName)
    ensures s != "" && r.Ok? ==> var parts := SplitOn(Upper(s), ',');
      r.value.Some? && |r.value.value| == |parts| && forall i :: 0 <= i < |parts| ==> fromName(parts[i]) == Ok(r.value.value[i])
  {
    if s == "" then Ok(None)
    else
      var parts := SplitOn(Upper(s), ',');
      var c := Collect(Each(parts, fromName));
      LookupsAllOk(parts, fromName);
      if c.Err? then Err(ArgumentTypeError) else Ok(Some(c.value))
  }

  /** Each part names a member. */
  predicate AllNamed<T>(parts: seq<string>, fromName: string -> Result<T>) {
    forall i :: 0 <= i < |parts| ==> fromName(parts[i]).Ok?
  }

  /** `f` applied to each element: the lookup of each part, or the name of each member. */
  function Each<A, B>(xs: seq<A>, f: A -> B): (ys: seq<B>)
    ensures |ys| == |xs| && forall i :: 0 <= i < |xs| ==> ys[i] == f(xs[i])
  {
    seq(|xs|, i requires 0 <= i < |xs| => f(xs[i]))
  }

  /** The lookups all succeed exactly when each part names a member. */
  lemma LookupsAllOk<T>(parts: seq<string>, fromName: string -> Result<T>)
    ensures Collect(Each(parts, fromName)).Ok? <==> AllNamed(parts, fromName)
  {
    var rs := Each(parts, fromName);
    if Collect(rs).Err? {
      var i :| 0 <= i < |rs| && rs[i] == Err(Collect(rs).error);
      assert !fromName(parts[i]).Ok?;
    }
  }

  /** The names of members, upper-case and free of commas, joined with
      commas, parse back to the members; so does the same text in any
      letter case. */
  lemma ParseNamesRoundTrip<T>(xs: seq<T>, nameOf: T -> string, fromName: string -> Result<T>)
    requires xs != [] && nameOf(xs[0]) != ""
    requires forall i :: 0 <= i < |xs| ==> fromName(nameOf(xs[i])) == Ok(xs[i]) && NoLower(nameOf(xs[i])) && ',' !in nameOf(xs[i])
    ensures ParseNames(Join(Each(xs, nameOf), ","), fromName) == Ok(Some(xs))
  {
    var names := Each(xs, nameOf);
    var s := Join(names, ",");
    assert s != "" by {
      JoinStartsWith(names, ",");
    }
    UpperJoin(names, ",");
    SplitOnJoin(names, ',');
    assert SplitOn(Upper(s), ',') == names;
    var r := ParseNames(s, fromName);
    assert r.Ok?;
    var ys := r.value.value;
    assert forall i :: 0 <= i < |xs| ==> Ok(ys[i]) == fromName(names[i]) == Ok(xs[i]);
    assert ys == xs;
  }

  /** A join starts with its first part. */
  lemma JoinStartsWith(parts: seq<string>, sep: string)
    requires parts != []
    ensures |Join(parts, sep)| >= |parts[0]|
  {
  }

  /** Joining parts without lower-case letters with a separator without them gives text without them. */
  lemma {:induction false} UpperJoin(parts: seq<string>, sep: string)
    requires NoLower(sep) && forall i :: 0 <= i < |parts| ==> NoLower(parts[i])
    ensures Upper(Join(parts, sep)) == Join(parts, sep)
    ensures NoLower(Join(parts, sep))
  {
    if |parts| > 1 {
      UpperJoin(parts[1..], sep);
      var j := Join(parts, sep);
      assert j == parts[0] + sep + Join(parts[1..], sep);
      forall i | 0 <= i < |j|
        ensures !('a' <= j[i] <= 'z')
      {
        if i < |parts[0]| {
          assert j[i] == parts[0][i];
        } else if i < |parts[0]| + |sep| {
          assert j[i] == sep[i - |parts[0]|];
        } else {
          assert j[i] == Join(parts[1..], sep)[i - |parts[0]| - |sep|];
        }
      }
    }
    UpperFixes(Join(parts, sep));
  }

  /** The letter case of the text does not matter. */
  lemma ParseNamesCaseInsensitive<T>(s: string, fromName: string -> Result<T>)
    ensures ParseNames(Upper(s), fromName) == ParseNames(s, fromName)
  {
    UpperFixes(s);
  }
}

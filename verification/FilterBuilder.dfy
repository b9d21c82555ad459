/**
 * `build_filter_params` and `build_filter`: repeated `key=value` command-line tokens
 * grouped into a map from each key to its values, in the order given.
 */
module FilterBuilder {
  import opened Wrappers
  import opened Strings

  /** The `defaultdict(list)` the builder fills: key to the values given for it. */
  type Params = map<string, seq<string>>

  /**
   * Unpacking a token's pieces into a key and a value fails on the token at `index`: with
   * no `=` there is one value to unpack, with two or more there are too many.
   */
  datatype UnpackError = TooFewValues(index: nat) | TooManyValues(index: nat)

  /** The result of `build_filter`: the `filters` and `excludes` halves. */
  datatype FilterSpec = FilterSpec(filters: Option<Params>, excludes: Option<Params>)

  const Separator: char := '='

  /** Reading a key of the default-list map: the empty list for a key never appended to. */
  function Lookup(params: Params, k: string): seq<string>
  {
    if k in params then params[k] else []
  }

  /** Appending a value to the list of its key, creating the list on first use. */
  function Append(params: Params, k: string, v: string): Params
  {
    params[k := Lookup(params, k) + [v]]
  }

  /** `build_filter_params`' first step: every token cut at each of its `=` signs. */
  function SplitAll(args: seq<string>): (filters: seq<seq<string>>)
  {
    seq(|args|, i requires 0 <= i < |args| => Split(args[i], Separator, -1))
  }

  /** `build_filter_params`' loop as a function of the pieces: each piece list is unpacked into a key and a value, and the value is appended to the key's list. */
  function Unpack(filters: seq<seq<string>>): Result<Params, UnpackError>
    decreases |filters|
  {
    if |filters| == 0 then Success(map[])
    else
      var n := |filters| - 1;
      match Unpack(filters[..n])
      case Failure(e) => Failure(e)
      case Success(params) =>
        if |filters[n]| < 2 then Failure(TooFewValues(n))
        else if |filters[n]| > 2 then Failure(TooManyValues(n))
        else Success(Append(params, filters[n][0], filters[n][1]))
  }

  /** What `build_filter_params(filter_args)` returns, `None` for an absent or empty list. */
  function FilterParams(args: Option<seq<string>>): Result<Option<Params>, UnpackError>
  {
    if Falsy(args) then Success(None)
    else match Unpack(SplitAll(args.value))
      case Failure(e) => Failure(e)
      case Success(params) => Success(Some(params))
  }

  /** `build_filter_params`: split every token, then append each value to its key's list. */
  method BuildFilterParams(args: Option<seq<string>>) returns (r: Result<Option<Params>, UnpackError>)
    ensures r == FilterParams(args)
  {
    if Falsy(args) {
      return Success(None);
    }
    var filters := SplitAll(args.value);
    var params: Params := map[];
    for i := 0 to |filters|
      invariant Unpack(filters[..i]) == Success(params)
    {
      assert filters[..i + 1][..i] == filters[..i];
      var parts := filters[i];
      if |parts| < 2 {
        UnpackPrefixFails(filters, i + 1);
        return Failure(TooFewValues(i));
      }
      if |parts| > 2 {
        UnpackPrefixFails(filters, i + 1);
        return Failure(TooManyValues(i));
      }
      var k, v := parts[0], parts[1];
      params := params[k := Lookup(params, k) + [v]];
    }
    assert filters[..|filters|] == filters;
    return Success(Some(params));
  }

  /** `build_filter`: the two halves are built independently, the filters first. */
  function BuildFilter(filterArgs: Option<seq<string>>, excludeArgs: Option<seq<string>>): Result<FilterSpec, UnpackError>
  {
    match FilterParams(filterArgs)
    case Failure(e) => Failure(e)
    case Success(filters) =>
      match FilterParams(excludeArgs)
      case Failure(e) => Failure(e)
      case Success(excludes) => Success(FilterSpec(filters, excludes))
  }

  /** The token `key=value`. */
  function Token(key: string, value: string): string
  {
    key + [Separator] + value
  }

  /** The command-line tokens written for a list of key/value pairs. */
  function Tokens(pairs: seq<(string, string)>): seq<string>
  {
    seq(|pairs|, i requires 0 <= i < |pairs| => Token(pairs[i].0, pairs[i].1))
  }

  /** The values given for `key`, in the order they appear in `pairs`. */
  function ValuesOf(pairs: seq<(string, string)>, key: string): seq<string>
  {
    if |pairs| == 0 then []
    else (if pairs[0].0 == key then [pairs[0].1] else []) + ValuesOf(pairs[1..], key)
  }

  /** Unpacking stops at the first piece list that is not a pair, and only there. */
  ghost predicate ReportsFirstMalformed(filters: seq<seq<string>>, e: UnpackError)
  {
    && e.index < |filters|
    && |filters[e.index]| != 2
    && (e.TooFewValues? <==> |filters[e.index]| < 2)
    && forall j :: 0 <= j < e.index ==> |filters[j]| == 2
  }

  lemma {:induction false} UnpackFails(filters: seq<seq<string>>)
    ensures Unpack(filters).Failure? <==> exists i :: 0 <= i < |filters| && |filters[i]| != 2
    ensures Unpack(filters).Failure? ==> ReportsFirstMalformed(filters, Unpack(filters).error)
    decreases |filters|
  {
    if |filters| > 0 {
      var n := |filters| - 1;
      var prefix := filters[..n];
      UnpackFails(prefix);
      assert forall i :: 0 <= i < n ==> prefix[i] == filters[i];
    }
  }

  /** Once a prefix fails, the whole list fails with the same error. */
  lemma {:induction false} UnpackPrefixFails(filters: seq<seq<string>>, k: nat)
    requires k <= |filters| && Unpack(filters[..k]).Failure?
    ensures Unpack(filters) == Unpack(filters[..k])
    decreases |filters|
  {
    if k < |filters| {
      var n := |filters| - 1;
      assert filters[..n][..k] == filters[..k];
      UnpackPrefixFails(filters[..n], k);
    } else {
      assert filters[..k] == filters;
    }
  }

  lemma {:induction false} UnpackNonEmpty(filters: seq<seq<string>>)
    requires |filters| > 0 && Unpack(filters).Success?
    ensures Unpack(filters).value != map[]
  {
    var n := |filters| - 1;
    assert filters[n][0] in Unpack(filters).value;
  }

  lemma {:induction false} ValuesOfAppend(pairs: seq<(string, string)>, last: (string, string), key: string)
    ensures ValuesOf(pairs + [last], key) == ValuesOf(pairs, key) + (if last.0 == key then [last.1] else [])
    decreases |pairs|
  {
    if |pairs| > 0 {
      assert (pairs + [last])[1..] == pairs[1..] + [last];
      ValuesOfAppend(pairs[1..], last, key);
    }
  }

  /** The pieces of a list of well-formed tokens are the pairs themselves. */
  lemma SplitAllTokens(pairs: seq<(string, string)>)
    requires forall i :: 0 <= i < |pairs| ==> Separator !in pairs[i].0 && Separator !in pairs[i].1
    ensures SplitAll(Tokens(pairs)) == Pieces(pairs)
  {
    forall i | 0 <= i < |pairs|
      ensures Split(Token(pairs[i].0, pairs[i].1), Separator, -1) == [pairs[i].0, pairs[i].1]
    {
      SplitAtSeparator(pairs[i].0, pairs[i].1, Separator, -1);
      SplitNoSeparator(pairs[i].1, Separator, -2);
    }
  }

  /** The piece lists `[key, value]` of a list of pairs. */
  function Pieces(pairs: seq<(string, string)>): seq<seq<string>>
  {
    seq(|pairs|, i requires 0 <= i < |pairs| => [pairs[i].0, pairs[i].1])
  }

  lemma LeftSidesSnoc(pairs: seq<(string, string)>)
    requires |pairs| > 0
    ensures var n := |pairs| - 1;
      (set i | 0 <= i < |pairs| :: pairs[i].0) == (set i | 0 <= i < n :: pairs[..n][i].0) + {pairs[n].0}
  {
    var n := |pairs| - 1;
    var keys := set i | 0 <= i < |pairs| :: pairs[i].0;
    forall k | k in keys
      ensures k in (set i | 0 <= i < n :: pairs[..n][i].0) + {pairs[n].0}
    {
      var i :| 0 <= i < |pairs| && pairs[i].0 == k;
      if i < n { assert pairs[..n][i].0 == k; }
    }
  }

  /** Grouping pairs: the keys are the left-hand sides, each with its right-hand sides in order. */
  lemma {:induction false} UnpackGroups(pairs: seq<(string, string)>)
    ensures var r := Unpack(Pieces(pairs));
      && r.Success?
      && r.value.Keys == (set i | 0 <= i < |pairs| :: pairs[i].0)
      && forall k :: Lookup(r.value, k) == ValuesOf(pairs, k)
    decreases |pairs|
  {
    var filters := Pieces(pairs);
    if |pairs| == 0 {
      forall k ensures Lookup(map[], k) == ValuesOf(pairs, k) { }
    } else {
      var n := |pairs| - 1;
      var prefix := pairs[..n];
      UnpackGroups(prefix);
      assert filters[..n] == Pieces(prefix);
      var params := Unpack(Pieces(prefix)).value;
      assert filters[n] == [pairs[n].0, pairs[n].1];
      var r := Append(params, pairs[n].0, pairs[n].1);
      assert Unpack(filters) == Success(r);
      LeftSidesSnoc(pairs);
      assert r.Keys == params.Keys + {pairs[n].0};
      assert pairs == prefix + [pairs[n]];
      forall k ensures Lookup(r, k) == ValuesOf(pairs, k) {
        ValuesOfAppend(prefix, pairs[n], k);
      }
    }
  }

  // ----- properties of build_filter_params and build_filter -----

  /** `None` exactly for an absent or empty token list; otherwise a success holds at least one key. */
  lemma FilterParamsNone(args: Option<seq<string>>)
    ensures FilterParams(args) == Success(None) <==> Falsy(args)
    ensures FilterParams(args).Success? && FilterParams(args).value.Some? ==> FilterParams(args).value.value != map[]
  {
    if !Falsy(args) && FilterParams(args).Success? {
      UnpackNonEmpty(SplitAll(args.value));
    }
  }

  /**
   * Building fails exactly when some token does not hold exactly one `=`; the error names
   * the first such token, as too few values when it has no `=` and too many otherwise.
   */
  lemma FilterParamsMalformed(args: seq<string>)
    ensures FilterParams(Some(args)).Failure? <==> exists i :: 0 <= i < |args| && Count(args[i], Separator) != 1
    ensures FilterParams(Some(args)).Failure? ==>
      var e := FilterParams(Some(args)).error;
      && e.index < |args|
      && Count(args[e.index], Separator) != 1
      && (e.TooFewValues? <==> Count(args[e.index], Separator) == 0)
      && forall j :: 0 <= j < e.index ==> Count(args[j], Separator) == 1
  {
    var filters := SplitAll(args);
    forall i | 0 <= i < |args| ensures |filters[i]| == Count(args[i], Separator) + 1 {
      SplitUnlimited(args[i], Separator, -1);
    }
    UnpackFails(filters);
  }

  /**
   * Every token with exactly one `=` is `key=value` with no `=` in either side; for such
   * tokens the result maps exactly the keys given, each to its values in input order.
   */
  lemma {:induction false} FilterParamsGroups(pairs: seq<(string, string)>)
    requires |pairs| > 0
    requires forall i :: 0 <= i < |pairs| ==> Separator !in pairs[i].0 && Separator !in pairs[i].1
    ensures var r := FilterParams(Some(Tokens(pairs)));
      && r.Success? && r.value.Some?
      && r.value.value.Keys == (set i | 0 <= i < |pairs| :: pairs[i].0)
      && forall k :: k in r.value.value ==> r.value.value[k] == ValuesOf(pairs, k)
  {
    SplitAllTokens(pairs);
    UnpackGroups(pairs);
    var params := Unpack(SplitAll(Tokens(pairs))).value;
    forall k | k in params ensures params[k] == ValuesOf(pairs, k) {
      assert Lookup(params, k) == params[k];
    }
  }

  /** A token with exactly one `=` is a key and a value around it. */
  lemma WellFormedToken(t: string)
    requires Count(t, Separator) == 1
    ensures var parts := Split(t, Separator, -1);
      |parts| == 2 && Separator !in parts[0] && Separator !in parts[1] && t == Token(parts[0], parts[1])
  {
    SplitUnlimited(t, Separator, -1);
    JoinSplit(t, Separator, -1);
  }

  /** Some token of a present, non-empty list does not hold exactly one `=`. */
  ghost predicate HasMalformed(args: Option<seq<string>>)
  {
    !Falsy(args) && exists i :: 0 <= i < |args.value| && Count(args.value[i], Separator) != 1
  }

  /**
   * Each half of `build_filter` is `None` exactly when its own token list is absent or empty.
   * The call fails exactly when either list holds a malformed token; the filters are built
   * first, so their error is the one reported when both lists hold one.
   */
  lemma BuildFilterHalves(filterArgs: Option<seq<string>>, excludeArgs: Option<seq<string>>)
    ensures BuildFilter(filterArgs, excludeArgs).Success? <==>
      FilterParams(filterArgs).Success? && FilterParams(excludeArgs).Success?
    ensures BuildFilter(filterArgs, excludeArgs).Success? ==>
      && (BuildFilter(filterArgs, excludeArgs).value.filters.None? <==> Falsy(filterArgs))
      && (BuildFilter(filterArgs, excludeArgs).value.excludes.None? <==> Falsy(excludeArgs))
    ensures BuildFilter(filterArgs, excludeArgs).Failure? <==> HasMalformed(filterArgs) || HasMalformed(excludeArgs)
    ensures HasMalformed(filterArgs) ==>
      FilterParams(filterArgs).Failure? && BuildFilter(filterArgs, excludeArgs) == Failure(FilterParams(filterArgs).error)
    ensures !HasMalformed(filterArgs) && HasMalformed(excludeArgs) ==>
      FilterParams(excludeArgs).Failure? && BuildFilter(filterArgs, excludeArgs) == Failure(FilterParams(excludeArgs).error)
  {
    FilterParamsNone(filterArgs);
    FilterParamsNone(excludeArgs);
    if !Falsy(filterArgs) {
      FilterParamsMalformed(filterArgs.value);
    }
    if !Falsy(excludeArgs) {
      FilterParamsMalformed(excludeArgs.value);
    }
  }

  /** `build_filter_params(["k=v1", "k=v2", "j=x"])` is `{"k": ["v1", "v2"], "j": ["x"]}`. */
  lemma FilterParamsExample()
    ensures FilterParams(Some(["k=v1", "k=v2", "j=x"])) == Success(Some(map["k" := ["v1", "v2"], "j" := ["x"]]))
  {
    var pairs := ExamplePairs();
    ExampleTokens();
    FilterParamsGroups(pairs);
    var m := FilterParams(Some(Tokens(pairs))).value.value;
    ExampleKeys();
    ExampleValues();
    assert m == map["k" := ["v1", "v2"], "j" := ["x"]];
  }

  function ExamplePairs(): seq<(string, string)>
  {
    [("k", "v1"), ("k", "v2"), ("j", "x")]
  }

  lemma ExampleTokens()
    ensures Tokens(ExamplePairs()) == ["k=v1", "k=v2", "j=x"]
  {
    assert Token("k", "v1") == "k=v1" && Token("k", "v2") == "k=v2" && Token("j", "x") == "j=x";
  }

  lemma ExampleKeys()
    ensures (set i | 0 <= i < |ExamplePairs()| :: ExamplePairs()[i].0) == {"k", "j"}
  {
    var pairs := ExamplePairs();
    assert pairs[0].0 == "k" && pairs[2].0 == "j";
  }

  lemma ExampleValues()
    ensures ValuesOf(ExamplePairs(), "k") == ["v1", "v2"]
    ensures ValuesOf(ExamplePairs(), "j") == ["x"]
  {
    var pairs := ExamplePairs();
    assert pairs[1..][1..] == [("j", "x")] && pairs[1..][1..][1..] == [];
    assert ValuesOf(pairs, "k") == ["v1"] + (["v2"] + ([] + [])) == ["v1", "v2"];
    assert ValuesOf(pairs, "j") == [] + ([] + (["x"] + [])) == ["x"];
  }
}

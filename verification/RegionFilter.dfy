/**
 * Region selection: `is_region_selected`, `filter_regions` and their S3 counterparts.
 * A selector is a regular expression searched case-insensitively in a region's name;
 * the regular-expression engine itself is the parameter `regex`.
 */
module RegionFilter {
  import opened Wrappers
  import opened Sequences

  /** A region descriptor as enumerated by the SDK. */
  datatype Region = Region(name: string, endpoint: string)

  /**
   * The regular-expression engine: whether `re.compile(pattern, re.IGNORECASE)` succeeds,
   * and whether the compiled pattern's `re.search` finds a match in a name.
   */
  datatype Regex = Regex(compiles: string -> bool, search: (string, string) -> bool)

  /** `re.error` for a pattern that does not compile; `KeyError` for a location missing from the region map. */
  datatype SelectError = InvalidPattern(pattern: string) | UnknownLocation(location: string)

  /** The default of the `--region` option of the shared region parser. */
  const DefaultRegionSelector: string := "(ap|eu|sa|us)-[enws]"

  /** `is_region_selected(region, name)`: the pattern is compiled first, then searched in the region's name. */
  function IsRegionSelected(regex: Regex, region: Region, pattern: string): Result<bool, SelectError>
  {
    if !regex.compiles(pattern) then Failure(InvalidPattern(pattern))
    else Success(regex.search(pattern, region.name))
  }

  /** The per-region predicate `filter_regions` passes to `filter`: `is_region_selected` with the selector fixed. */
  function SelectedBy(regex: Regex, pattern: string): Region -> Result<bool, SelectError>
  {
    region => IsRegionSelected(regex, region, pattern)
  }

  /** `filter_regions(regions, region)`: a falsy selector leaves the list as it is. */
  function FilterRegions(regex: Regex, regions: seq<Region>, selector: Option<string>): Result<seq<Region>, SelectError>
  {
    if Falsy(selector) then Success(regions)
    else TryFilter(regions, SelectedBy(regex, selector.value))
  }

  /** `is_region_selected_s3(location, name)`: compile, then look the location up in the region map, then search. */
  function IsRegionSelectedS3(regex: Regex, regionMap: map<string, string>, location: string, pattern: string)
    : Result<bool, SelectError>
  {
    if !regex.compiles(pattern) then Failure(InvalidPattern(pattern))
    else if location !in regionMap then Failure(UnknownLocation(location))
    else Success(regex.search(pattern, regionMap[location]))
  }

  /** The per-location predicate `filter_regions_s3` passes to `filter`: `is_region_selected_s3` with the selector fixed. */
  function SelectedByS3(regex: Regex, regionMap: map<string, string>, pattern: string): string -> Result<bool, SelectError>
  {
    location => IsRegionSelectedS3(regex, regionMap, location, pattern)
  }

  /** `filter_regions_s3(locations, region)`. */
  function FilterRegionsS3(regex: Regex, regionMap: map<string, string>, locations: seq<string>, selector: Option<string>)
    : Result<seq<string>, SelectError>
  {
    if Falsy(selector) then Success(locations)
    else TryFilter(locations, SelectedByS3(regex, regionMap, selector.value))
  }

  /** The question a compiled selector answers about a region: does the pattern occur in its name. */
  function NameMatches(regex: Regex, pattern: string): Region -> bool
  {
    (region: Region) => regex.search(pattern, region.name)
  }

  /**
   * A falsy selector returns the regions unchanged. Otherwise the call fails exactly when
   * there is a region to match and the pattern does not compile; when it compiles, the result
   * keeps, in order and with their multiplicity, exactly the regions whose name it matches.
   */
  lemma FilterRegionsSelects(regex: Regex, regions: seq<Region>, selector: Option<string>)
    ensures Falsy(selector) ==> FilterRegions(regex, regions, selector) == Success(regions)
    ensures !Falsy(selector) ==>
      var pattern := selector.value;
      var r := FilterRegions(regex, regions, selector);
      && (r.Failure? <==> regions != [] && !regex.compiles(pattern))
      && (r.Failure? ==> r.error == InvalidPattern(pattern))
      && (regex.compiles(pattern) ==>
        && r.Success?
        && r.value == Filter(regions, NameMatches(regex, pattern))
        && IsSubsequence(r.value, regions)
        && (forall x :: x in r.value <==> x in regions && regex.search(pattern, x.name))
        && (forall x ::
          multiset(r.value)[x] == (if regex.search(pattern, x.name) then multiset(regions)[x] else 0)))
  {
    if !Falsy(selector) {
      var pattern := selector.value;
      var pred := SelectedBy(regex, pattern);
      if regex.compiles(pattern) {
        TryFilterSucceeds(regions, pred);
        var p := NameMatches(regex, pattern);
        FilterCongruent(regions, Kept(pred), p);
        FilterIsSubsequence(regions, p);
        forall x ensures x in Filter(regions, p) <==> x in regions && regex.search(pattern, x.name) {
          FilterMembership(regions, p, x);
        }
        forall x ensures multiset(Filter(regions, p))[x]
          == (if regex.search(pattern, x.name) then multiset(regions)[x] else 0)
        {
          FilterMultiplicity(regions, p, x);
        }
      }
    }
  }

  /**
   * The S3 variant: the call fails exactly when there is a location to match and either the
   * pattern does not compile or some location is missing from the region map; the error is the
   * pattern's, or else the first missing location's. Otherwise it keeps, in order, exactly the
   * locations whose mapped region name the pattern matches.
   */
  lemma FilterRegionsS3Selects(regex: Regex, regionMap: map<string, string>, locations: seq<string>, selector: Option<string>)
    ensures Falsy(selector) ==> FilterRegionsS3(regex, regionMap, locations, selector) == Success(locations)
    ensures !Falsy(selector) ==>
      var pattern := selector.value;
      var r := FilterRegionsS3(regex, regionMap, locations, selector);
      && (r.Failure? <==>
        locations != [] && (!regex.compiles(pattern) || exists i :: 0 <= i < |locations| && locations[i] !in regionMap))
      && (r.Failure? && !regex.compiles(pattern) ==> r.error == InvalidPattern(pattern))
      && (r.Failure? && regex.compiles(pattern) ==>
        exists i :: 0 <= i < |locations| && locations[i] !in regionMap && r.error == UnknownLocation(locations[i])
          && forall j :: 0 <= j < i ==> locations[j] in regionMap)
      && (regex.compiles(pattern) && (forall i :: 0 <= i < |locations| ==> locations[i] in regionMap) ==>
        && r.Success?
        && IsSubsequence(r.value, locations)
        && (forall x :: x in r.value <==> x in locations && regex.search(pattern, regionMap[x]))
        && (forall x ::
          multiset(r.value)[x] == (if x in regionMap && regex.search(pattern, regionMap[x]) then multiset(locations)[x] else 0)))
  {
    if !Falsy(selector) {
      var pattern := selector.value;
      var pred := SelectedByS3(regex, regionMap, pattern);
      TryFilterFails(locations, pred);
      if regex.compiles(pattern) {
        forall i | 0 <= i < |locations| ensures pred(locations[i]).Failure? <==> locations[i] !in regionMap { }
        if forall i :: 0 <= i < |locations| ==> locations[i] in regionMap {
          TryFilterSucceeds(locations, pred);
          var p := Kept(pred);
          FilterIsSubsequence(locations, p);
          forall x ensures x in Filter(locations, p) <==> x in locations && regex.search(pattern, regionMap[x]) {
            FilterMembership(locations, p, x);
          }
          forall x ensures multiset(Filter(locations, p))[x]
            == (if x in regionMap && regex.search(pattern, regionMap[x]) then multiset(locations)[x] else 0)
          {
            FilterMultiplicity(locations, p, x);
          }
        }
      } else if locations != [] {
        assert pred(locations[0]).Failure?;
      }
    }
  }

  /** The default selector is not falsy, so scripts using the shared parser always filter. */
  lemma DefaultSelectorFilters(regex: Regex, regions: seq<Region>)
    ensures !Falsy(Some(DefaultRegionSelector))
    ensures regex.compiles(DefaultRegionSelector) ==>
      var r := FilterRegions(regex, regions, Some(DefaultRegionSelector));
      r.Success? && forall x :: x in r.value ==> regex.search(DefaultRegionSelector, x.name)
  {
    FilterRegionsSelects(regex, regions, Some(DefaultRegionSelector));
  }

  // ----- a concrete engine for literal patterns -----

  /** ASCII lower-casing, the folding `re.IGNORECASE` applies to ASCII letters. */
  function LowerChar(c: char): char
  {
    if 'A' <= c <= 'Z' then (c as int + 32) as char else c
  }

  function UpperChar(c: char): char
  {
    if 'a' <= c <= 'z' then (c as int - 32) as char else c
  }

  function Lower(s: string): string
  {
    seq(|s|, i requires 0 <= i < |s| => LowerChar(s[i]))
  }

  function Upper(s: string): string
  {
    seq(|s|, i requires 0 <= i < |s| => UpperChar(s[i]))
  }

  /** `sub` occurs in `s`, tried at each start position in turn. */
  predicate Contains(s: string, sub: string)
    decreases |s|
  {
    sub <= s || (|s| > 0 && Contains(s[1..], sub))
  }

  /** The characters that make a pattern more than literal text. */
  const Metacharacters: set<char> := {'.', '^', '$', '*', '+', '?', '{', '}', '[', ']', '\\', '|', '(', ')'}

  predicate IsLiteral(pattern: string)
  {
    forall i :: 0 <= i < |pattern| ==> pattern[i] !in Metacharacters
  }

  /**
   * An engine for patterns that are plain text, where `re.search` with `re.IGNORECASE` is a
   * case-insensitive substring search; other patterns are refused by this engine.
   */
  function LiteralRegex(): Regex
  {
    Regex(IsLiteral, (pattern, name) => Contains(Lower(name), Lower(pattern)))
  }

  /** `Contains` finds `sub` exactly when it starts at some position of `s`. */
  lemma {:induction false} ContainsAt(s: string, sub: string)
    ensures Contains(s, sub) <==> exists i :: 0 <= i <= |s| && sub <= s[i..]
    decreases |s|
  {
    assert s[0..] == s;
    if |s| > 0 {
      ContainsAt(s[1..], sub);
      if Contains(s, sub) && !(sub <= s) {
        var i :| 0 <= i <= |s| - 1 && sub <= s[1..][i..];
        assert s[1..][i..] == s[i + 1..];
      }
      if !Contains(s, sub) {
        forall i | 0 <= i <= |s| ensures !(sub <= s[i..]) {
          if i > 0 { assert s[1..][i - 1..] == s[i..]; }
        }
      }
    }
  }

  lemma LowerFolds(s: string)
    ensures Lower(Upper(s)) == Lower(s) && Lower(Lower(s)) == Lower(s)
  {
  }

  /** With the literal engine, changing the case of the region name or of the pattern does not change the selection. */
  lemma LiteralSelectionIgnoresCase(region: Region, pattern: string)
    ensures IsRegionSelected(LiteralRegex(), region.(name := Upper(region.name)), pattern)
      == IsRegionSelected(LiteralRegex(), region, pattern)
    ensures IsRegionSelected(LiteralRegex(), region, Upper(pattern)).Success?
      <==> IsRegionSelected(LiteralRegex(), region, pattern).Success?
    ensures IsRegionSelected(LiteralRegex(), region, pattern).Success? ==>
      IsRegionSelected(LiteralRegex(), region, Upper(pattern)).value == IsRegionSelected(LiteralRegex(), region, pattern).value
  {
    LowerFolds(region.name);
    LowerFolds(pattern);
    assert IsLiteral(Upper(pattern)) <==> IsLiteral(pattern) by {
      forall i | 0 <= i < |pattern|
        ensures Upper(pattern)[i] in Metacharacters <==> pattern[i] in Metacharacters
      {
        assert Upper(pattern)[i] == UpperChar(pattern[i]);
      }
    }
  }

  /** "us" does not occur in "eu-west-1", in any case. */
  lemma EuWestHasNoUs()
    ensures !Contains(Lower("eu-west-1"), "us")
  {
    var t := Lower("eu-west-1");
    assert |t| == 9;
    assert t[0] == 'e' && t[1] == 'u' && t[2] == '-' && t[3] == 'w' && t[4] == 'e';
    assert t[5] == 's' && t[6] == 't' && t[7] == '-' && t[8] == '1';
    ContainsAt(t, "us");
    forall i | 0 <= i <= |t| ensures !("us" <= t[i..]) {
      if i + 2 <= |t| {
        assert t[i..][0] == t[i] && t[i..][1] == t[i + 1];
      }
    }
  }

  lemma LiteralUsPattern()
    ensures IsLiteral("us") && Lower("us") == "us"
  {
  }

  lemma LiteralUsSelected(region: Region)
    requires |region.name| >= 2 && region.name[0] == 'u' && region.name[1] == 's'
    ensures SelectedBy(LiteralRegex(), "us")(region) == Success(true)
  {
    LiteralUsPattern();
    var n := Lower(region.name);
    assert n[0] == 'u' && n[1] == 's';
    assert "us" <= n;
  }

  /** Selecting `us` among us-east-1, us-west-2 and eu-west-1 keeps the first two, whatever their endpoints. */
  lemma FilterRegionsExample(usEast: Region, usWest: Region, euWest: Region)
    requires usEast.name == "us-east-1" && usWest.name == "us-west-2" && euWest.name == "eu-west-1"
    ensures FilterRegions(LiteralRegex(), [usEast, usWest, euWest], Some("us")) == Success([usEast, usWest])
  {
    var regions := [usEast, usWest, euWest];
    var pred := SelectedBy(LiteralRegex(), "us");
    LiteralUsSelected(usEast);
    LiteralUsSelected(usWest);
    assert pred(euWest) == Success(false) by {
      LiteralUsPattern();
      EuWestHasNoUs();
    }
    var tail1, tail2 := [usWest, euWest], [euWest];
    assert tail2[1..] == [] && TryFilter(tail2, pred) == Success([]);
    assert tail1[0] == usWest && tail1[1..] == tail2;
    assert TryFilter(tail1, pred) == Success([usWest] + []);
    assert [usWest] + [] == [usWest] && [usEast] + [usWest] == [usEast, usWest];
    assert regions[0] == usEast && regions[1..] == tail1;
    assert TryFilter(regions, pred) == Success([usEast] + [usWest]);
  }
}

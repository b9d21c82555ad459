# botocross helper library, modelled in Dafny

botocross is a set of command-line tools that run the same cloud operation in every
region of a provider, or in a selected subset. The scripts share a small helper
library, `botocross/__init__.py`. This project models that library's logic and proves
what it promises:

- **Filter parameters** (`build_filter_params`, `build_filter`). Repeated `key=value`
  tokens from the command line are grouped into a map from each key to its values, in
  the order given. An absent or empty token list gives `None`.
  `FilterBuilder.BuildFilterParams` is the source's loop, appending into a
  `defaultdict(list)`. It is a method over a map, proved equal to the specification
  function `FilterParams`. Lemmas about `FilterParams` state three things: when the
  result is `None`, when building fails, and how the values are grouped.
- **Attribute exclusion** (`filter_list_by_attribute`). This keeps the elements of
  `includes` whose attribute value is not the attribute value of any element of
  `excludes`. The attribute read by `getattr` is a function parameter `attr`.
- **Region selection** (`is_region_selected`, `filter_regions` and their S3
  counterparts). A selector is a regular expression searched case-insensitively in a
  region's name. For S3, the name is first looked up in the region map. The
  regular-expression engine is a parameter `Regex(compiles, search)`.
  `RegionFilter.LiteralRegex` is a concrete engine for plain-text patterns: an ASCII
  case-insensitive substring search.
- **ARN assembly** (`create_arn`). The account id is a parameter. `Arn.ParseArn`,
  which splits at the first five colons as `str.split(':', 5)` does, is its inverse
  when service, region and account id hold no colon; every name it accepts is rebuilt by
  `create_arn`.
- **Exit codes** (`ExitCodes`): `OK` is 0 and `FAIL` is 1.

Two supporting modules model Python built-ins used by the helpers:

- `Strings`: `str.split` with a one-character separator and `maxsplit`, and `join`.
- `Sequences`: filtering a list. `Filter` covers comprehensions with a condition.
  `TryFilter` covers Python 2's eager `filter` with a predicate that may raise.

The source is Python 2 (`print` statements, `StandardError`), so `filter` returns a
list. An exception raised by the predicate ends the call at the first element where it
happens. The model follows this.

Two behaviours of the code follow directly from how it is written:

- A filter token is split at every `=` and unpacked into exactly two names
  (`botocross/__init__.py:61-62`). A token with no `=` fails with "need more than 1
  value to unpack"; a token with two or more fails with "too many values to unpack".
  `FilterBuilder.UnpackError` records which case happened and at which token.
- The region pattern is compiled inside the per-region predicate
  (`botocross/__init__.py:123`, `:129`). Python 2's `filter` is eager, so an invalid
  pattern fails on the first region, and an empty region list gives an empty result
  without error.

## Model

| member | source | states |
|---|---|---|
| `FilterBuilder.FilterParams` | botocross/__init__.py:54-66 | `build_filter_params`: `None` for an absent or empty list, otherwise the tokens split by `SplitAll` and unpacked by `Unpack`; `FilterParamsNone`, `FilterParamsMalformed` and `FilterParamsGroups` state its result |
| `FilterBuilder.SplitAll` | botocross/__init__.py:61 | every token cut at each of its `=` signs; `SplitAllTokens` and `WellFormedToken` state its result on well-formed tokens |
| `FilterBuilder.Unpack` | botocross/__init__.py:60-63 | the unpacking loop over the piece lists, appending each value to its key's list in a default-list map; `UnpackFails`, `UnpackPrefixFails`, `UnpackNonEmpty` and `UnpackGroups` state its result |
| `FilterBuilder.BuildFilter` | botocross/__init__.py:51-52 | `build_filter`: the filters half and then the excludes half, each by `FilterParams`; `BuildFilterHalves` states its result |
| `FilterBuilder.BuildFilterParams` | botocross/__init__.py:54-66 | the in-place loop over the split tokens returns exactly `FilterParams(args)`: `None` for a falsy list, the first unpacking error, or the grouped map |
| `FilterBuilder.FilterParamsNone` | botocross/__init__.py:57-58 | the result is `None` if and only if the token list is `None` or empty; a successful non-`None` result has at least one key |
| `FilterBuilder.FilterParamsMalformed` | botocross/__init__.py:61-62 | building fails if and only if some token does not hold exactly one `=`; the error names the first such token, as too few values when it has no `=` and as too many otherwise; no partial map is returned |
| `FilterBuilder.FilterParamsGroups` | botocross/__init__.py:60-63 | for `key=value` tokens, the key set is exactly the set of left-hand sides, and each key maps to its right-hand sides in input order |
| `FilterBuilder.WellFormedToken` | botocross/__init__.py:61 | a token with exactly one `=` splits into two `=`-free pieces that rebuild it as `key=value`, so `FilterParamsGroups` covers every well-formed input |
| `FilterBuilder.UnpackFails` | botocross/__init__.py:62-63 | the unpacking loop fails if and only if some piece list is not a pair, and reports the first one |
| `FilterBuilder.UnpackPrefixFails` | botocross/__init__.py:62-63 | once unpacking fails on a prefix of the tokens, the later tokens do not change the error |
| `FilterBuilder.UnpackNonEmpty` | botocross/__init__.py:62-63 | unpacking a non-empty list of pairs yields a non-empty map |
| `FilterBuilder.UnpackGroups` | botocross/__init__.py:60-63 | appending pairs into the default-list map gives each key its values in order, and the empty list for any key never seen |
| `FilterBuilder.ValuesOfAppend` | botocross/__init__.py:62-63 | appending a pair adds its value at the end of its key's values and leaves other keys' values unchanged |
| `FilterBuilder.SplitAllTokens` | botocross/__init__.py:61 | splitting `key=value` tokens whose sides hold no `=` yields exactly the pairs |
| `FilterBuilder.BuildFilterHalves` | botocross/__init__.py:51-52 | `build_filter` succeeds exactly when both halves do, and each half is `None` exactly when its own token list is falsy; it fails exactly when either list holds a token without exactly one `=`, and the filters' error wins because they are built first |
| `FilterBuilder.FilterParamsExample` | botocross/__init__.py:54-66 | `["k=v1", "k=v2", "j=x"]` gives `{"k": ["v1", "v2"], "j": ["x"]}` |
| `AttributeFilter.FilterListByAttribute` | botocross/__init__.py:118-120 | `filter_list_by_attribute`: the `includes` whose attribute value is not among the attribute values of `excludes`; `FilterListByAttributeKeeps` states its result |
| `AttributeFilter.FilterListByAttributeKeeps` | botocross/__init__.py:118-120 | the result is an order-preserving subsequence of `includes`; an element is in it if and only if it is in `includes` and no element of `excludes` shares its attribute value; kept values keep their multiplicity |
| `AttributeFilter.FilterListByAttributeNoExcludes` | botocross/__init__.py:119-120 | with empty `excludes`, `includes` is returned unchanged |
| `AttributeFilter.FilterListByAttributeIdempotent` | botocross/__init__.py:118-120 | filtering twice with the same `excludes` equals filtering once |
| `AttributeFilter.FilterListByAttributeExcludedSet` | botocross/__init__.py:119 | `excludes` lists with the same elements, in any order and with any duplicates, give the same result |
| `AttributeFilter.FilterListByAttributeExample` | botocross/__init__.py:118-120 | ids 1, 2, 3 with id 2 excluded leave ids 1 and 3 |
| `RegionFilter.IsRegionSelected` | botocross/__init__.py:122-124 | `is_region_selected`: an invalid-pattern error when the pattern does not compile, otherwise whether it is found in the region's name; `FilterRegionsSelects` states what selection by it keeps |
| `RegionFilter.FilterRegions` | botocross/__init__.py:126-130 | `filter_regions`: the list itself for a falsy selector, otherwise Python 2's eager `filter` by `IsRegionSelected`; `FilterRegionsSelects` states the result |
| `RegionFilter.IsRegionSelectedS3` | botocross/__init__.py:133-136 | `is_region_selected_s3`: an invalid-pattern error first, then an unknown-location error for a location missing from the region map, otherwise whether the pattern is found in the mapped name; `FilterRegionsS3Selects` states what selection by it keeps |
| `RegionFilter.FilterRegionsS3` | botocross/__init__.py:139-143 | `filter_regions_s3`: the list itself for a falsy selector, otherwise Python 2's eager `filter` by `IsRegionSelectedS3`; `FilterRegionsS3Selects` states the result |
| `RegionFilter.FilterRegionsSelects` | botocross/__init__.py:122-130 | a falsy selector returns the regions unchanged; otherwise the call fails if and only if there is a region and the pattern does not compile; when the pattern compiles, the call is a plain filter by the name search and keeps, in order and with multiplicity, exactly the regions whose name it matches |
| `RegionFilter.FilterRegionsS3Selects` | botocross/__init__.py:133-143 | a falsy selector returns the locations unchanged, without any lookup; otherwise the call fails if and only if there is a location and either the pattern does not compile or some location is missing from the region map (the first missing one is reported); otherwise it keeps, in order, exactly the locations whose mapped name matches |
| `RegionFilter.DefaultSelectorFilters` | botocross/__init__.py:80-84 | the region parser's default selector is not falsy, so with it every kept region matches the default pattern |
| `RegionFilter.LiteralSelectionIgnoresCase` | botocross/__init__.py:122-124 | with the literal engine, upper-casing the region name or the pattern does not change whether a region is selected |
| `RegionFilter.ContainsAt` | botocross/__init__.py:124 | the literal engine's search finds the pattern if and only if it occurs at some position of the name |
| `RegionFilter.FilterRegionsExample` | botocross/__init__.py:126-130 | selecting `us` among us-east-1, us-west-2 and eu-west-1 keeps the first two, in order |
| `Arn.CreateArn` | botocross/__init__.py:44-48 | `create_arn`: `arn`, `aws`, service, region, account id and resource joined by colons, with the account id a parameter; `ParseCreateArn` and `CreateParseArn` state its round trip with `ParseArn` |
| `Arn.ParseCreateArn` | botocross/__init__.py:44-48 | when service, region and account id hold no colon, splitting the ARN at its first five colons gives `arn`, `aws` and the four parts, even if the resource holds colons |
| `Arn.CreateParseArn` | botocross/__init__.py:44-48 | every name that `ParseArn` accepts is the ARN `create_arn` builds from the parsed parts |
| `Strings.Split` | botocross/__init__.py:61 | `str.split` always returns at least one piece |
| `Strings.JoinSplit` | botocross/__init__.py:61 | joining the pieces of a split with the separator gives back the string |
| `Strings.SplitUnlimited` | botocross/__init__.py:61 | an unlimited split gives one piece more than there are separators, and no piece holds the separator |
| `Strings.SplitNoSeparator` | botocross/__init__.py:61 | a string without the separator is returned as the only piece |
| `Strings.SplitAtSeparator` | botocross/__init__.py:61 | the first cut falls at the first separator, and the rest is split with one cut fewer |
| `Sequences.Filter` | botocross/__init__.py:120 | the kept elements all satisfy the condition and are no more than the input |
| `Sequences.FilterIsSubsequence` | botocross/__init__.py:120 | a filtered list is an order-preserving subsequence of its input |
| `Sequences.FilterMultiplicity` | botocross/__init__.py:120 | each value occurs in the result as often as in the input when it passes the condition, and never otherwise |
| `Sequences.FilterMembership` | botocross/__init__.py:120 | a value is in the result if and only if it is in the input and passes the condition |
| `Sequences.FilterKeepsAll` | botocross/__init__.py:120 | when every element passes, the input is returned unchanged |
| `Sequences.FilterIdempotent` | botocross/__init__.py:120 | filtering twice with one condition equals filtering once |
| `Sequences.FilterCongruent` | botocross/__init__.py:120 | only the condition's values on the input's elements matter |
| `Sequences.TryFilter` | botocross/__init__.py:129 | Python 2's eager `filter` with a predicate that may raise, as used here and at line 142: the first raised error ends the call; `TryFilterSucceeds` and `TryFilterFails` state its result |
| `Sequences.TryFilterSucceeds` | botocross/__init__.py:129 | when the predicate raises on no element, Python 2's `filter` is an ordinary filter by the predicate's answers |
| `Sequences.TryFilterFails` | botocross/__init__.py:129 | `filter` raises if and only if the predicate raises on some element, and it raises the first such element's error |
| `ExitCodes.ExitCode.Code` | botocross/__init__.py:146-147 | the codes come from `range(0, 2)`, and only `OK` is 0 |

## Left out

- Logging: `configure_logger` and `configure_logging` (`botocross/__init__.py:27-42`), and the `botocross_log.info`/`debug` calls inside `build_filter_params` (`botocross/__init__.py:64-65`), `filter_regions` (`:128`) and `filter_regions_s3` (`:141`). These change global logger registries and write to streams, which is I/O.
- The argument-parser factories `build_common_parser`, `build_region_parser`, `build_filter_parser`, `build_backup_parser` and `parse_credentials` (`botocross/__init__.py:68-116`). They only configure `argparse`. The one value the model uses from them is the default region selector.
- The IAM account lookup in `create_arn` (`botocross/__init__.py:45-47`) is a network call through `AccountInfo`. `botocross/iam/accountinfo.py` is not part of this model, so the account id is a parameter.
- The regular-expression engine (`re.compile`, `re.search`, `re.IGNORECASE`) is not modelled. It is the parameter `Regex`. `LiteralRegex` covers only plain-text patterns, with ASCII case folding; it refuses any pattern with a metacharacter.
- `RegionMap` and `class_iterator` come from `botocross/s3`, which is not part of this model. They are a map parameter and a sequence parameter.
- `getattr` raising `AttributeError` for a missing attribute is not modelled: `attr` is a total function. Neither is the `TypeError` Python raises for an unhashable attribute value, when `filter_list_by_attribute` builds its `set` and tests `not in` against it (`botocross/__init__.py:119-120`): the attribute type `K` only needs equality.
- `build_filter_params` returns a `defaultdict`. A later read of a missing key inserts an empty list; that behaviour of the returned object is not modelled. `Params` is a plain map, and `Lookup` gives the default-list reading.
- Truthiness is modelled only for `None` and for lists and strings. Other falsy Python values passed as the token list or the selector are not modelled.
- `BotocrossAwaitTimeoutError` (`botocross/__init__.py:149-154`) is never raised. The version lookup (`botocross/__init__.py:156-158`) reads generated metadata. Neither is modelled.
- The scripts under `scripts/` are not modelled. They consist of argument parsing, SDK connections and printing. Their inline helpers are left out too: the case-sensitive `find`-based `isSelected`, and the last-value-wins `dict(...)` filter.
- `RegionFilter.LiteralSelectionIgnoresCase`: states case independence only for upper-casing with the literal engine; case folding in a general regular-expression engine is part of the parameter.

/**
 * Searches whose filters are all optional. Each filter is one WHERE conjunct
 * `(? IS NULL OR <test> ?)` with two placeholders, and each gets two adjacent
 * identical parameters: null when the filter was not given (or given empty),
 * which switches the conjunct off, and otherwise the value to test.
 *
 * The test itself (a LIKE on some column, or an equality) runs inside MySQL and
 * is left to an oracle `matches(k, value)`: "the k-th filter's test is TRUE for
 * this row with that value".
 */
module OptionalFilters {
  import opened Wrappers
  import opened Api
  import opened Sql

  /** `v ? `%${v}%` : null`. */
  function LikeOrNull(a: Arg): Param {
    if Truthy(a) then Str(LikePattern(a.value)) else Null
  }

  /** `v || null`: the value itself, unwrapped. */
  function RawOrNull(a: Arg): Param {
    if Truthy(a) then Str(a.value) else Null
  }

  /** The parameter pair of each filter, in filter order. */
  function PairedParams(args: seq<Arg>): seq<Param> {
    if args == [] then [] else [LikeOrNull(args[0]), LikeOrNull(args[0])] + PairedParams(args[1..])
  }

  /** Filter `i` owns parameters `2i` and `2i + 1`, both LikeOrNull of its argument, so there
      are twice as many parameters as filters. */
  lemma {:induction false} PairedParamsLayout(args: seq<Arg>)
    ensures |PairedParams(args)| == 2 * |args|
    ensures forall j :: 0 <= j < |PairedParams(args)| ==> PairedParams(args)[j] == LikeOrNull(args[j / 2])
  {
    if args != [] {
      PairedParamsLayout(args[1..]);
      var ps, rest := PairedParams(args), PairedParams(args[1..]);
      assert forall j :: 2 <= j < |ps| ==> ps[j] == rest[j - 2];
    }
  }

  /** The parameters of the judgment search by legislation, section and subsection. */
  function SearchResultsParams(legislationName: Arg, section: Arg, subsection: Arg): seq<Param> {
    [ LikeOrNull(legislationName), LikeOrNull(legislationName),
      LikeOrNull(section), LikeOrNull(section),
      LikeOrNull(subsection), LikeOrNull(subsection) ]
  }

  /** The parameters of the judgment search by case type, number and year. */
  function CaseNoParams(caseType: Arg, caseNo: Arg, caseYear: Arg): seq<Param> {
    [ LikeOrNull(caseType), LikeOrNull(caseType),
      LikeOrNull(caseNo), LikeOrNull(caseNo),
      LikeOrNull(caseYear), LikeOrNull(caseYear) ]
  }

  /** The parameters of the bare-act search; the act id is compared with `=`, not LIKE. */
  function BareActSearchParams(bareActId: Arg, bareActName: Arg, sectionPrefix: Arg,
                               sectionNo: Arg, notificationName: Arg): seq<Param> {
    [ RawOrNull(bareActId), RawOrNull(bareActId),
      LikeOrNull(bareActName), LikeOrNull(bareActName),
      LikeOrNull(sectionPrefix), LikeOrNull(sectionPrefix),
      LikeOrNull(sectionNo), LikeOrNull(sectionNo),
      LikeOrNull(notificationName), LikeOrNull(notificationName) ]
  }

  /** The search-results array is the paired layout of its three filters. */
  lemma SearchResultsParamsPaired(legislationName: Arg, section: Arg, subsection: Arg)
    ensures SearchResultsParams(legislationName, section, subsection)
         == PairedParams([legislationName, section, subsection])
  {
    PairedParamsThree(legislationName, section, subsection);
  }

  /** The case-number array is the paired layout of its three filters. */
  lemma CaseNoParamsPaired(caseType: Arg, caseNo: Arg, caseYear: Arg)
    ensures CaseNoParams(caseType, caseNo, caseYear) == PairedParams([caseType, caseNo, caseYear])
  {
    PairedParamsThree(caseType, caseNo, caseYear);
  }

  /** The bare-act array is the raw id pair followed by the paired layout of the four
      LIKE filters. */
  lemma BareActSearchParamsPaired(bareActId: Arg, bareActName: Arg, sectionPrefix: Arg,
                                  sectionNo: Arg, notificationName: Arg)
    ensures BareActSearchParams(bareActId, bareActName, sectionPrefix, sectionNo, notificationName)
         == [RawOrNull(bareActId), RawOrNull(bareActId)]
            + PairedParams([bareActName, sectionPrefix, sectionNo, notificationName])
  {
    var args := [bareActName, sectionPrefix, sectionNo, notificationName];
    assert args == [bareActName] + [sectionPrefix, sectionNo, notificationName];
    PairedParamsCons(bareActName, [sectionPrefix, sectionNo, notificationName]);
    PairedParamsThree(sectionPrefix, sectionNo, notificationName);
  }

  /** PairedParams of three filters, spelled out. */
  lemma PairedParamsThree(a: Arg, b: Arg, c: Arg)
    ensures PairedParams([a, b, c])
         == [LikeOrNull(a), LikeOrNull(a), LikeOrNull(b), LikeOrNull(b), LikeOrNull(c), LikeOrNull(c)]
  {
    assert [a, b, c] == [a] + [b, c];
    assert [b, c] == [b] + [c];
    assert [c] == [c] + [];
    PairedParamsCons(a, [b, c]);
    PairedParamsCons(b, [c]);
    PairedParamsCons(c, []);
  }

  /** One step of PairedParams: the first filter's pair, then the rest. */
  lemma PairedParamsCons(a: Arg, rest: seq<Arg>)
    ensures PairedParams([a] + rest) == [LikeOrNull(a), LikeOrNull(a)] + PairedParams(rest)
  {
    assert ([a] + rest)[1..] == rest;
  }

  /** One conjunct `(? IS NULL OR <test k> ?)` with its two parameters bound. */
  predicate FilterHolds(isNull: Param, value: Param, k: nat, matches: (nat, string) -> bool) {
    isNull.Null? || (value.Str? && matches(k, value.s))
  }

  /** Evaluates a WHERE made of `count` conjuncts numbered from `k`, binding the parameters
      two by two. None is a parameter count MySQL refuses. A test against a null value is
      never TRUE, which is what `matches` being left out for Null expresses. */
  function EvalFilters(count: nat, ps: seq<Param>, matches: (nat, string) -> bool, k: nat): Option<bool>
    decreases count
  {
    if count == 0 then
      if ps == [] then Some(true) else None
    else if |ps| < 2 then None
    else
      match EvalFilters(count - 1, ps[2..], matches, k + 1)
      case None => None
      case Some(rest) => Some(FilterHolds(ps[0], ps[1], k, matches) && rest)
  }

  /** Filter `k` was not given, or its test matches `%a%`. */
  predicate MatchesIfGiven(a: Arg, matches: (nat, string) -> bool, k: nat) {
    Truthy(a) ==> matches(k, LikePattern(a.value))
  }

  /** Every filter that was given, the i-th numbered `k + i`, matches. */
  predicate GivenFiltersMatch(args: seq<Arg>, matches: (nat, string) -> bool, k: nat)
    decreases |args|
  {
    args == [] || (MatchesIfGiven(args[0], matches, k) && GivenFiltersMatch(args[1..], matches, k + 1))
  }

  /** GivenFiltersMatch asks each filter `i` to be absent or to match as filter `k + i`. */
  lemma {:induction false} GivenFiltersMatchAll(args: seq<Arg>, matches: (nat, string) -> bool, k: nat)
    ensures GivenFiltersMatch(args, matches, k) <==> forall i :: 0 <= i < |args| ==> MatchesIfGiven(args[i], matches, k + i)
    decreases |args|
  {
    if args != [] {
      var rest := args[1..];
      GivenFiltersMatchAll(rest, matches, k + 1);
      assert forall i :: 1 <= i < |args| ==> args[i] == rest[i - 1] && k + i == (k + 1) + (i - 1);
    }
  }

  /** A row passes the paired filters exactly when every filter that was given matches it;
      a filter left out restricts nothing. */
  lemma {:induction false} PairedFiltersMeaning(args: seq<Arg>, matches: (nat, string) -> bool, k: nat)
    ensures EvalFilters(|args|, PairedParams(args), matches, k) == Some(GivenFiltersMatch(args, matches, k))
    decreases |args|
  {
    if args != [] {
      PairedParamsCons(args[0], args[1..]);
      assert args == [args[0]] + args[1..];
      PairedFiltersMeaning(args[1..], matches, k + 1);
      GivenFiltersMatchCons(args[0], args[1..], matches, k);
    }
  }

  /** GivenFiltersMatch of a list is that of its head and of its tail. */
  lemma GivenFiltersMatchCons(a: Arg, rest: seq<Arg>, matches: (nat, string) -> bool, k: nat)
    ensures GivenFiltersMatch([a] + rest, matches, k)
        <==> MatchesIfGiven(a, matches, k) && GivenFiltersMatch(rest, matches, k + 1)
  {
    assert ([a] + rest)[1..] == rest;
  }

  /** The judgment search by legislation, section and subsection keeps a row exactly when
      each of the three filters given matches it. */
  lemma SearchResultsMeaning(legislationName: Arg, section: Arg, subsection: Arg,
                             matches: (nat, string) -> bool)
    ensures EvalFilters(3, SearchResultsParams(legislationName, section, subsection), matches, 0)
         == Some(MatchesIfGiven(legislationName, matches, 0)
                 && MatchesIfGiven(section, matches, 1)
                 && MatchesIfGiven(subsection, matches, 2))
  {
    SearchResultsParamsPaired(legislationName, section, subsection);
    PairedFiltersMeaning([legislationName, section, subsection], matches, 0);
    GivenFiltersMatchThree(legislationName, section, subsection, matches, 0);
  }

  /** The judgment search by case number keeps a row exactly when each of the three filters
      given matches it. */
  lemma CaseNoMeaning(caseType: Arg, caseNo: Arg, caseYear: Arg, matches: (nat, string) -> bool)
    ensures EvalFilters(3, CaseNoParams(caseType, caseNo, caseYear), matches, 0)
         == Some(MatchesIfGiven(caseType, matches, 0)
                 && MatchesIfGiven(caseNo, matches, 1)
                 && MatchesIfGiven(caseYear, matches, 2))
  {
    CaseNoParamsPaired(caseType, caseNo, caseYear);
    PairedFiltersMeaning([caseType, caseNo, caseYear], matches, 0);
    GivenFiltersMatchThree(caseType, caseNo, caseYear, matches, 0);
  }

  /** The bare-act search keeps a row exactly when its act id equals the id given (if any)
      and each of the four LIKE filters given matches it. */
  lemma BareActSearchMeaning(bareActId: Arg, bareActName: Arg, sectionPrefix: Arg,
                             sectionNo: Arg, notificationName: Arg, matches: (nat, string) -> bool)
    ensures EvalFilters(5, BareActSearchParams(bareActId, bareActName, sectionPrefix, sectionNo, notificationName), matches, 0)
         == Some((Truthy(bareActId) ==> matches(0, bareActId.value))
                 && GivenFiltersMatch([bareActName, sectionPrefix, sectionNo, notificationName], matches, 1))
  {
    var args := [bareActName, sectionPrefix, sectionNo, notificationName];
    var ps := BareActSearchParams(bareActId, bareActName, sectionPrefix, sectionNo, notificationName);
    var tail := PairedParams(args);
    BareActSearchParamsPaired(bareActId, bareActName, sectionPrefix, sectionNo, notificationName);
    assert ps[2..] == tail;
    PairedFiltersMeaning(args, matches, 1);
  }

  /** GivenFiltersMatch of three filters, spelled out. */
  lemma GivenFiltersMatchThree(a: Arg, b: Arg, c: Arg, matches: (nat, string) -> bool, k: nat)
    ensures GivenFiltersMatch([a, b, c], matches, k)
        <==> MatchesIfGiven(a, matches, k) && MatchesIfGiven(b, matches, k + 1) && MatchesIfGiven(c, matches, k + 2)
  {
    assert [a, b, c] == [a] + [b, c];
    assert [b, c] == [b] + [c];
    assert [c] == [c] + [];
    GivenFiltersMatchCons(a, [b, c], matches, k);
    GivenFiltersMatchCons(b, [c], matches, k + 1);
    GivenFiltersMatchCons(c, [], matches, k + 2);
  }

  /** The case-number handler: refuse the request when no filter is given, otherwise bind
      the three filters. */
  function SearchByCaseNo(caseType: Arg, caseNo: Arg, caseYear: Arg): (r: Result<seq<Param>, Rejection>)
    ensures r.Failure? <==> !Truthy(caseType) && !Truthy(caseNo) && !Truthy(caseYear)
    ensures r.Failure? ==> r.error == BadRequest(MissingParameter)
    ensures r.Success? ==> r.value == PairedParams([caseType, caseNo, caseYear])
    ensures r.Success? ==> exists j :: 0 <= j < |r.value| && r.value[j].Str?
  {
    if !Truthy(caseType) && !Truthy(caseNo) && !Truthy(caseYear) then
      Failure(BadRequest(MissingParameter))
    else
      var ps := CaseNoParams(caseType, caseNo, caseYear);
      CaseNoParamsPaired(caseType, caseNo, caseYear);
      assert ps[0].Str? || ps[2].Str? || ps[4].Str?;
      Success(ps)
  }
}

/**
 * The advanced search of judgments: six keyword lists taken from the query
 * string, one EXISTS sub-query per keyword, all of them joined with AND, and
 * the positional LIKE parameters bound to their placeholders.
 *
 * The statement is modelled as a sequence of tokens: its fixed SELECT ... WHERE
 * head, one clause per condition (each holding exactly one `?`), the AND
 * operators between them and the ORDER BY tail. What a clause means inside
 * MySQL is left to an oracle `holds(category, pattern)`: "this judgment has a
 * linked row of that category whose Column(category) is LIKE that pattern".
 */
module AdvancedSearch {
  import opened Wrappers
  import opened Api
  import opened Sql

  /** The six things a judgment can be searched by. */
  datatype Category = Acts | Sections | Subsections | Topics | Judges | Advocates

  /** The order in which the assembler visits the categories. */
  const Order: seq<Category> := [Acts, Sections, Subsections, Topics, Judges, Advocates]

  /** Position of a category in Order. */
  function Rank(c: Category): (n: nat)
    ensures n < |Order| && Order[n] == c
  {
    match c
    case Acts => 0
    case Sections => 1
    case Subsections => 2
    case Topics => 3
    case Judges => 4
    case Advocates => 5
  }

  /** The column each category's sub-query compares with LIKE. */
  function Column(c: Category): string {
    match c
    case Acts => "l.legislationName"
    case Sections => "ls.legislationSectionName"
    case Subsections => "lss.legislationSubSectionName"
    case Topics => "t.topicName"
    case Judges => "ju.judgeName"
    case Advocates => "a.advocateName"
  }

  // ---------------------------------------------------------------------------
  // The request and keyword normalisation

  /** One query-string parameter as Express parses it: missing, given once, or repeated. */
  datatype QueryValue = Absent | Single(text: string) | Repeated(items: seq<string>)

  /** The keyword list of one parameter: an array as it is, a truthy single value as a
      one-element list, anything else as the empty list. */
  function Normalise(v: QueryValue): (keywords: seq<string>)
    ensures keywords == [] <==> v.Absent? || v == Single("") || v == Repeated([])
    ensures v.Repeated? ==> keywords == v.items
    ensures v.Single? && v.text != "" ==> keywords == [v.text]
  {
    match v
    case Repeated(items) => items
    case Single(text) => if text != "" then [text] else []
    case Absent => []
  }

  /** The six parameters of an advanced-search request. */
  datatype Request = Request(acts: QueryValue, sections: QueryValue, subsections: QueryValue,
                             topics: QueryValue, judges: QueryValue, advocates: QueryValue)

  /** The six keyword lists after normalisation. */
  datatype Filters = Filters(acts: seq<string>, sections: seq<string>, subsections: seq<string>,
                             topics: seq<string>, judges: seq<string>, advocates: seq<string>)

  function ValueOf(req: Request, c: Category): QueryValue {
    match c
    case Acts => req.acts
    case Sections => req.sections
    case Subsections => req.subsections
    case Topics => req.topics
    case Judges => req.judges
    case Advocates => req.advocates
  }

  function KeywordsOf(f: Filters, c: Category): seq<string> {
    match c
    case Acts => f.acts
    case Sections => f.sections
    case Subsections => f.subsections
    case Topics => f.topics
    case Judges => f.judges
    case Advocates => f.advocates
  }

  /** The keyword lists of a request. */
  function Normalised(req: Request): (f: Filters)
    ensures forall c :: KeywordsOf(f, c) == Normalise(ValueOf(req, c))
  {
    Filters(Normalise(req.acts), Normalise(req.sections), Normalise(req.subsections),
            Normalise(req.topics), Normalise(req.judges), Normalise(req.advocates))
  }

  /** No category has a keyword. */
  predicate NoKeywords(f: Filters) {
    forall c :: KeywordsOf(f, c) == []
  }

  // ---------------------------------------------------------------------------
  // The keywords in the order the statement uses them

  /** A keyword together with the category it was given for. */
  datatype Keyword = Keyword(category: Category, text: string)

  function Tag(c: Category, keywords: seq<string>): seq<Keyword> {
    seq(|keywords|, j requires 0 <= j < |keywords| => Keyword(c, keywords[j]))
  }

  /** The keywords of the first `n` categories of Order, category after category. */
  function TaggedUpTo(f: Filters, n: nat): seq<Keyword>
    requires n <= |Order|
  {
    if n == 0 then [] else TaggedUpTo(f, n - 1) + Tag(Order[n - 1], KeywordsOf(f, Order[n - 1]))
  }

  /** All keywords of a request, in the order their conditions and parameters appear. */
  function Tagged(f: Filters): seq<Keyword> {
    TaggedUpTo(f, |Order|)
  }

  /** Where the keywords of category `c` start in Tagged(f). */
  function Offset(f: Filters, c: Category): nat {
    |TaggedUpTo(f, Rank(c))|
  }

  /** A shorter prefix of the categories gives a prefix of the keywords. */
  lemma {:induction false} TaggedUpToPrefix(f: Filters, n: nat, m: nat)
    requires n <= m <= |Order|
    ensures TaggedUpTo(f, n) <= TaggedUpTo(f, m)
    decreases m
  {
    if n < m {
      TaggedUpToPrefix(f, n, m - 1);
    }
  }

  /** Index `i` falls among the keywords of the first `n` categories exactly when the
      category of its keyword comes before position `n` of Order. */
  lemma {:induction false} RankBound(f: Filters, m: nat, i: nat, n: nat)
    requires n <= m <= |Order| && i < |TaggedUpTo(f, m)|
    ensures i < |TaggedUpTo(f, n)| <==> Rank(TaggedUpTo(f, m)[i].category) < n
    decreases m
  {
    var k := m - 1;
    var prev := TaggedUpTo(f, k);
    assert TaggedUpTo(f, m) == prev + Tag(Order[k], KeywordsOf(f, Order[k]));
    if i < |prev| {
      assert TaggedUpTo(f, m)[i] == prev[i];
      if n <= k {
        RankBound(f, k, i, n);
      } else {
        RankBound(f, k, i, k);
      }
    } else {
      assert TaggedUpTo(f, m)[i].category == Order[k];
      if n <= k {
        TaggedUpToPrefix(f, n, k);
      }
    }
  }

  /** The keywords of category `c` sit in one block of Tagged(f), starting at Offset(f, c),
      in the order they were given. */
  lemma KeywordLayout(f: Filters, c: Category)
    ensures Offset(f, c) + |KeywordsOf(f, c)| <= |Tagged(f)|
    ensures forall j :: 0 <= j < |KeywordsOf(f, c)| ==>
      Tagged(f)[Offset(f, c) + j] == Keyword(c, KeywordsOf(f, c)[j])
  {
    var r := Rank(c);
    var pre, block := TaggedUpTo(f, r), Tag(c, KeywordsOf(f, c));
    var upTo := TaggedUpTo(f, r + 1);
    assert upTo == pre + block;
    TaggedUpToPrefix(f, r + 1, |Order|);
    forall j | 0 <= j < |KeywordsOf(f, c)|
      ensures Tagged(f)[Offset(f, c) + j] == Keyword(c, KeywordsOf(f, c)[j])
    {
      assert Tagged(f)[|pre| + j] == upTo[|pre| + j] == block[j];
    }
  }

  /** Tagged(f) holds a keyword of category `c` at `i` exactly inside the block of `c`. */
  lemma CategoryBlock(f: Filters, c: Category, i: nat)
    requires i < |Tagged(f)|
    ensures Tagged(f)[i].category == c <==> Offset(f, c) <= i < Offset(f, c) + |KeywordsOf(f, c)|
  {
    var r := Rank(c);
    assert TaggedUpTo(f, r + 1) == TaggedUpTo(f, r) + Tag(c, KeywordsOf(f, c));
    RankBound(f, |Order|, i, r);
    RankBound(f, |Order|, i, r + 1);
  }

  /** The categories of Tagged(f) follow Order: acts, sections, subsections, topics,
      judges, advocates. */
  lemma CategoryOrder(f: Filters)
    ensures forall i, j :: 0 <= i < j < |Tagged(f)| ==>
      Rank(Tagged(f)[i].category) <= Rank(Tagged(f)[j].category)
  {
    forall i, j | 0 <= i < j < |Tagged(f)|
      ensures Rank(Tagged(f)[i].category) <= Rank(Tagged(f)[j].category)
    {
      var rj := Rank(Tagged(f)[j].category);
      if rj + 1 <= |Order| {
        RankBound(f, |Order|, i, rj + 1);
        RankBound(f, |Order|, j, rj + 1);
        TaggedUpToPrefix(f, rj + 1, |Order|);
      }
    }
  }

  /** A keyword appears in Tagged(f) under category `c` exactly when it was given for `c`. */
  lemma KeywordMembership(f: Filters, c: Category, kw: string)
    ensures Keyword(c, kw) in Tagged(f) <==> kw in KeywordsOf(f, c)
  {
    KeywordLayout(f, c);
    var ks := KeywordsOf(f, c);
    if Keyword(c, kw) in Tagged(f) {
      var i :| 0 <= i < |Tagged(f)| && Tagged(f)[i] == Keyword(c, kw);
      CategoryBlock(f, c, i);
      assert ks[i - Offset(f, c)] == kw;
    }
    if kw in ks {
      var j :| 0 <= j < |ks| && ks[j] == kw;
      assert Tagged(f)[Offset(f, c) + j] == Keyword(c, kw);
    }
  }

  /** There are no keywords at all exactly when every category is empty. */
  lemma NoKeywordsNoTagged(f: Filters)
    ensures Tagged(f) == [] <==> NoKeywords(f)
  {
    if Tagged(f) != [] {
      var k := Tagged(f)[0];
      KeywordMembership(f, k.category, k.text);
    }
    if !NoKeywords(f) {
      var c :| KeywordsOf(f, c) != [];
      KeywordLayout(f, c);
    }
  }

  // ---------------------------------------------------------------------------
  // Conditions

  /** One `EXISTS (SELECT 1 ... WHERE ... AND <Column(category)> LIKE ?)` sub-query. */
  datatype Condition = ExistsLike(category: Category)

  function ConditionsOf(ks: seq<Keyword>): seq<Condition> {
    seq(|ks|, i requires 0 <= i < |ks| => ExistsLike(ks[i].category))
  }

  /** The conditions of a request: one per keyword, in keyword order. */
  function Conditions(f: Filters): seq<Condition> {
    ConditionsOf(Tagged(f))
  }

  /** Appends one condition of category `c` per keyword (the `forEach` over one list). */
  method PushForEach(conditions: seq<Condition>, c: Category, keywords: seq<string>)
    returns (result: seq<Condition>)
    ensures |result| == |conditions| + |keywords|
    ensures result[..|conditions|] == conditions
    ensures forall j :: |conditions| <= j < |result| ==> result[j] == ExistsLike(c)
  {
    result := conditions;
    for i := 0 to |keywords|
      invariant |result| == |conditions| + i
      invariant result[..|conditions|] == conditions
      invariant forall j :: |conditions| <= j < |result| ==> result[j] == ExistsLike(c)
    {
      result := result + [ExistsLike(c)];
    }
  }

  /** The block of one category: its conditions are pushed only when it has keywords. */
  method AddCategory(conditions: seq<Condition>, f: Filters, c: Category)
    returns (result: seq<Condition>)
    requires conditions == ConditionsOf(TaggedUpTo(f, Rank(c)))
    ensures result == ConditionsOf(TaggedUpTo(f, Rank(c) + 1))
  {
    var keywords := KeywordsOf(f, c);
    if |keywords| > 0 {
      result := PushForEach(conditions, c, keywords);
    } else {
      result := conditions;
    }
    var r := Rank(c);
    var next := TaggedUpTo(f, r + 1);
    assert next == TaggedUpTo(f, r) + Tag(c, keywords);
    assert |result| == |ConditionsOf(next)|;
    forall i | 0 <= i < |result|
      ensures result[i] == ConditionsOf(next)[i]
    {
      if i < |conditions| {
        assert result[i] == result[..|conditions|][i];
      }
    }
  }

  /** The six `if (...Keywords.length > 0) ...forEach(push)` blocks, in Order. */
  method AssembleConditions(f: Filters) returns (conditions: seq<Condition>)
    ensures conditions == Conditions(f)
  {
    conditions := [];
    conditions := AddCategory(conditions, f, Acts);
    conditions := AddCategory(conditions, f, Sections);
    conditions := AddCategory(conditions, f, Subsections);
    conditions := AddCategory(conditions, f, Topics);
    conditions := AddCategory(conditions, f, Judges);
    conditions := AddCategory(conditions, f, Advocates);
  }

  // ---------------------------------------------------------------------------
  // The statement

  /** The pieces of the statement text. */
  datatype Token =
    | SelectJudgmentsWhere   // SELECT DISTINCT ... FROM judgment j ... JOIN ... WHERE
    | Clause(condition: Condition)
    | AndOp
    | OrderByCitationDesc    // ORDER BY j.judgmentCitation DESC

  /** `conditions.join(' AND ')`: the conditions in order with AND between neighbours. */
  function JoinAnd(cs: seq<Condition>): (ts: seq<Token>)
    ensures cs == [] ==> ts == []
    ensures cs != [] ==> |ts| == 2 * |cs| - 1
    ensures forall j :: 0 <= j < |ts| ==> (ts[j] == AndOp <==> j % 2 == 1)
    ensures forall j :: 0 <= j < |ts| && j % 2 == 0 ==> ts[j] == Clause(cs[j / 2])
  {
    if |cs| == 0 then []
    else if |cs| == 1 then [Clause(cs[0])]
    else
      var rest := JoinAnd(cs[1..]);
      var ts := [Clause(cs[0]), AndOp] + rest;
      assert forall j :: 2 <= j < |ts| ==> ts[j] == rest[j - 2];
      ts
  }

  /** The number of `?` placeholders: one in each clause, none elsewhere. */
  function Placeholders(ts: seq<Token>): nat {
    if ts == [] then 0 else Placeholders(ts[..|ts| - 1]) + (if ts[|ts| - 1].Clause? then 1 else 0)
  }

  /** The statement built for filters `f`. */
  function AdvancedQuery(f: Filters): seq<Token> {
    [SelectJudgmentsWhere] + JoinAnd(Conditions(f)) + [OrderByCitationDesc]
  }

  /** `%kw%` for each keyword of one list. */
  function Patterns(keywords: seq<string>): seq<string> {
    seq(|keywords|, j requires 0 <= j < |keywords| => LikePattern(keywords[j]))
  }

  /** The parameter array: the patterns of the six lists spread one after the other. */
  function Params(f: Filters): seq<string> {
    Patterns(f.acts) + Patterns(f.sections) + Patterns(f.subsections)
    + Patterns(f.topics) + Patterns(f.judges) + Patterns(f.advocates)
  }

  /** The statement text and its parameters, as handed to the driver. */
  datatype Statement = Statement(query: seq<Token>, params: seq<string>)

  /** Builds the statement and its parameters (the query text grows with `+=`). */
  method GetJudgmentsByMultipleCriteria(f: Filters) returns (query: seq<Token>, params: seq<string>)
    ensures query == AdvancedQuery(f) && params == Params(f)
  {
    query := [SelectJudgmentsWhere];
    var conditions := AssembleConditions(f);
    query := query + JoinAnd(conditions);
    query := query + [OrderByCitationDesc];
    params := Patterns(f.acts) + Patterns(f.sections) + Patterns(f.subsections)
      + Patterns(f.topics) + Patterns(f.judges) + Patterns(f.advocates);
  }

  /** The handler: normalise the six parameters, refuse the request when all are empty,
      otherwise build the statement. */
  method SearchAdvanced(req: Request) returns (r: Result<Statement, Rejection>)
    ensures r.Failure? <==> NoKeywords(Normalised(req))
    ensures r.Failure? ==> r.error == BadRequest(MissingParameter)
    ensures r.Success? ==> r.value == Statement(AdvancedQuery(Normalised(req)), Params(Normalised(req)))
  {
    var acts := Normalise(req.acts);
    var sections := Normalise(req.sections);
    var subsections := Normalise(req.subsections);
    var topics := Normalise(req.topics);
    var judges := Normalise(req.judges);
    var advocates := Normalise(req.advocates);
    var f := Filters(acts, sections, subsections, topics, judges, advocates);
    assert f == Normalised(req);
    if |acts| == 0 && |sections| == 0 && |subsections| == 0 && |topics| == 0 && |judges| == 0 && |advocates| == 0 {
      assert forall c :: KeywordsOf(f, c) == [] by {
        forall c ensures KeywordsOf(f, c) == [] {
          match c
          case Acts =>
          case Sections =>
          case Subsections =>
          case Topics =>
          case Judges =>
          case Advocates =>
        }
      }
      return Failure(BadRequest(MissingParameter));
    }
    assert !NoKeywords(f) by {
      if |acts| > 0 { assert KeywordsOf(f, Acts) != []; }
      else if |sections| > 0 { assert KeywordsOf(f, Sections) != []; }
      else if |subsections| > 0 { assert KeywordsOf(f, Subsections) != []; }
      else if |topics| > 0 { assert KeywordsOf(f, Topics) != []; }
      else if |judges| > 0 { assert KeywordsOf(f, Judges) != []; }
      else { assert KeywordsOf(f, Advocates) != []; }
    }
    var query, params := GetJudgmentsByMultipleCriteria(f);
    return Success(Statement(query, params));
  }

  // ---------------------------------------------------------------------------
  // Conditions and parameters line up

  function TextPatterns(ks: seq<Keyword>): seq<string> {
    seq(|ks|, i requires 0 <= i < |ks| => LikePattern(ks[i].text))
  }

  lemma TextPatternsStep(f: Filters, n: nat)
    requires n < |Order|
    ensures TextPatterns(TaggedUpTo(f, n + 1))
         == TextPatterns(TaggedUpTo(f, n)) + Patterns(KeywordsOf(f, Order[n]))
  {
    assert TaggedUpTo(f, n + 1) == TaggedUpTo(f, n) + Tag(Order[n], KeywordsOf(f, Order[n]));
  }

  /** The i-th parameter names the keyword of the i-th condition: it is the pattern of a
      keyword exactly when that keyword is the one the condition was emitted for. */
  lemma ParamNamesKeyword(f: Filters, i: nat, kw: string)
    requires i < |Params(f)|
    ensures |Params(f)| == |Tagged(f)|
    ensures Params(f)[i] == LikePattern(kw) <==> Tagged(f)[i].text == kw
  {
    ParamsAlign(f);
    LikePatternInjective(Tagged(f)[i].text, kw);
  }

  /** There is one parameter per condition, and the i-th parameter is the pattern of the
      keyword the i-th condition was emitted for. */
  lemma ParamsAlign(f: Filters)
    ensures |Params(f)| == |Conditions(f)| == |Tagged(f)|
    ensures forall i :: 0 <= i < |Params(f)| ==>
      Params(f)[i] == LikePattern(Tagged(f)[i].text)
      && Conditions(f)[i] == ExistsLike(Tagged(f)[i].category)
  {
    ParamsAreTextPatterns(f);
  }

  /** The spread of the six pattern lists is the list of patterns of Tagged(f). */
  lemma ParamsAreTextPatterns(f: Filters)
    ensures Params(f) == TextPatterns(Tagged(f))
  {
    var p0 := TextPatterns(TaggedUpTo(f, 0));
    assert p0 == [];
    TextPatternsStep(f, 0);
    assert TextPatterns(TaggedUpTo(f, 1)) == p0 + Patterns(f.acts) == Patterns(f.acts);
    TextPatternsStep(f, 1);
    assert TextPatterns(TaggedUpTo(f, 2)) == Patterns(f.acts) + Patterns(f.sections);
    TextPatternsStep(f, 2);
    assert TextPatterns(TaggedUpTo(f, 3))
        == Patterns(f.acts) + Patterns(f.sections) + Patterns(f.subsections);
    TextPatternsStep(f, 3);
    assert TextPatterns(TaggedUpTo(f, 4))
        == Patterns(f.acts) + Patterns(f.sections) + Patterns(f.subsections) + Patterns(f.topics);
    TextPatternsStep(f, 4);
    assert TextPatterns(TaggedUpTo(f, 5))
        == Patterns(f.acts) + Patterns(f.sections) + Patterns(f.subsections) + Patterns(f.topics)
           + Patterns(f.judges);
    TextPatternsStep(f, 5);
  }

  /** The statement has exactly as many placeholders as there are parameters. */
  lemma PlaceholdersMatchParams(f: Filters)
    ensures Placeholders(AdvancedQuery(f)) == |Params(f)|
  {
    ParamsAlign(f);
    var cs := Conditions(f);
    ClausesCounted(JoinAnd(cs), |cs|);
    PlaceholdersAppend([SelectJudgmentsWhere], JoinAnd(cs));
    PlaceholdersAppend([SelectJudgmentsWhere] + JoinAnd(cs), [OrderByCitationDesc]);
    assert Placeholders([SelectJudgmentsWhere]) == 0 by {
      assert [SelectJudgmentsWhere][..0] == [];
    }
    assert Placeholders([OrderByCitationDesc]) == 0 by {
      assert [OrderByCitationDesc][..0] == [];
    }
  }

  lemma {:induction false} PlaceholdersAppend(a: seq<Token>, b: seq<Token>)
    ensures Placeholders(a + b) == Placeholders(a) + Placeholders(b)
    decreases |b|
  {
    if b != [] {
      assert (a + b)[..|a + b| - 1] == a + b[..|b| - 1];
      PlaceholdersAppend(a, b[..|b| - 1]);
    } else {
      assert a + b == a;
    }
  }

  /** A token sequence shaped like JoinAnd's result for `n` conditions has `n` clauses. */
  lemma {:induction false} ClausesCounted(ts: seq<Token>, n: nat)
    requires n == 0 ==> ts == []
    requires n > 0 ==> |ts| == 2 * n - 1
    requires forall j :: 0 <= j < |ts| ==> (ts[j] == AndOp <==> j % 2 == 1)
    requires forall j :: 0 <= j < |ts| && j % 2 == 0 ==> ts[j].Clause?
    ensures Placeholders(ts) == n
    decreases n
  {
    if n == 1 {
      assert ts[..0] == [];
    } else if n > 1 {
      var init := ts[..|ts| - 2];
      assert ts[..|ts| - 1][..|ts| - 2] == init;
      assert ts[|ts| - 2] == AndOp;
      assert ts[|ts| - 1].Clause?;
      ClausesCounted(init, n - 1);
    }
  }

  // ---------------------------------------------------------------------------
  // What the statement selects

  /** Evaluates a WHERE body of the form `clause (AND clause)*`, binding the parameters to
      the placeholders left to right. None is a statement MySQL refuses: an empty WHERE, a
      malformed clause list, or a parameter count that differs from the placeholder count. */
  function EvalWhere(ts: seq<Token>, ps: seq<string>, holds: (Category, string) -> bool): Option<bool>
    decreases |ts|
  {
    if |ts| == 0 || !ts[0].Clause? || |ps| == 0 then None
    else
      var here := holds(ts[0].condition.category, ps[0]);
      if |ts| == 1 then
        if |ps| == 1 then Some(here) else None
      else if ts[1] != AndOp || |ts| == 2 then None
      else
        match EvalWhere(ts[2..], ps[1..], holds)
        case None => None
        case Some(rest) => Some(here && rest)
  }

  /** Evaluates a whole statement: the SELECT head, a WHERE body and the ORDER BY tail. */
  function EvalQuery(ts: seq<Token>, ps: seq<string>, holds: (Category, string) -> bool): Option<bool> {
    if |ts| >= 2 && ts[0] == SelectJudgmentsWhere && ts[|ts| - 1] == OrderByCitationDesc then
      EvalWhere(ts[1..|ts| - 1], ps, holds)
    else None
  }

  /** Joined conditions with one parameter each hold exactly when every condition holds for
      its own parameter; with no condition at all the WHERE is empty and refused. */
  lemma {:induction false} JoinAndEval(cs: seq<Condition>, ps: seq<string>, holds: (Category, string) -> bool)
    requires |cs| == |ps|
    ensures EvalWhere(JoinAnd(cs), ps, holds)
         == if cs == [] then None else Some(forall i :: 0 <= i < |cs| ==> holds(cs[i].category, ps[i]))
    decreases |cs|
  {
    if |cs| > 1 {
      var ts := JoinAnd(cs);
      assert ts[2..] == JoinAnd(cs[1..]);
      JoinAndEval(cs[1..], ps[1..], holds);
      assert (forall i :: 0 <= i < |cs| ==> holds(cs[i].category, ps[i]))
         <==> holds(cs[0].category, ps[0])
              && (forall i :: 0 <= i < |cs[1..]| ==> holds(cs[1..][i].category, ps[1..][i])) by {
        assert forall i :: 1 <= i < |cs| ==> cs[i] == cs[1..][i - 1] && ps[i] == ps[1..][i - 1];
      }
    }
  }

  /** For every category and every keyword given for it, the judgment has a linked row of
      that category matching `%keyword%`. */
  predicate AllKeywordsMatch(f: Filters, holds: (Category, string) -> bool) {
    forall c, kw :: kw in KeywordsOf(f, c) ==> holds(c, LikePattern(kw))
  }

  /** A judgment is selected exactly when every keyword of every category matches it.
      Without any keyword the statement is refused. */
  lemma AdvancedQueryMeaning(f: Filters, holds: (Category, string) -> bool)
    ensures EvalQuery(AdvancedQuery(f), Params(f), holds)
         == if NoKeywords(f) then None else Some(AllKeywordsMatch(f, holds))
  {
    var q := AdvancedQuery(f);
    var cs, ps := Conditions(f), Params(f);
    assert q[1..|q| - 1] == JoinAnd(cs);
    ParamsAlign(f);
    JoinAndEval(cs, ps, holds);
    NoKeywordsNoTagged(f);
    ConditionsHoldIffKeywordsMatch(f, cs, ps, holds);
  }

  /** Every condition holding for its own parameter is every keyword matching. */
  lemma ConditionsHoldIffKeywordsMatch(f: Filters, cs: seq<Condition>, ps: seq<string>,
                                       holds: (Category, string) -> bool)
    requires cs == Conditions(f) && ps == Params(f)
    ensures |cs| == |ps|
    ensures (forall i :: 0 <= i < |cs| ==> holds(cs[i].category, ps[i])) <==> AllKeywordsMatch(f, holds)
  {
    ParamsAlign(f);
    var t := Tagged(f);
    if forall i :: 0 <= i < |cs| ==> holds(cs[i].category, ps[i]) {
      forall c, kw | kw in KeywordsOf(f, c) ensures holds(c, LikePattern(kw)) {
        KeywordMembership(f, c, kw);
        var i :| 0 <= i < |t| && t[i] == Keyword(c, kw);
        assert cs[i].category == c && ps[i] == LikePattern(kw);
      }
    }
    if AllKeywordsMatch(f, holds) {
      forall i | 0 <= i < |cs| ensures holds(cs[i].category, ps[i]) {
        KeywordMembership(f, t[i].category, t[i].text);
      }
    }
  }

  /** Keywords of one category are ANDed: a judgment that fails the match of any single
      keyword is not selected, whatever the other keywords of that category match. */
  lemma KeywordsAreAnded(f: Filters, c: Category, kw: string, holds: (Category, string) -> bool)
    requires kw in KeywordsOf(f, c) && !holds(c, LikePattern(kw))
    ensures EvalQuery(AdvancedQuery(f), Params(f), holds) == Some(false)
  {
    AdvancedQueryMeaning(f, holds);
  }

  /** A request the handler accepts always yields a statement MySQL can run, with one
      placeholder per parameter. */
  lemma AcceptedRequestRuns(req: Request, holds: (Category, string) -> bool)
    requires !NoKeywords(Normalised(req))
    ensures EvalQuery(AdvancedQuery(Normalised(req)), Params(Normalised(req)), holds).Some?
    ensures Placeholders(AdvancedQuery(Normalised(req))) == |Params(Normalised(req))|
  {
    AdvancedQueryMeaning(Normalised(req), holds);
    PlaceholdersMatchParams(Normalised(req));
  }
}

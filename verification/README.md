# Judgment search backend: row grouping and query assembly

This project models the in-memory parts of the judgment-search HTTP backend in `server.js`.
Everything else in that file is routing, ORM declarations, or SQL that runs inside MySQL.

- **Statute search grouping** (`/api/search-bareacts`). The statute query returns one flat
  row per act x section x form x notification x schedule combination of its LEFT JOINs. The
  handler folds these rows into one nested item per distinct `bareActId`. Each item has four
  child lists (sections, forms, notifications, schedules), each deduplicated by the child's
  id.
  - `BareActs.OrganizeRows` is the handler's loop. It does a linear `find` over the items
    built so far, then either pushes onto an existing item or appends a new one.
  - It is proved equal to the fold `Organize`. `Organize` is proved equal to an independent
    reference definition, `Expected`: one item per distinct act id in order of first
    appearance, with the first row's columns and the first child per id in each list.
  - A child column counts as present the way JavaScript truthiness decides it: not null and
    not `0`.
- **Advanced search** (`/api/searchAdvanced` and `getJudgmentsByMultipleCriteria`).
  - Six query parameters (acts, sections, subsections, topics, judges, advocates) are
    normalised into keyword lists. The request is refused with 400 when all six are empty.
  - The statement gets one `EXISTS ... LIKE ?` condition per keyword, in that category order,
    joined with `AND`. The parameter list holds `%keyword%` per keyword in the same order.
  - Statement text is modelled as tokens: the SELECT head, one clause per condition, `AND`,
    and the ORDER BY tail.
  - MySQL's answer to a clause is an oracle `holds(category, pattern)`. `EvalQuery` gives the
    meaning of a whole statement, or `None` for one MySQL refuses (an empty WHERE, or a
    placeholder count that differs from the parameter count).
- **Optional-filter searches** (`getSearchResults`, `getSearchByCaseno` and the statute
  search's WHERE).
  - Each filter is a conjunct `(? IS NULL OR <test> ?)` and gets two adjacent, equal
    parameters: `null` when the filter is missing or empty, `%value%` otherwise.
  - The statute search passes `bareActId` raw rather than as a pattern.
  - The row test is an oracle `matches(k, value)`. `EvalFilters` binds the parameters two by
    two.

Keywords within one advanced-search category are combined with AND: there is one `EXISTS`
per keyword, and all of them are joined with `AND` (server.js:1172-1260).
`AdvancedSearch.KeywordsAreAnded` states the consequence.

Modules: `Wrappers` (Option, Result), `Api` (query arguments, the 400 refusal), `Sql` (bound
parameters, LIKE patterns), `Dedup` (push-if-absent and the list it builds), `BareActs`,
`AdvancedSearch`, `OptionalFilters`.

## Model

| member | source | states |
|---|---|---|
| BareActs.OrganizeRows | server.js:1581-1686 | The loop's result is the fold `Organize` of one handler step per row. With OrganizeIsExpected, it is the reference response. |
| BareActs.FindExisting | server.js:1584-1586 | The linear scan returns what FindItem characterises: the position of the first item with the row's act id, or None exactly when no item has that id. |
| BareActs.FindItem | server.js:1584-1586 | The same first-match-or-none search, as a function the fold uses. |
| BareActs.PushChildren | server.js:1587-1637 | A later row of a known act pushes each present child whose id is not yet in its list, and leaves the act's columns alone. |
| BareActs.PushIfNew | server.js:1588-1602 | One `if (id && !some(...)) push(...)`: appends the child only when it exists and no entry has its id. |
| BareActs.CreateItem | server.js:1638-1684 | The first row of an act makes an item with the row's act columns. Each list holds the row's child when its id is present and is empty otherwise. |
| BareActs.OrganizeIsExpected | server.js:1581-1686 | The grouping equals the reference definition. There is one item per distinct act id, in first-seen order, with first-row columns and lists of the first child per id. |
| BareActs.OneItemPerAct | server.js:1583-1684 | No two items share an act id. Every row's act has an item. Every item's id occurs in the rows. Items follow the order of first appearance. |
| BareActs.ItemColumnsFromFirstRow | server.js:1639-1652 | Each item's eight act columns equal those of the first row with its id, so later rows never overwrite them. |
| BareActs.ItemChildLists | server.js:1587-1683 | Each list of an item is the act's children of that kind in row order, deduplicated by id keeping the first. |
| BareActs.ChildIdsUnique | server.js:1588-1637 | Within one item, no two sections share a sectionId. The same holds for forms by formId, notifications by notificationId and schedules by scheduleId. |
| BareActs.ChildrenComplete | server.js:1587-1683 | Every present child id in any row of an act appears in that act's list of that kind. |
| BareActs.ChildrenFromOwnRows | server.js:1594-1682 | Every child an item lists was built from a row of that same act carrying that child. |
| BareActs.AbsentChildAddsNothing | server.js:1589-1683 | A row adds at most one item. A row without a child of some kind changes no list of that kind, and a new item made from it has that list empty. |
| Dedup.AnyHasKey | server.js:1590-1592 | The `some` scan: true exactly when an entry of the list has the key. |
| Dedup.DistinctKeysUnique | server.js:1588-1637 | Push-if-absent over a stream never yields two entries with the same key. |
| Dedup.DistinctSameKeys | server.js:1588-1637 | The deduplicated list has exactly the keys of the stream. |
| Dedup.DistinctTakesFirst | server.js:1588-1637 | Each entry of the deduplicated list is the first element of the stream with its key. |
| Dedup.DistinctKeepsFirstOrder | server.js:1583-1684 | The deduplicated list keeps the order in which keys first occur in the stream. |
| Sql.LikePatternInjective | server.js:1268-1273 | Two keywords give the same `%kw%` pattern only when they are equal. |
| AdvancedSearch.Normalise | server.js:1096-1101 | An array is kept as is, and a non-empty single value becomes a one-element list. The list is empty exactly for a missing value, an empty string or an empty array. |
| AdvancedSearch.Normalised | server.js:1096-1101 | Each of the six keyword lists is the normalisation of its own query parameter. |
| AdvancedSearch.SearchAdvanced | server.js:1095-1113 | The request is refused with 400 and the message "At least one search parameter is required" exactly when all six lists are empty. Otherwise it yields the assembled statement and parameters. |
| AdvancedSearch.PushForEach | server.js:1173-1185 | The `forEach` appends exactly one condition of the category per keyword and keeps the earlier conditions. |
| AdvancedSearch.AddCategory | server.js:1172-1186 | One category block, guarded by `length > 0`, extends the conditions of the earlier categories by those of this category. |
| AdvancedSearch.AssembleConditions | server.js:1170-1258 | The six blocks yield one condition per keyword, grouped in the order acts, sections, subsections, topics, judges, advocates. |
| AdvancedSearch.JoinAnd | server.js:1260 | With n conditions the joined WHERE body has 2n-1 tokens (none for n = 0). Conditions in order sit at even positions and `AND` at odd ones. |
| AdvancedSearch.GetJudgmentsByMultipleCriteria | server.js:1137-1276 | Builds the statement (head, AND-joined conditions, ORDER BY tail) and the spread of the six pattern lists. |
| AdvancedSearch.TaggedUpToPrefix | server.js:1170-1258 | The keywords of the first n categories are a prefix of those of the first m >= n categories. |
| AdvancedSearch.RankBound | server.js:1170-1258 | A keyword lies in the part for the first n categories exactly when its category ranks below n. |
| AdvancedSearch.KeywordLayout | server.js:1172-1258 | The keywords of each category form one contiguous block, in the order given. |
| AdvancedSearch.CategoryBlock | server.js:1172-1258 | Position i holds a keyword of category c exactly when i lies in c's block. |
| AdvancedSearch.CategoryOrder | server.js:1172-1258 | Along the conditions, category ranks never decrease. |
| AdvancedSearch.KeywordMembership | server.js:1172-1258 | A (category, keyword) pair gets a condition exactly when the keyword was given for that category. |
| AdvancedSearch.NoKeywordsNoTagged | server.js:1103-1105 | There is no condition at all exactly when every category's list is empty. |
| AdvancedSearch.ParamsAlign | server.js:1267-1274 | There are as many parameters as conditions. The i-th parameter is `%kw%` of the keyword whose category the i-th condition tests. |
| AdvancedSearch.ParamNamesKeyword | server.js:1267-1274 | The i-th parameter equals `%kw%` exactly when kw is the keyword of the i-th condition, so each parameter names its condition's keyword. |
| AdvancedSearch.ParamsAreTextPatterns | server.js:1267-1274 | The spread of the six pattern lists is the pattern of each keyword in condition order. |
| AdvancedSearch.PlaceholdersMatchParams | server.js:1260-1274 | The statement has exactly one `?` per parameter. |
| AdvancedSearch.JoinAndEval | server.js:1260 | AND-joined conditions, with one parameter each, hold exactly when every condition holds for its own parameter. With no condition the WHERE is empty and refused. |
| AdvancedSearch.AdvancedQueryMeaning | server.js:1170-1276 | A judgment is selected exactly when every keyword of every category matches it. Without any keyword the statement is refused. |
| AdvancedSearch.ConditionsHoldIffKeywordsMatch | server.js:1172-1274 | Every condition holding for its bound parameter is the same as every keyword matching its category (both directions). |
| AdvancedSearch.KeywordsAreAnded | server.js:1172-1260 | One keyword of any category that does not match excludes the judgment, whatever the other keywords of that category match. |
| AdvancedSearch.AcceptedRequestRuns | server.js:1095-1113 | A request the handler accepts always yields a statement MySQL can run, with one placeholder per parameter. |
| OptionalFilters.PairedParamsLayout | server.js:447-454 | There are twice as many parameters as filters. Parameters 2i and 2i+1 are both null or both `%v%` for filter i. |
| OptionalFilters.SearchResultsParamsPaired | server.js:447-454 | The judgment search's array is the paired layout of legislationName, section and subsection. |
| OptionalFilters.CaseNoParamsPaired | server.js:860-867 | The case-number array is the paired layout of caseType, caseNo and caseYear. |
| OptionalFilters.BareActSearchParamsPaired | server.js:1568-1579 | The statute array is the raw-or-null id pair followed by the paired layout of the four LIKE filters. |
| OptionalFilters.PairedParamsCons | server.js:447-454 | The paired layout of a list is the first filter's pair followed by the layout of the rest. |
| OptionalFilters.GivenFiltersMatchAll | server.js:440-442 | The recursive filter predicate asks every filter to be missing or to match. |
| OptionalFilters.PairedFiltersMeaning | server.js:440-454 | Paired conjuncts with their bound parameters keep a row exactly when every filter that was given matches it. A missing filter restricts nothing. |
| OptionalFilters.SearchResultsMeaning | server.js:439-454 | The judgment search keeps a row exactly when each of legislationName, section and subsection is missing or matches. |
| OptionalFilters.CaseNoMeaning | server.js:852-867 | The case-number search keeps a row exactly when each of its three filters is missing or matches. |
| OptionalFilters.BareActSearchMeaning | server.js:1560-1579 | The statute search keeps a row exactly when the id equals the given id (if one was given) and each of the four LIKE filters is missing or matches. |
| OptionalFilters.SearchByCaseNo | server.js:817-823 | Refuses with 400 and the missing-parameter message exactly when all three arguments are falsy. Otherwise it binds the paired parameters, at least one of which is a pattern. |

## Left out

- Express routing, the JSON and CORS middleware, `app.listen` and static file serving are
  not modelled. Responses other than the 400 refusals (`res.json`, 404, 500) are left out
  too. This is framework plumbing.
- Sequelize model definitions, associations and the ORM calls are not part of this model.
  They are schema declarations and foreign library calls.
- SQL execution is not modelled. This covers LIKE matching and collation case-folding, JOIN
  fan-out, `DISTINCT` and the null placement of `ORDER BY judgmentCitation DESC`. These run
  inside MySQL and appear only as the oracles `holds` and `matches`.
  - The unconditional INNER JOINs to topics, judges and advocates also drop judgments that
    have none of those (server.js:1161-1166). They are outside the oracle model.
- `getSearchByCaseno`'s SELECT list lacks a comma (server.js:844-845), and its first filter
  tests `judgmentCaseNo` against caseType (server.js:853). The model abstracts the column
  tests as `matches(k, value)`, so neither is represented.
- Connection pool acquire and release, and console logging, are left out. They are I/O.
- The duplicate registrations of `/api/searchAdvanced` (server.js:1116-1135) and the other
  routes are left out. Express serves the first registration, which the model follows.
- Query parameters given as objects (`a[b]=c`) are not modelled. Repeated advanced-search
  parameters are modelled as arrays of strings. The single-valued filters of the optional
  searches are modelled as missing or a string.
- `getJudgmentsByMultipleCriteria` can be called directly with six empty lists, which gives
  an empty WHERE. The model represents that statement but evaluates it to `None` (MySQL
  refuses it). The handler never makes that call.
- BareActs.OrganizeRows: models `existingItem`'s in-place `push` as replacing the item value
  in the sequence. Nothing else aliases the items, so the result is the same.
- AdvancedSearch.GetJudgmentsByMultipleCriteria: the statement text is tokens, not the SQL
  string. Whitespace and the SELECT and JOIN text are not modelled.
- The handlers' `res.json(results)` of the rows MySQL returns is not modelled: the model
  stops at the statement and its parameters.

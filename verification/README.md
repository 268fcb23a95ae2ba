# The Daily Olive: article data-access rules in Dafny

This project models the logic of a small news REST API's data-access layer.
It covers two pieces and proves properties of both.

- **The article-list query builder.** `fetchArticles(sort_by, order, topic)`
  takes three optional, untrusted query parameters. It either builds the SQL
  text to send or rejects with `{status: 400, msg: "Bad Request"}`.
- **The single-row operations** over an in-memory stand-in for the
  `articles` and `comments` tables: `selectArticleById`,
  `fetchCommentsByArticleId`, `insertCommentByArticleId`,
  `updateArticleById` and `removeCommentById`.
- **The seed-data helpers:** `convertTimestampToDate` and `getArticleID`.

Files and modules:

- `wrappers.dfy` (`Wrappers`): `Option`, and `Result`, which stands for a
  promise that resolves with a value or rejects with an error.
- `rejections.dfy` (`Rejections`): the `{status, msg}` rejections, with their
  exact statuses and messages.
- `js_values.dfy` (`JsValues`): JavaScript values, truthiness, `typeof`, and
  `toUpperCase`.
- `query_builder.dfy`, holding three modules:
  - `QueryBuilder`: the allow-lists, the query text built clause by clause as
    the source does, and a declarative `Render` of a `Plan`. A plan is the
    topic filter, the sort column and the direction.
  - `QueryReader`: reads a query text back into its plan. It is the inverse
    of `Render`.
  - `QueryExamples`: consequences of the contract for particular requests.
- `tables.dfy` (`Tables`): article and comment rows, and the `Store` that
  holds both tables by primary key. The store also holds the next value of
  the `comment_id` serial sequence.
- `article_model.dfy` (`ArticleModel`): the five operations. Each writing
  operation returns the new store and the row that its `RETURNING *` gives
  back.
- `article_properties.dfy` (`ArticleProperties`): how the operations
  compose.
- `seed_utils.dfy` (`SeedUtils`, `SeedUtilsProperties`): the seed helpers and
  the unit-test cases from `__tests__/utils.test.js`.

Three points of the program's behaviour worth noting:

- The `topic` value is spliced into the SQL text as `WHERE topic = '<topic>'`.
  It is not bound as a parameter. It is safe only because of the allow-list,
  and `QueryReader.QuotedTopicNeverAllowed` shows what that allow-list
  prevents.
- The topic allow-list is the fixed list `["mitch", "cats"]`. It is not the
  live `topics` table.
- An article that exists but has no comments gets 404 from
  `fetchCommentsByArticleId`.

The controller calls `fetchArticles(sort_by, order)` without `topic`, and it
imports the model functions from a module that does not export them. The
model therefore takes the three-parameter function in
`the-daily-olive.model.js` as written.

## Model

| member | source | states |
|---|---|---|
| QueryBuilder.FetchArticles | app/models/the-daily-olive.model.js:20-64 | The only rejection is 400 "Bad Request". The query is accepted exactly when topic, sort_by and order are each acceptable on their own. An accepted query is the `Render` of the defaulted plan, and every token of that plan is drawn from an allow-list. |
| QueryBuilder.AppendTopic | app/models/the-daily-olive.model.js:23-31 | A non-empty topic outside {mitch, cats} is rejected. An allowed topic adds `WHERE topic = '<topic>'` before the grouping. An absent or empty topic adds the grouping alone. |
| QueryBuilder.AppendSort | app/models/the-daily-olive.model.js:33-49 | A non-empty sort_by outside the seven-column greenlist is rejected. Otherwise the query gets `ORDER BY` with that column, or `created_at` when sort_by is absent or empty. |
| QueryBuilder.AppendDirection | app/models/the-daily-olive.model.js:51-59 | order is rejected exactly when it is non-empty and its upper case is neither ASC nor DESC. Otherwise the query ends with the upper-cased direction, or DESC when order is absent or empty. |
| QueryBuilder.UpperCaseOfAllowedOrder | app/models/the-daily-olive.model.js:53-58 | An order already in {ASC, DESC} upper-cases into that list. So the source's third order branch is reached only when order is absent or empty. |
| QueryReader.ReadRender | app/models/the-daily-olive.model.js:21-59 | Round trip: reading back the text of a plan gives the plan again. This holds whenever the topic has no quote and the column has no space. |
| QueryReader.RenderInjective | app/models/the-daily-olive.model.js:21-59 | Two allow-listed plans with the same query text are the same plan. The text carries nothing but the three allow-listed choices. |
| QueryReader.QuotedTopicNeverAllowed | app/models/the-daily-olive.model.js:21-31 | A topic containing a quote, with any column and direction, never renders to the text of any allow-listed query. The allow-listed texts hold at most the two quotes around the topic literal; such a topic adds at least a third. |
| QueryExamples.DefaultQuery | app/models/the-daily-olive.model.js:20-59 | With no parameters, the query is the bare grouping ordered by `created_at DESC`. |
| QueryExamples.OrderCaseInsensitive | app/models/the-daily-olive.model.js:51-59 | Two order spellings with the same upper case give the same outcome. |
| QueryExamples.UpperCasedOrderSameOutcome | app/models/the-daily-olive.model.js:53-54 | Sending `order` already upper-cased gives the same outcome as sending it as is, because upper-casing is idempotent. |
| QueryExamples.LowerCaseAscending | app/models/the-daily-olive.model.js:53-54 | `asc` is accepted and emitted as `ASC`. |
| QueryExamples.UnknownTopicShortCircuits | app/models/the-daily-olive.model.js:27-28 | An unknown non-empty topic is rejected whatever sort_by and order are. |
| QueryExamples.BothInvalidRejectOnce | app/models/the-daily-olive.model.js:43-56 | An invalid sort_by together with an invalid order gives one plain 400 rejection. |
| JsValues.ToUpperCase | app/models/the-daily-olive.model.js:53-54 | `order.toUpperCase()` keeps the length and maps each character on its own: ASCII a-z to A-Z, U+0131 to I and U+017F to S, every other character to itself. |
| JsValues.TypeOf | app/models/the-daily-olive.model.js:100 | `typeof` is "number" exactly for numbers and "string" exactly for strings. |
| ArticleModel.SelectArticleById | app/models/the-daily-olive.model.js:9-18 | 404 "Page Not Found" exactly when no row has that article_id. Otherwise the result is a stored row with that article_id. |
| ArticleModel.FetchCommentsByArticleId | app/models/the-daily-olive.model.js:66-75 | 404 "Page Not Found" exactly when no comment belongs to the article. Otherwise the result lists every stored comment of that article, only those, each once. |
| ArticleModel.InsertCommentByArticleId | app/models/the-daily-olive.model.js:77-97 | An empty username or body gives 400 "Required fields empty" whatever the store holds. A missing article gives 404. Otherwise one comment is added under a fresh id, with the given article_id, author and body and the table defaults. Existing comments and all articles are unchanged, and both store invariants are preserved. |
| ArticleModel.UpdateArticleById | app/models/the-daily-olive.model.js:99-122 | A non-number inc_votes gives 400 "Invalid Data Type" whatever the store holds. A missing article gives 404. Otherwise the returned and stored row has votes equal to the old votes plus inc_votes, and every other field unchanged. Other articles, the comments and the invariants are unchanged. |
| ArticleModel.RemoveCommentById | app/models/the-daily-olive.model.js:124-139 | 404 "Comment Not Found" exactly when no row has that comment_id. Otherwise exactly that row is removed and returned. Every other comment and all articles are unchanged. |
| ArticleProperties.RemoveCommentTwice | app/models/the-daily-olive.model.js:124-130 | Deleting the same comment a second time gives 404 "Comment Not Found". |
| ArticleProperties.InsertThenRemove | app/models/the-daily-olive.model.js:77-139 | Deleting the comment just posted restores both tables and returns that comment. |
| ArticleProperties.UpdateThenUndo | app/models/the-daily-olive.model.js:110-120 | A vote change followed by its negation gives back the original store and article. |
| ArticleProperties.UpdatesAdd | app/models/the-daily-olive.model.js:110-120 | Two vote changes equal one change by their sum. |
| ArticleProperties.InsertThenFetch | app/models/the-daily-olive.model.js:66-97 | After a comment is posted, its article's comment list succeeds and holds the new comment and every earlier comment of the article, and nothing else. |
| ArticleProperties.RemoveThenFetch | app/models/the-daily-olive.model.js:66-139 | After a comment is deleted, its article's comment list no longer shows it, and is 404 exactly when the article has no other comment. |
| ArticleProperties.VoteExamples | app/models/the-daily-olive.model.js:99-122 | An article with 100 votes goes to 101 with inc_votes 1 and to 99 with -1. A string inc_votes is refused with 400. |
| SeedUtils.ConvertTimestampToDate | db/seeds/utils.js:3-6 | Every key other than created_at is kept with its value. A record without created_at comes back equal. A falsy created_at is dropped. A truthy one becomes `toDate(created_at)`. |
| SeedUtils.AssignTitles | db/seeds/utils.js:15-18 | After the forEach, the keys are the old keys plus every title. Keys the rows do not mention keep their value. Each title maps to the article_id of its last row. |
| SeedUtils.GetArticleID | db/seeds/utils.js:8-21 | An empty list gives the empty map. The keys are exactly the input titles. Each title maps to the article_id of the last row with that title. |
| SeedUtilsProperties.GetArticleIDValues | db/seeds/utils.js:15-20 | Every input title is looked up to the article_id of a row with that title, namely the last one. |
| SeedUtilsProperties.GetArticleIDDistinctTitles | db/seeds/utils.js:15-20 | When titles are distinct, every row's title maps to its own article_id. |
| SeedUtilsProperties.GetArticleIDLastWins | db/seeds/utils.js:16-18 | With two rows sharing a title, the map holds the second row's id. |
| SeedUtilsProperties.GetArticleIDOneRow | __tests__/utils.test.js:46-59 | One row gives the single entry from its title to its article_id. |
| SeedUtilsProperties.GetArticleIDTwoRows | __tests__/utils.test.js:61-84 | The two-row test case gives the two expected entries. |
| SeedUtilsProperties.ConvertTimestampToDateUnique | db/seeds/utils.js:3-6 | The contract of ConvertTimestampToDate determines the result completely. |
| SeedUtilsProperties.ConvertKeepsOtherKeys | __tests__/utils.test.js:25-30 | `{created_at: 0, key1: true, key2: 1}` becomes `{key1: true, key2: 1}`. |
| SeedUtilsProperties.ConvertWithoutTimestamp | __tests__/utils.test.js:31-36 | `{key: "value"}` comes back unchanged. |
| SeedUtilsProperties.ConvertTruthyTimestamp | db/seeds/utils.js:5 | A truthy timestamp is replaced by its conversion. |

## Left out

- SQL execution is not modelled. `fetchArticles` is modelled up to the query text it would send, so the meaning of the `LEFT JOIN`, `COUNT` and `ORDER BY` clauses is out of scope. The database connection is left out too.
- Errors raised by Postgres are not modelled. These include a non-integer id ("invalid input syntax"), foreign-key violations on `author`, and `INT` overflow. They come from the database, not from the modelled code, so identifiers are plain integers.
- UpdateArticleById: does not model the overflow error of the 32-bit `votes` column. Votes are unbounded integers.
- InsertCommentByArticleId: takes `username` and `body` as strings. A missing or non-string field, which the source would pass on to the database, is not modelled.
- FetchCommentsByArticleId: the model returns rows in ascending `comment_id` order. The contract promises no order, because the SQL has no `ORDER BY`.
- JsValues.ToUpperCase: upper-cases the ASCII letters, U+0131 and U+017F, one character to one character, and leaves every other character as it is. JavaScript upper-cases many more characters. Apart from those modelled, each character whose JavaScript upper case consists of ASCII letters maps to two or more of them: ß to SS, the ligatures U+FB00-U+FB04 to FF, FI, FL, FFI and FFL, and U+FB05 and U+FB06 to ST. None of these strings occurs inside ASC or DESC, so whether an order is accepted does not change. U+0131 maps to I, which occurs in neither word; it is modelled only for fidelity.
- JsValues: numbers are integers. Floating-point `inc_votes`, `NaN` and `-0` are not modelled.
- Query parameters are `undefined` or a string. Express can also hand over an array or an object for a repeated or bracketed parameter; that is not modelled.
- GetArticleID: JavaScript objects treat a `__proto__` key specially, and object keys come in insertion order. The result is modelled as a plain map.
- `new Date(...)` is the uninterpreted function `toDate`.
- `fetchTopics` and `fetchUsers` are not modelled. They are plain `SELECT *` reads with no logic.
- The controllers, routes, `api.js`, `app/models/get-api.model.js` and `db/seeds/seed.js` are not modelled. They are request/response plumbing, route registration, a pass-through read, and schema creation with bulk inserts.
- The error-handling middleware is not part of this model.
- Promise sequencing, and any concurrency between an existence check and the statement after it, are not modelled. Each operation is one atomic step on the store.

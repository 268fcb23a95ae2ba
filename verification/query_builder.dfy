/**
  The article-list query builder of `fetchArticles`: three optional,
  untrusted query parameters become either the SQL text sent to the
  database or a single `400 Bad Request` rejection.
 */
module QueryBuilder {
  import opened Wrappers
  import opened Rejections
  import opened JsValues

  /** The fixed head of the article-list query. */
  const SelectArticles: string :=
    "SELECT articles.article_id, articles.title, articles.topic, articles.author, articles.created_at, articles.votes, articles.article_img_url, COUNT(comments.comment_id)::INT AS comment_count FROM articles LEFT JOIN comments ON articles.article_id = comments.article_id"

  const GroupByArticle: string := " GROUP BY articles.article_id"
  const WhereTopic: string := " WHERE topic = '"
  const OrderBy: string := " ORDER BY "

  /** The allow-lists: topic slugs, sortable columns, sort directions. */
  const ValidTopics: seq<string> := ["mitch", "cats"]
  const Greenlist: seq<string> := ["article_id", "title", "topic", "author", "body", "created_at", "votes"]
  const ValidOrders: seq<string> := ["ASC", "DESC"]

  /** The three choices a query text carries. */
  datatype Plan = Plan(topic: Option<string>, column: string, direction: string)

  /** Every caller-derived token of the plan comes from an allow-list. */
  predicate Allowed(p: Plan) {
    && (p.topic.None? || p.topic.value in ValidTopics)
    && p.column in Greenlist
    && p.direction in ValidOrders
  }

  function FilterClause(topic: Option<string>): string {
    match topic
    case None => GroupByArticle
    case Some(t) => WhereTopic + t + "'" + GroupByArticle
  }

  /** The query text a plan denotes, as one declarative layout. */
  function Render(p: Plan): string {
    SelectArticles + FilterClause(p.topic) + OrderBy + p.column + " " + p.direction
  }

  /** The plan the (defaulted) parameters ask for: no filter, `created_at`
      and `DESC` when the parameter is absent or empty. */
  function Requested(sortBy: Option<string>, order: Option<string>, topic: Option<string>): Plan {
    Plan(if Given(topic) then topic else None,
         if Given(sortBy) then sortBy.value else "created_at",
         if Given(order) then ToUpperCase(order.value) else "DESC")
  }

  /** Which single parameters the builder accepts, each on its own. */
  predicate TopicAccepted(topic: Option<string>) {
    !Given(topic) || topic.value in ValidTopics
  }

  predicate SortAccepted(sortBy: Option<string>) {
    !Given(sortBy) || sortBy.value in Greenlist
  }

  predicate OrderAccepted(order: Option<string>) {
    !Given(order) || ToUpperCase(order.value) in ValidOrders
  }

  /**
    `fetchArticles(sort_by, order, topic)` up to the query it would issue.
    The checks run in the source's order (topic, then sort_by, then order),
    each appending its clause to the query string; the contract relates the
    text to the declarative `Render`.
   */
  function FetchArticles(sortBy: Option<string>, order: Option<string>, topic: Option<string>): (r: Result<string, Rejection>)
    // the only rejection is 400 Bad Request
    ensures r.Failure? ==> r.error == BadRequest
    // accepted exactly when each parameter is acceptable on its own
    ensures r.Success? <==> TopicAccepted(topic) && SortAccepted(sortBy) && OrderAccepted(order)
    // an accepted query is the rendering of an all-allow-listed plan
    ensures r.Success? ==> Allowed(Requested(sortBy, order, topic)) && r.value == Render(Requested(sortBy, order, topic))
  {
    var afterTopic := AppendTopic(SelectArticles, topic);
    if afterTopic.Failure? then Failure(BadRequest)
    else
      var afterSort := AppendSort(afterTopic.value, sortBy);
      if afterSort.Failure? then Failure(BadRequest)
      else
        AppendDirection(afterSort.value, order)
  }

  /** The `topic` step: a filter on an allowed topic, a rejection on any
      other non-empty topic, the bare grouping otherwise. */
  function AppendTopic(query: string, topic: Option<string>): (r: Result<string, Rejection>)
    ensures r.Failure? <==> !TopicAccepted(topic)
    ensures r.Failure? ==> r.error == BadRequest
    ensures r.Success? ==> r.value == query + FilterClause(Requested(None, None, topic).topic)
  {
    if Given(topic) && topic.value in ValidTopics then
      Success(query + WhereTopic + topic.value + "'" + GroupByArticle)
    else if Given(topic) && topic.value !in ValidTopics then
      Failure(BadRequest)
    else
      Success(query + GroupByArticle)
  }

  /** The `sort_by` step: the allowed column, a rejection on any other
      non-empty column, `created_at` otherwise. */
  function AppendSort(query: string, sortBy: Option<string>): (r: Result<string, Rejection>)
    ensures r.Failure? <==> !SortAccepted(sortBy)
    ensures r.Failure? ==> r.error == BadRequest
    ensures r.Success? ==> r.value == query + OrderBy + Requested(sortBy, None, None).column
  {
    if Given(sortBy) && sortBy.value in Greenlist then
      Success(query + OrderBy + sortBy.value)
    else if Given(sortBy) && sortBy.value !in Greenlist then
      Failure(BadRequest)
    else
      Success(query + OrderBy + "created_at")
  }

  /** The `order` step: the upper-cased direction when it is allowed, a
      rejection when a non-empty value is not, `DESC` otherwise. */
  function AppendDirection(query: string, order: Option<string>): (r: Result<string, Rejection>)
    ensures r.Failure? <==> !OrderAccepted(order)
    ensures r.Failure? ==> r.error == BadRequest
    ensures r.Success? ==> r.value == query + " " + Requested(None, order, None).direction
  {
    if Given(order) && ToUpperCase(order.value) in ValidOrders then
      Success(query + " " + ToUpperCase(order.value))
    else if Given(order) && order.value !in ValidOrders then
      Failure(BadRequest)
    else
      UpperCaseOfAllowedOrder(order);
      Success(query + " DESC")
  }

  /** The source's third `order` branch is reached only by an absent or empty
      `order`: an allowed direction is already its own upper case. */
  lemma UpperCaseOfAllowedOrder(order: Option<string>)
    ensures Given(order) && order.value in ValidOrders ==> ToUpperCase(order.value) in ValidOrders
  {
    assert ToUpperCase("ASC") == "ASC";
    assert ToUpperCase("DESC") == "DESC";
  }
}

/**
  Reading a query text back into the plan it carries: the inverse of
  `QueryBuilder.Render`. It shows that an accepted query says nothing but
  its three allow-listed choices.
 */
module QueryReader {
  import opened Wrappers
  import opened QueryBuilder

  /** The rest of `s` after `prefix`, when `s` starts with it. */
  function StripPrefix(prefix: string, s: string): (r: Option<string>)
    ensures r.Some? <==> |prefix| <= |s| && s[..|prefix|] == prefix
    ensures r.Some? ==> s == prefix + r.value
  {
    if |prefix| <= |s| && s[..|prefix|] == prefix then Some(s[|prefix|..]) else None
  }

  /** `s` split at the first occurrence of `sep`, which is dropped. */
  function SplitAt(s: string, sep: char): (r: Option<(string, string)>)
    ensures r.Some? <==> sep in s
    ensures r.Some? ==> sep !in r.value.0 && s == r.value.0 + [sep] + r.value.1
  {
    if s == [] then None
    else if s[0] == sep then Some(([], s[1..]))
    else
      match SplitAt(s[1..], sep)
      case None => None
      case Some((a, b)) => Some(([s[0]] + a, b))
  }

  /** The filter clause at the front of `s`, and what follows it. */
  function ReadFilter(s: string): Option<(Option<string>, string)> {
    match StripPrefix(GroupByArticle, s)
    case Some(rest) => Some((None, rest))
    case None =>
      match StripPrefix(WhereTopic, s)
      case None => None
      case Some(rest) =>
        match SplitAt(rest, '\'')
        case None => None
        case Some((t, after)) =>
          match StripPrefix(GroupByArticle, after)
          case None => None
          case Some(tail) => Some((Some(t), tail))
  }

  /** The plan a query text was rendered from, if it has the layout of one. */
  function ReadQuery(q: string): Option<Plan> {
    match StripPrefix(SelectArticles, q)
    case None => None
    case Some(rest) =>
      match ReadFilter(rest)
      case None => None
      case Some((topic, afterFilter)) =>
        match StripPrefix(OrderBy, afterFilter)
        case None => None
        case Some(tail) =>
          match SplitAt(tail, ' ')
          case None => None
          case Some((column, direction)) => Some(Plan(topic, column, direction))
  }

  /** A plan whose tokens cannot be confused with the surrounding syntax:
      no quote inside the topic, no space inside the column. */
  predicate Delimited(p: Plan) {
    (p.topic.None? || '\'' !in p.topic.value) && ' ' !in p.column
  }

  lemma StripPrefixOfConcat(prefix: string, s: string)
    ensures StripPrefix(prefix, prefix + s) == Some(s)
  {
    assert (prefix + s)[..|prefix|] == prefix;
    assert (prefix + s)[|prefix|..] == s;
  }

  lemma {:induction false} SplitAtFirst(a: string, sep: char, b: string)
    requires sep !in a
    ensures SplitAt(a + [sep] + b, sep) == Some((a, b))
  {
    if a == [] {
      assert a + [sep] + b == [sep] + b;
    } else {
      assert (a + [sep] + b)[1..] == a[1..] + [sep] + b;
      SplitAtFirst(a[1..], sep, b);
      assert [a[0]] + a[1..] == a;
    }
  }

  /** A WHERE clause is never mistaken for the bare grouping. */
  lemma FilterIsNotGrouping(s: string)
    ensures StripPrefix(GroupByArticle, WhereTopic + s) == None
  {
    var t := WhereTopic + s;
    if |GroupByArticle| <= |t| {
      assert t[1] == 'W' && GroupByArticle[1] == 'G';
      assert t[..|GroupByArticle|][1] != GroupByArticle[1];
    }
  }

  lemma ReadFilterOfClause(topic: Option<string>, rest: string)
    requires topic.None? || '\'' !in topic.value
    ensures ReadFilter(FilterClause(topic) + rest) == Some((topic, rest))
  {
    match topic
    case None =>
      StripPrefixOfConcat(GroupByArticle, rest);
    case Some(t) =>
      var s := FilterClause(topic) + rest;
      assert s == WhereTopic + (t + "'" + GroupByArticle + rest);
      FilterIsNotGrouping(t + "'" + GroupByArticle + rest);
      StripPrefixOfConcat(WhereTopic, t + "'" + GroupByArticle + rest);
      assert t + "'" + GroupByArticle + rest == t + ['\''] + (GroupByArticle + rest);
      SplitAtFirst(t, '\'', GroupByArticle + rest);
      StripPrefixOfConcat(GroupByArticle, rest);
  }

  /** Round trip: reading a delimited plan's text gives the plan back. */
  lemma ReadRender(p: Plan)
    requires Delimited(p)
    ensures ReadQuery(Render(p)) == Some(p)
  {
    var tail := p.column + " " + p.direction;
    var afterFilter := OrderBy + tail;
    assert Render(p) == SelectArticles + (FilterClause(p.topic) + afterFilter);
    StripPrefixOfConcat(SelectArticles, FilterClause(p.topic) + afterFilter);
    ReadFilterOfClause(p.topic, afterFilter);
    StripPrefixOfConcat(OrderBy, tail);
    assert tail == p.column + [' '] + p.direction;
    SplitAtFirst(p.column, ' ', p.direction);
  }

  /** Every allow-listed plan is delimited. */
  lemma AllowedIsDelimited(p: Plan)
    requires Allowed(p)
    ensures Delimited(p)
  {
  }

  /** Distinct allow-listed plans give distinct query texts, so the text
      determines the topic, column and direction the caller asked for. */
  lemma RenderInjective(p: Plan, q: Plan)
    requires Allowed(p) && Allowed(q)
    requires Render(p) == Render(q)
    ensures p == q
  {
    AllowedIsDelimited(p);
    AllowedIsDelimited(q);
    ReadRender(p);
    ReadRender(q);
  }

  /** The number of single quotes in a text. */
  function Quotes(s: string): nat {
    if s == [] then 0 else (if s[0] == '\'' then 1 else 0) + Quotes(s[1..])
  }

  lemma {:induction false} QuotesOfConcat(a: string, b: string)
    ensures Quotes(a + b) == Quotes(a) + Quotes(b)
  {
    if a == [] {
      assert a + b == b;
    } else {
      assert (a + b)[0] == a[0];
      assert (a + b)[1..] == a[1..] + b;
      QuotesOfConcat(a[1..], b);
    }
  }

  lemma {:induction false} NoQuotes(s: string)
    requires '\'' !in s
    ensures Quotes(s) == 0
  {
    if s != [] {
      NoQuotes(s[1..]);
    }
  }

  lemma {:induction false} SomeQuote(s: string)
    requires '\'' in s
    ensures Quotes(s) >= 1
  {
    if s[0] != '\'' {
      SomeQuote(s[1..]);
    }
  }

  lemma QuotesOfFive(a: string, b: string, c: string, d: string, e: string)
    ensures Quotes(a + b + c + d + e) == Quotes(a) + Quotes(b) + Quotes(c) + Quotes(d) + Quotes(e)
  {
    QuotesOfConcat(a, b);
    QuotesOfConcat(a + b, c);
    QuotesOfConcat(a + b + c, d);
    QuotesOfConcat(a + b + c + d, e);
  }

  /** What follows the fixed head of a query: filter, ordering, direction. */
  function Tail(p: Plan): string {
    FilterClause(p.topic) + OrderBy + p.column + " " + p.direction
  }

  lemma RenderSplit(p: Plan)
    ensures Render(p) == SelectArticles + Tail(p)
    ensures Render(p)[|SelectArticles|..] == Tail(p)
  {
  }

  /** Quote-free separators add no quote to the pieces they join. */
  lemma QuotesOfTail(s: string, filter: string, orderBy: string, column: string, gap: string, direction: string)
    requires s == filter + orderBy + column + gap + direction
    requires '\'' !in orderBy && '\'' !in gap
    ensures Quotes(s) == Quotes(filter) + Quotes(column) + Quotes(direction)
  {
    QuotesOfFive(filter, orderBy, column, gap, direction);
    NoQuotes(orderBy);
    NoQuotes(gap);
  }

  /** A text quoted between two quote-free pieces holds its own quotes and
      the two delimiting ones. */
  lemma QuotesOfQuoted(s: string, a: string, t: string, b: string)
    requires s == a + "'" + t + "'" + b
    requires '\'' !in a && '\'' !in b
    ensures Quotes(s) == 2 + Quotes(t)
  {
    QuotesOfFive(a, "'", t, "'", b);
    NoQuotes(a);
    NoQuotes(b);
  }

  /** A filter on topic `t` holds the two quotes around the literal plus
      those inside `t`; the bare grouping holds none. */
  lemma QuotesOfFilter(topic: Option<string>)
    ensures Quotes(FilterClause(topic)) == if topic.None? then 0 else 2 + Quotes(topic.value)
  {
    match topic
    case None =>
      NoQuotes(GroupByArticle);
    case Some(t) =>
      QuotesOfQuoted(FilterClause(topic), " WHERE topic = ", t, GroupByArticle);
  }

  /** No allow-listed token holds a quote. */
  lemma AllowListsHaveNoQuotes(p: Plan)
    requires Allowed(p)
    ensures p.topic.Some? ==> Quotes(p.topic.value) == 0
    ensures Quotes(p.column) == 0 && Quotes(p.direction) == 0
  {
    if p.topic.Some? {
      NoQuotes(p.topic.value);
    }
    NoQuotes(p.column);
    NoQuotes(p.direction);
  }

  /** An allow-listed query holds no quote, or exactly the two around an
      allowed topic. */
  lemma QuotesOfAllowed(p: Plan)
    requires Allowed(p)
    ensures Quotes(Tail(p)) <= 2
  {
    QuotesOfTail(Tail(p), FilterClause(p.topic), OrderBy, p.column, " ", p.direction);
    QuotesOfFilter(p.topic);
    AllowListsHaveNoQuotes(p);
  }

  /** A topic with a quote in it, whatever the column and direction, never
      renders to the text of any allow-listed query: the allow-list is what
      keeps a quote from ending the topic literal early. */
  lemma QuotedTopicNeverAllowed(t: string, column: string, direction: string, p: Plan)
    requires '\'' in t
    requires Allowed(p)
    ensures Render(p) != Render(Plan(Some(t), column, direction))
  {
    var q := Plan(Some(t), column, direction);
    QuotesOfAllowed(p);
    QuotesOfTail(Tail(q), FilterClause(q.topic), OrderBy, column, " ", direction);
    QuotesOfFilter(q.topic);
    SomeQuote(t);
    assert Quotes(Tail(p)) < Quotes(Tail(q));
    RenderSplit(p);
    RenderSplit(q);
  }
}

/** Consequences of the `fetchArticles` contract for particular requests. */
module QueryExamples {
  import opened Wrappers
  import opened Rejections
  import opened JsValues
  import opened QueryBuilder

  /** No parameters: every article, grouped, newest first. */
  lemma DefaultQuery()
    ensures FetchArticles(None, None, None) == Success(SelectArticles + GroupByArticle + OrderBy + "created_at" + " " + "DESC")
  {
  }

  /** `order` is compared case-insensitively: two spellings with the same
      upper case give the same outcome. */
  lemma OrderCaseInsensitive(sortBy: Option<string>, o1: string, o2: string, topic: Option<string>)
    requires ToUpperCase(o1) == ToUpperCase(o2)
    ensures FetchArticles(sortBy, Some(o1), topic) == FetchArticles(sortBy, Some(o2), topic)
  {
  }

  /** Sending `order` already upper-cased changes nothing. */
  lemma UpperCasedOrderSameOutcome(sortBy: Option<string>, o: string, topic: Option<string>)
    ensures FetchArticles(sortBy, Some(ToUpperCase(o)), topic) == FetchArticles(sortBy, Some(o), topic)
  {
    ToUpperCaseIdempotent(o);
    OrderCaseInsensitive(sortBy, ToUpperCase(o), o, topic);
  }

  /** A lower-case `asc` is accepted and emitted upper-cased. */
  lemma LowerCaseAscending()
    ensures FetchArticles(Some("votes"), Some("asc"), Some("cats")) == Success(Render(Plan(Some("cats"), "votes", "ASC")))
  {
    assert ToUpperCase("asc") == "ASC";
  }

  /** An unknown topic is rejected whatever `sort_by` and `order` say. */
  lemma UnknownTopicShortCircuits(sortBy: Option<string>, order: Option<string>, topic: string)
    requires topic != "" && topic !in ValidTopics
    ensures FetchArticles(sortBy, order, Some(topic)) == Failure(BadRequest)
  {
  }

  /** An invalid `sort_by` and an invalid `order` together still give one
      plain rejection, never a partially applied query. */
  lemma BothInvalidRejectOnce()
    ensures FetchArticles(Some("garlic"), Some("sideways"), None) == Failure(BadRequest)
  {
  }
}

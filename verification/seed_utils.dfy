/**
  The seed-data helpers: rewriting the `created_at` key of a record, and
  folding inserted article rows into a `title -> article_id` lookup.
 */
module SeedUtils {
  import opened JsValues
  import opened Tables

  /** A plain JavaScript object: its own enumerable properties. */
  type Record = map<string, JsValue>

  const CreatedAt: string := "created_at"

  /**
    `convertTimestampToDate`: the record without its `created_at` key, plus
    `created_at: toDate(created_at)` when the old value was truthy. The
    `new Date(...)` constructor is the uninterpreted `toDate`. The input is
    a value, so it is never mutated.
   */
  function ConvertTimestampToDate(rec: Record, toDate: JsValue -> JsValue): (r: Record)
    // every other key is kept with its value, and no key is added
    ensures forall k :: k != CreatedAt ==> (k in r <==> k in rec)
    ensures forall k :: k in rec && k != CreatedAt ==> r[k] == rec[k]
    // no `created_at`: the record comes back equal
    ensures CreatedAt !in rec ==> r == rec
    // a falsy `created_at` is dropped, a truthy one converted
    ensures CreatedAt in rec && !Truthy(rec[CreatedAt]) ==> CreatedAt !in r
    ensures CreatedAt in rec && Truthy(rec[CreatedAt]) ==> CreatedAt in r && r[CreatedAt] == toDate(rec[CreatedAt])
  {
    var createdAt := if CreatedAt in rec then rec[CreatedAt] else Undefined;
    var otherProperties := rec - {CreatedAt};
    if !Truthy(createdAt) then otherProperties
    else otherProperties[CreatedAt := toDate(createdAt)]
  }

  /** The titles of a list of article rows. */
  function Titles(articles: seq<Article>): set<string> {
    set i | 0 <= i < |articles| :: articles[i].title
  }

  /** `articles[i]` is the last row with its title. */
  predicate LastWithTitle(articles: seq<Article>, i: int) {
    0 <= i < |articles| && forall j :: i < j < |articles| ==> articles[j].title != articles[i].title
  }

  /**
    The `forEach` of `getArticleID`: assign `acc[title] = article_id` for
    each row in list order, so a later row overwrites an earlier one.
   */
  function AssignTitles(acc: map<string, int>, articles: seq<Article>): (r: map<string, int>)
    ensures r.Keys == acc.Keys + Titles(articles)
    // keys the rows do not mention keep their value
    ensures forall t :: t in acc && t !in Titles(articles) ==> r[t] == acc[t]
    // a title maps to the id of its last row
    ensures forall i :: LastWithTitle(articles, i) ==> r[articles[i].title] == articles[i].articleId
    decreases |articles|
  {
    if articles == [] then acc
    else
      var rest := articles[1..];
      var r := AssignTitles(acc[articles[0].title := articles[0].articleId], rest);
      assert Titles(articles) == {articles[0].title} + Titles(rest) by {
        forall t | t in Titles(articles) ensures t in {articles[0].title} + Titles(rest) {
          var i :| 0 <= i < |articles| && articles[i].title == t;
          if i > 0 { assert rest[i - 1].title == t; }
        }
        forall t | t in Titles(rest) ensures t in Titles(articles) {
          var i :| 0 <= i < |rest| && rest[i].title == t;
          assert articles[i + 1].title == t;
        }
      }
      forall i | LastWithTitle(articles, i) ensures r[articles[i].title] == articles[i].articleId {
        if i == 0 {
          forall j | 0 <= j < |rest| ensures rest[j].title != articles[0].title {
            assert rest[j] == articles[j + 1];
          }
          assert articles[0].title !in Titles(rest);
        } else {
          assert LastWithTitle(rest, i - 1);
        }
      }
      r
  }

  /** `getArticleID`: the `title -> article_id` lookup of a list of rows. */
  function GetArticleID(articles: seq<Article>): (r: map<string, int>)
    ensures articles == [] ==> r == map[]
    ensures r.Keys == Titles(articles)
    ensures forall i :: LastWithTitle(articles, i) ==> r[articles[i].title] == articles[i].articleId
  {
    if |articles| == 0 then map[]
    else AssignTitles(map[], articles)
  }
}

/** Consequences of the seed-helper contracts, including the unit-test cases. */
module SeedUtilsProperties {
  import opened JsValues
  import opened Tables
  import opened SeedUtils

  /** The index of the last row carrying title `t`. */
  function LastIndexOf(articles: seq<Article>, t: string): (i: int)
    requires t in Titles(articles)
    ensures LastWithTitle(articles, i) && articles[i].title == t
  {
    var n := |articles| - 1;
    if articles[n].title == t then n
    else
      var init := articles[..n];
      assert t in Titles(init) by {
        var i :| 0 <= i < |articles| && articles[i].title == t;
        assert i < n && init[i].title == t;
      }
      var i := LastIndexOf(init, t);
      assert articles[i] == init[i];
      assert forall j :: i < j < n ==> articles[j] == init[j];
      i
  }

  /** Each title maps to the `article_id` of a row with that title: the last one. */
  lemma GetArticleIDValues(articles: seq<Article>, t: string)
    requires t in Titles(articles)
    ensures exists i :: LastWithTitle(articles, i) && articles[i].title == t && articles[i].articleId == GetArticleID(articles)[t]
  {
    var i := LastIndexOf(articles, t);
    assert articles[i].articleId == GetArticleID(articles)[t];
  }

  /** With distinct titles every row's title maps to its own `article_id`. */
  lemma GetArticleIDDistinctTitles(articles: seq<Article>)
    requires forall i, j :: 0 <= i < j < |articles| ==> articles[i].title != articles[j].title
    ensures forall i :: 0 <= i < |articles| ==> GetArticleID(articles)[articles[i].title] == articles[i].articleId
  {
    forall i | 0 <= i < |articles| ensures GetArticleID(articles)[articles[i].title] == articles[i].articleId {
      assert LastWithTitle(articles, i);
    }
  }

  /** The one-row unit test: a single `title -> article_id` entry. */
  lemma GetArticleIDOneRow(a: Article)
    ensures GetArticleID([a]) == map[a.title := a.articleId]
  {
    assert [a][0] == a;
    assert LastWithTitle([a], 0);
    assert Titles([a]) == {a.title};
  }

  /** A duplicated title keeps the later row's id. */
  lemma GetArticleIDLastWins(first: Article, second: Article)
    requires first.title == second.title
    ensures GetArticleID([first, second]) == map[second.title := second.articleId]
  {
    var r := GetArticleID([first, second]);
    assert LastWithTitle([first, second], 1);
    assert Titles([first, second]) == {second.title};
  }

  /** The two-row unit test: each title keyed to its own id. */
  lemma GetArticleIDTwoRows(a: Article, b: Article)
    requires a.articleId == 5 && a.title == "UNCOVERED: catspiracy to bring down democracy"
    requires b.articleId == 6 && b.title == "A"
    ensures GetArticleID([a, b]) == map["UNCOVERED: catspiracy to bring down democracy" := 5, "A" := 6]
  {
    assert a.title != b.title by { assert |a.title| != |b.title|; }
    GetArticleIDDistinctTitles([a, b]);
    assert [a, b][0] == a && [a, b][1] == b;
    assert Titles([a, b]) == {a.title, b.title};
  }

  /** The contract of `ConvertTimestampToDate` pins the result down: any
      record with the same five properties is that result. */
  lemma ConvertTimestampToDateUnique(rec: Record, toDate: JsValue -> JsValue, m: Record)
    requires forall k :: k != CreatedAt ==> (k in m <==> k in rec)
    requires forall k :: k in rec && k != CreatedAt ==> m[k] == rec[k]
    requires CreatedAt !in rec ==> m == rec
    requires CreatedAt in rec && !Truthy(rec[CreatedAt]) ==> CreatedAt !in m
    requires CreatedAt in rec && Truthy(rec[CreatedAt]) ==> CreatedAt in m && m[CreatedAt] == toDate(rec[CreatedAt])
    ensures m == ConvertTimestampToDate(rec, toDate)
  {
    var r := ConvertTimestampToDate(rec, toDate);
    assert m.Keys == r.Keys;
  }

  /** The unit test with a falsy `created_at`: the other keys survive and the
      zero timestamp is dropped. */
  lemma ConvertKeepsOtherKeys(toDate: JsValue -> JsValue)
    ensures
      var r := ConvertTimestampToDate(map[CreatedAt := Number(0), "key1" := Bool(true), "key2" := Number(1)], toDate);
      r == map["key1" := Bool(true), "key2" := Number(1)]
  {
    var rec := map[CreatedAt := Number(0), "key1" := Bool(true), "key2" := Number(1)];
    var r := ConvertTimestampToDate(rec, toDate);
    assert "key1" != CreatedAt && "key2" != CreatedAt;
    assert r.Keys == {"key1", "key2"};
  }

  /** The unit test with no `created_at`: the record comes back unchanged. */
  lemma ConvertWithoutTimestamp(toDate: JsValue -> JsValue)
    ensures ConvertTimestampToDate(map["key" := Str("value")], toDate) == map["key" := Str("value")]
  {
    assert "key" != CreatedAt;
  }

  /** A truthy timestamp is replaced by its conversion. */
  lemma ConvertTruthyTimestamp(toDate: JsValue -> JsValue)
    ensures ConvertTimestampToDate(map[CreatedAt := Number(1557572706232)], toDate) == map[CreatedAt := toDate(Number(1557572706232))]
  {
    var r := ConvertTimestampToDate(map[CreatedAt := Number(1557572706232)], toDate);
    assert r.Keys == {CreatedAt};
  }
}

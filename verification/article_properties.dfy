/** How the data-access operations compose. */
module ArticleProperties {
  import opened Wrappers
  import opened Rejections
  import opened JsValues
  import opened Tables
  import opened ArticleModel

  /** Deleting a comment twice: the second call finds nothing. */
  lemma RemoveCommentTwice(s: Store, commentId: int)
    requires WellFormed(s)
    requires RemoveCommentById(s, commentId).Success?
    ensures RemoveCommentById(RemoveCommentById(s, commentId).value.0, commentId) == Failure(CommentNotFound)
  {
  }

  /** Deleting the comment just posted gives back the original tables; only
      the serial sequence has moved on. */
  lemma InsertThenRemove(s: Store, articleId: int, username: string, body: string, now: Timestamp)
    requires WellFormed(s)
    requires InsertCommentByArticleId(s, articleId, username, body, now).Success?
    ensures
      var (s1, c) := InsertCommentByArticleId(s, articleId, username, body, now).value;
      var removed := RemoveCommentById(s1, c.commentId);
      && removed.Success?
      && removed.value.0.comments == s.comments
      && removed.value.0.articles == s.articles
      && removed.value.1 == [c]
  {
  }

  /** A vote change is undone by the opposite change. */
  lemma UpdateThenUndo(s: Store, articleId: int, inc: int)
    requires WellFormed(s)
    requires UpdateArticleById(s, articleId, Number(inc)).Success?
    ensures
      var s1 := UpdateArticleById(s, articleId, Number(inc)).value.0;
      UpdateArticleById(s1, articleId, Number(-inc)) == Success((s, s.articles[articleId]))
  {
    var s1 := UpdateArticleById(s, articleId, Number(inc)).value.0;
    ArticleRowByKey(s, articleId);
    ArticleRowByKey(s1, articleId);
    var (s2, a2) := UpdateArticleById(s1, articleId, Number(-inc)).value;
    assert a2 == s.articles[articleId];
    assert s2.articles == s.articles;
  }

  /** Two vote changes amount to one change by their sum. */
  lemma UpdatesAdd(s: Store, articleId: int, m: int, n: int)
    requires WellFormed(s)
    requires UpdateArticleById(s, articleId, Number(m)).Success?
    ensures
      var s1 := UpdateArticleById(s, articleId, Number(m)).value.0;
      UpdateArticleById(s1, articleId, Number(n)) == UpdateArticleById(s, articleId, Number(m + n))
  {
    var s1 := UpdateArticleById(s, articleId, Number(m)).value.0;
    ArticleRowByKey(s, articleId);
    ArticleRowByKey(s1, articleId);
    var (s2, a2) := UpdateArticleById(s1, articleId, Number(n)).value;
    var (s3, a3) := UpdateArticleById(s, articleId, Number(m + n)).value;
    assert a2 == a3;
    assert s2.articles == s3.articles;
  }

  /** The vote examples: 100 moves to 101 with `inc_votes: 1` and to 99 with
      `inc_votes: -1`; a string increment is refused. */
  lemma VoteExamples(a: Article)
    requires a.votes == 100
    ensures
      var s := Store(map[a.articleId := a], map[], 1);
      && UpdateArticleById(s, a.articleId, Number(1)).value.1.votes == 101
      && UpdateArticleById(s, a.articleId, Number(-1)).value.1.votes == 99
      && UpdateArticleById(s, a.articleId, Str("1")) == Failure(InvalidDataType)
  {
  }

  /** After a comment is posted, its article's comment list holds it beside
      every comment the article already had, and nothing else. */
  lemma InsertThenFetch(s: Store, articleId: int, username: string, body: string, now: Timestamp)
    requires WellFormed(s)
    requires InsertCommentByArticleId(s, articleId, username, body, now).Success?
    ensures
      var (s1, c) := InsertCommentByArticleId(s, articleId, username, body, now).value;
      var listed := FetchCommentsByArticleId(s1, articleId);
      && listed.Success?
      && c in listed.value
      && (forall k :: k in s.comments && s.comments[k].articleId == articleId ==> s.comments[k] in listed.value)
      && (forall i :: 0 <= i < |listed.value| ==>
            listed.value[i] == c || (listed.value[i].commentId in s.comments && s.comments[listed.value[i].commentId] == listed.value[i]))
  {
    var (s1, c) := InsertCommentByArticleId(s, articleId, username, body, now).value;
    assert s1.comments[c.commentId].articleId == articleId;
  }

  /** After a comment is deleted, its article's comment list no longer
      shows it, and is 404 exactly when no other comment remains. */
  lemma RemoveThenFetch(s: Store, commentId: int)
    requires WellFormed(s)
    requires RemoveCommentById(s, commentId).Success?
    ensures
      var s1 := RemoveCommentById(s, commentId).value.0;
      var articleId := s.comments[commentId].articleId;
      var listed := FetchCommentsByArticleId(s1, articleId);
      && (listed.Failure? <==> forall k :: k in s.comments && k != commentId ==> s.comments[k].articleId != articleId)
      && (listed.Success? ==> forall i :: 0 <= i < |listed.value| ==> listed.value[i].commentId != commentId)
  {
  }
}

/**
  The data-access operations on single articles and comments: validate the
  input, check that the row exists, then read or write. The database is the
  in-memory `Tables.Store`; each writing operation returns the new store
  beside the row the statement's `RETURNING *` gives back.
 */
module ArticleModel {
  import opened Wrappers
  import opened Rejections
  import opened JsValues
  import opened Tables

  /** Some comment row belongs to this article. */
  predicate HasComments(s: Store, articleId: int) {
    exists k :: k in s.comments && s.comments[k].articleId == articleId
  }

  /** `selectArticleById`: the row with that `article_id`, or 404. */
  function SelectArticleById(s: Store, articleId: int): (r: Result<Article, Rejection>)
    requires WellFormed(s)
    ensures r.Failure? <==> !ArticleRowExists(s, articleId)
    ensures r.Failure? ==> r.error == PageNotFound
    ensures r.Success? ==> r.value.articleId == articleId && r.value in s.articles.Values
  {
    ArticleRowByKey(s, articleId);
    if articleId !in s.articles then Failure(PageNotFound)
    else Success(s.articles[articleId])
  }

  /** The comment rows of the article among serial ids `id` up to the next
      one, in ascending id order. */
  function CommentsFrom(s: Store, articleId: int, id: int): (rows: seq<Comment>)
    requires WellFormed(s)
    requires id <= s.nextCommentId
    decreases s.nextCommentId - id
    // only rows of this article, each a stored row at or past `id`
    ensures forall i :: 0 <= i < |rows| ==>
      rows[i].articleId == articleId && rows[i].commentId in s.comments && id <= rows[i].commentId
      && s.comments[rows[i].commentId] == rows[i]
    // every row of this article at or past `id`
    ensures forall k :: k in s.comments && id <= k && s.comments[k].articleId == articleId ==> s.comments[k] in rows
    // strictly ascending ids
    ensures forall i, j :: 0 <= i < j < |rows| ==> rows[i].commentId < rows[j].commentId
  {
    if id == s.nextCommentId then []
    else
      var rest := CommentsFrom(s, articleId, id + 1);
      if id in s.comments && s.comments[id].articleId == articleId then [s.comments[id]] + rest else rest
  }

  /**
    `fetchCommentsByArticleId`: every comment row of the article, in no
    promised order, or 404 when there is none. An article that exists but
    has no comments is therefore reported as not found.
   */
  function FetchCommentsByArticleId(s: Store, articleId: int): (r: Result<seq<Comment>, Rejection>)
    requires WellFormed(s)
    ensures r.Failure? <==> !HasComments(s, articleId)
    ensures r.Failure? ==> r.error == PageNotFound
    // only rows of this article, each a stored row
    ensures r.Success? ==> forall i :: 0 <= i < |r.value| ==>
      r.value[i].articleId == articleId && r.value[i].commentId in s.comments && s.comments[r.value[i].commentId] == r.value[i]
    // every row of this article
    ensures r.Success? ==> forall k :: k in s.comments && s.comments[k].articleId == articleId ==> s.comments[k] in r.value
    // each row once
    ensures r.Success? ==> forall i, j :: 0 <= i < j < |r.value| ==> r.value[i].commentId != r.value[j].commentId
  {
    // scan the serial ids handed out so far, 1 up to the next one
    var rows := CommentsFrom(s, articleId, 1);
    if rows == [] then
      Failure(PageNotFound)
    else
      assert s.comments[rows[0].commentId].articleId == articleId;
      Success(rows)
  }

  /**
    `insertCommentByArticleId`: empty fields are refused before the store is
    consulted, a missing article gives 404, and otherwise one new comment
    row is added under the next serial id, with the table defaults
    (`votes = 0`, `created_at = now`).
   */
  function InsertCommentByArticleId(s: Store, articleId: int, username: string, body: string, now: Timestamp): (r: Result<(Store, Comment), Rejection>)
    requires WellFormed(s)
    ensures username == "" || body == "" ==> r == Failure(RequiredFieldsEmpty)
    ensures username != "" && body != "" && !ArticleRowExists(s, articleId) ==> r == Failure(PageNotFound)
    ensures username != "" && body != "" && ArticleRowExists(s, articleId) ==> r.Success?
    // the new row carries the request's fields and a fresh id
    ensures r.Success? ==>
      var (s', c) := r.value;
      && c.articleId == articleId && c.author == username && c.body == body
      && c.votes == 0 && c.createdAt == now
      && !CommentRowExists(s, c.commentId)
      && s'.comments.Keys == s.comments.Keys + {c.commentId}
      && s'.comments[c.commentId] == c
    // nothing else changes
    ensures r.Success? ==>
      var (s', c) := r.value;
      && (forall k :: k in s.comments ==> s'.comments[k] == s.comments[k])
      && s'.articles == s.articles
      && WellFormed(s')
      && (CommentsReferenceArticles(s) ==> CommentsReferenceArticles(s'))
  {
    ArticleRowByKey(s, articleId);
    CommentRowByKey(s, s.nextCommentId);
    if username == "" || body == "" then
      Failure(RequiredFieldsEmpty)
    else if articleId !in s.articles then
      Failure(PageNotFound)
    else
      var c := Comment(s.nextCommentId, articleId, body, 0, username, now);
      Success((s.(comments := s.comments[c.commentId := c], nextCommentId := s.nextCommentId + 1), c))
  }

  /**
    `updateArticleById`: a non-number `inc_votes` is refused before the store
    is consulted, a missing article gives 404, and otherwise the article's
    votes move by `inc_votes` (which may be negative).
   */
  function UpdateArticleById(s: Store, articleId: int, incVotes: JsValue): (r: Result<(Store, Article), Rejection>)
    requires WellFormed(s)
    ensures TypeOf(incVotes) != "number" ==> r == Failure(InvalidDataType)
    ensures TypeOf(incVotes) == "number" && !ArticleRowExists(s, articleId) ==> r == Failure(PageNotFound)
    ensures TypeOf(incVotes) == "number" && ArticleRowExists(s, articleId) ==> r.Success?
    // the returned and stored row: old votes plus the increment, every other field as before
    ensures r.Success? ==>
      var (s', a) := r.value;
      && articleId in s.articles
      && a.votes == s.articles[articleId].votes + incVotes.n
      && a == s.articles[articleId].(votes := a.votes)
      && articleId in s'.articles && s'.articles[articleId] == a
    // nothing else changes
    ensures r.Success? ==>
      var (s', a) := r.value;
      && s'.articles.Keys == s.articles.Keys
      && (forall k :: k in s.articles && k != articleId ==> s'.articles[k] == s.articles[k])
      && s'.comments == s.comments
      && s'.nextCommentId == s.nextCommentId
      && WellFormed(s')
      && (CommentsReferenceArticles(s) ==> CommentsReferenceArticles(s'))
  {
    ArticleRowByKey(s, articleId);
    if TypeOf(incVotes) != "number" then
      Failure(InvalidDataType)
    else if articleId !in s.articles then
      Failure(PageNotFound)
    else
      var before := s.articles[articleId];
      var a := before.(votes := before.votes + incVotes.n);
      Success((s.(articles := s.articles[articleId := a]), a))
  }

  /**
    `removeCommentById`: 404 "Comment Not Found" when there is no such row;
    otherwise exactly that row is deleted and returned.
   */
  function RemoveCommentById(s: Store, commentId: int): (r: Result<(Store, seq<Comment>), Rejection>)
    requires WellFormed(s)
    ensures r.Failure? <==> !CommentRowExists(s, commentId)
    ensures r.Failure? ==> r.error == CommentNotFound
    ensures r.Success? ==>
      var (s', deleted) := r.value;
      && commentId in s.comments
      && deleted == [s.comments[commentId]]
      && s'.comments.Keys == s.comments.Keys - {commentId}
    // nothing else changes
    ensures r.Success? ==>
      var (s', deleted) := r.value;
      && (forall k :: k in s'.comments ==> s'.comments[k] == s.comments[k])
      && s'.articles == s.articles
      && s'.nextCommentId == s.nextCommentId
      && WellFormed(s')
      && (CommentsReferenceArticles(s) ==> CommentsReferenceArticles(s'))
  {
    CommentRowByKey(s, commentId);
    if commentId !in s.comments then
      Failure(CommentNotFound)
    else
      Success((s.(comments := s.comments - {commentId}), [s.comments[commentId]]))
  }
}

/**
  The rows of the `articles` and `comments` tables and an in-memory
  stand-in for the database that holds them.
 */
module Tables {

  /** Milliseconds since the epoch; the model never interprets them. */
  type Timestamp = int

  datatype Article = Article(
    articleId: int,
    title: string,
    topic: string,
    author: string,
    body: string,
    createdAt: Timestamp,
    votes: int,
    articleImgUrl: string)

  datatype Comment = Comment(
    commentId: int,
    articleId: int,
    body: string,
    votes: int,
    author: string,
    createdAt: Timestamp)

  /** Both tables indexed by primary key, and the next value of the
      `comments.comment_id` serial sequence. */
  datatype Store = Store(
    articles: map<int, Article>,
    comments: map<int, Comment>,
    nextCommentId: int)

  /** What the schema guarantees: each row sits under its own primary key,
      and the serial sequence, which starts at 1, is past every comment id
      handed out. */
  predicate WellFormed(s: Store) {
    && (forall id :: id in s.articles ==> s.articles[id].articleId == id)
    && 1 <= s.nextCommentId
    && (forall id :: id in s.comments ==> s.comments[id].commentId == id && 1 <= id < s.nextCommentId)
  }

  /** The foreign key `comments.article_id REFERENCES articles(article_id)`. */
  predicate CommentsReferenceArticles(s: Store) {
    forall id :: id in s.comments ==> s.comments[id].articleId in s.articles
  }

  /** Some row of `articles` has this `article_id` (what `SELECT ... WHERE
      article_id = $1` finds). */
  predicate ArticleRowExists(s: Store, articleId: int) {
    exists k :: k in s.articles && s.articles[k].articleId == articleId
  }

  /** Some row of `comments` has this `comment_id`. */
  predicate CommentRowExists(s: Store, commentId: int) {
    exists k :: k in s.comments && s.comments[k].commentId == commentId
  }

  /** In a well-formed store a row is found by key exactly when some row
      carries that id. */
  lemma ArticleRowByKey(s: Store, articleId: int)
    requires WellFormed(s)
    ensures ArticleRowExists(s, articleId) <==> articleId in s.articles
  {
  }

  lemma CommentRowByKey(s: Store, commentId: int)
    requires WellFormed(s)
    ensures CommentRowExists(s, commentId) <==> commentId in s.comments
  {
  }
}

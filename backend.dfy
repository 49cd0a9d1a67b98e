/**
 * The values that cross the boundary to the comment-distribution backend.
 * The backend itself is not part of this model: every call into it is an
 * oracle whose answer is passed in, as a `Reply`.
 */
module Backend {

  datatype Option<+T> = None | Some(value: T)

  /** The settled outcome of an asynchronous backend call: a value, or a rejected promise carrying an error message. */
  datatype Reply<+T> = Ok(value: T) | Err(message: string)

  type CommentListId = string

  type CommentId = string

  /**
   * Whether a `string | null` selection is truthy, as the handlers' `if (!selectedList)`
   * guards test it: both null and the empty string count as nothing selected.
   */
  predicate IsSelected(list: Option<CommentListId>) {
    list.Some? && list.value != ""
  }

  /** A comment record as the backend returns it (`Comment` in the interface). */
  datatype Comment = Comment(id: CommentId, content: string, used: bool, timestamp: int)

  /** The arguments of one `addComment` call. */
  datatype NewComment = NewComment(listId: CommentListId, id: CommentId, content: string)

  /** The arguments of one `generateBulkComments` call; `count` is the parsed count the backend receives as `BigInt(count)`. */
  datatype BulkRequest = BulkRequest(listId: CommentListId, count: int, bulkGeneratorKey: string)
}

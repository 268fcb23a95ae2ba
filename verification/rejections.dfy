/** The `{status, msg}` objects the data-access layer rejects its promises with. */
module Rejections {

  datatype Rejection = Rejection(status: int, msg: string)

  const BadRequest := Rejection(400, "Bad Request")
  const RequiredFieldsEmpty := Rejection(400, "Required fields empty")
  const InvalidDataType := Rejection(400, "Invalid Data Type")
  const PageNotFound := Rejection(404, "Page Not Found")
  const CommentNotFound := Rejection(404, "Comment Not Found")
}

/** What the two authentication pages of Frontend/TaskCalender/src/pages/auth/ show and
    what a failed request looks like to them. */
module AuthNotice {
  import opened Wrappers

  datatype NoticeKind = ErrorNotice | SuccessNotice

  /** The argument of `showNotification(message, type)`; the type defaults to error. */
  datatype Notification = Notification(message: string, kind: NoticeKind)

  /** A rejected request as the pages see it: a response with its status and, possibly,
      a `message` in its body; or no response at all, possibly with the error's own
      `message`. */
  datatype Failure =
    | HttpError(status: int, bodyMessage: Option<string>)
    | NoResponse(message: Option<string>)

  /** A JavaScript string value is truthy when it is present and not empty. */
  predicate Truthy(s: Option<string>) {
    s.Some? && s.value != ""
  }
}

/** Small failure-carrying datatypes shared by the whole model. */
module Outcomes {

  datatype Option<+T> = None | Some(value: T)

  /**
   * What a call into the remote content service came back with, as the
   * dashboard's handlers see it:
   *  - Accepted: the reply reported success (`status === 'success'` for the
   *    content/news/question endpoints, `success` for the video endpoints)
   *    and carried `payload`;
   *  - Declined: the service answered without success; `reason` is its
   *    `message` field, the empty string when it had none;
   *  - Thrown: the request, or decoding its reply, raised an error whose
   *    message is `error`.
   */
  datatype Response<+T> = Accepted(payload: T) | Declined(reason: string) | Thrown(error: string)
}

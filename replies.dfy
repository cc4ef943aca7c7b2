/** What a service hands back to its endpoint: a `(content, status)` pair, and,
    as a recorded event, the e-mail it asked the notifier to send. */
module Replies {
  import opened Http
  import opened TokenCodec
  import opened UserModel
  import UserTable

  datatype Content =
    | Detail(detail: string)
    | Bearer(accessToken: Token, tokenType: string, note: Option<string>)
    | Profile(fields: map<string, Value>)
      /** `verify_account_request` returns a one-element Python set, not a dict. */
    | Note(text: string)

  datatype Response = Response(content: Content, status: int)

  /** The two notifications; the template rendering and SMTP delivery are not modelled. */
  datatype Mail =
    | Activation(firstName: string, recipient: string, link: Token)
    | PasswordReset(firstName: string, recipient: string, otp: int)

  /** One service call: the table afterwards, the reply or the raised error, and the mail sent. */
  datatype Step = Step(table: UserTable.Table, result: Result<Response>, mail: Option<Mail>)
}

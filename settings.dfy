/** The token and OTP lifetimes, fixed at the defaults the configuration loader
    falls back to when the environment does not override them. All times in the
    model are whole seconds. */
module Settings {

  const ACCESS_TOKEN_EXPIRE_MINUTES: int := 1
  const ACCESS_TOKEN_EXPIRE_HOURS: int := 2
  const VERIFY_TOKEN_EXPIRE_MINUTES: int := 15
  const PASSWORD_REST_OTP_EXPIRE_MINUTES: int := 15

  /** `create_access_token` falls back to fifteen minutes when no (or a zero) lifetime is given. */
  const DEFAULT_TOKEN_SECONDS: int := 15 * 60

  const SECONDS_PER_MINUTE: int := 60
  const SECONDS_PER_HOUR: int := 3600
}

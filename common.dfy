/** Values shared by the deck session, the offline swipe queue and the
    device-id helper: optional values, what the browser environment offers,
    and the outcome of a call to the stock API. */
module Common {

  /** `T | null`, and a missing or unreadable stored value. */
  datatype Option<T> = None | Some(value: T)

  /** The browser environment as the client code sees it.
      `hasWindow` is `typeof window !== 'undefined'` (false during server-side
      rendering); `canRead` / `canWrite` say whether `localStorage.getItem` /
      `localStorage.setItem` return normally or throw (privacy mode, quota). */
  datatype Browser = Browser(hasWindow: bool, canRead: bool, canWrite: bool)

  /** The outcome of one HTTP call to the stock API: a response body, an
      HTTP 429 (the daily swipe limit), or any other error. */
  datatype Reply<T> = Ok(value: T) | RateLimited | Failed

  /** JavaScript truthiness of a `string | null`: null and "" are both falsy. */
  predicate Present(id: Option<string>)
  {
    id.Some? && id.value != ""
  }
}

/**
 * Dates as the client uses them, without `Date` arithmetic: a moment is its
 * local calendar day, its hour:minute rendering and its ISO-8601 form.
 */
module Dates {
  import opened Wrappers
  import Js

  /**
   * A moment in the device's time zone: `day` numbers local calendar days
   * consecutively (the day after day `d` is `d + 1`), `time` is what
   * `toLocaleTimeString` with two-digit hour and minute gives, and `iso` is
   * what `toISOString` gives.
   */
  datatype Instant = Instant(day: int, time: string, iso: string)

  /**
   * What the device supplies: the current moment (`new Date()`), the moment
   * `new Date(y, m, d + 1, h, min)` built from the current moment's fields
   * (the next day at that hour and minute, or later when a daylight-saving
   * gap skips that minute), the parse of
   * a string by `new Date(s)` (`None` when the result is an invalid date), and
   * `new Date(v).toISOString()` over a JSON value (`None` when that throws).
   */
  datatype DateEnv = DateEnv(
    now: Instant,
    tomorrow: Instant,
    parse: string -> Option<Instant>,
    toIso: Js.JValue -> Option<string>)

  /**
   * The relation the device's clock keeps between the two moments: built as
   * `new Date(y, m, d + 1, h, min)` from the current moment, tomorrow falls on
   * the next calendar day. Its time of day may differ from now's, since a
   * daylight-saving gap moves a missing minute forward.
   */
  predicate TomorrowFollowsNow(env: DateEnv) {
    env.tomorrow.day == env.now.day + 1
  }
}

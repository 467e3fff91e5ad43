/** The uptime indicator's hook (web/src/hooks/useBackendUptime.js): the admin gate
    on the backend uptime, and the formatting of the page's own uptime.
    The clock is an input (`diffMs`, the milliseconds since the page started); the
    two requests are inputs describing how they ended. */
module Uptime {
  import opened Common

  /** `getWebUptime`: seconds, minutes and hours are successive floor divisions of the
      elapsed milliseconds; the largest non-zero unit is printed with the next one. */
  function WebUptime(diffMs: int): (r: string)
    ensures diffMs >= 3600000 ==>
      r == IntToString(diffMs / 3600000) + "h " + IntToString(diffMs / 60000 % 60) + "m"
    ensures 60000 <= diffMs < 3600000 ==>
      r == IntToString(diffMs / 60000) + "m " + IntToString(diffMs / 1000 % 60) + "s"
    ensures diffMs < 60000 ==> r == IntToString(diffMs / 1000) + "s"
  {
    // For a positive divisor Dafny's `/` is the floor, as `Math.floor(a / b)` is.
    var seconds := diffMs / 1000;
    var minutes := seconds / 60;
    var hours := minutes / 60;
    // `%` is applied to positive values only, where it agrees with JavaScript's.
    if hours > 0 then IntToString(hours) + "h " + IntToString(minutes % 60) + "m"
    else if minutes > 0 then IntToString(minutes) + "m " + IntToString(seconds % 60) + "s"
    else IntToString(seconds) + "s"
  }

  /** The printed units are a faithful decomposition: hours, the minutes below an hour,
      the seconds below a minute and the leftover milliseconds add back up to the elapsed
      time, and each secondary unit is below 60. */
  lemma UnitsRecompose(diffMs: int)
    requires diffMs >= 0
    ensures (diffMs / 60000) % 60 < 60 && (diffMs / 1000) % 60 < 60
    ensures diffMs / 3600000 * 3600000 + diffMs / 60000 % 60 * 60000 + diffMs / 1000 % 60 * 1000 + diffMs % 1000 == diffMs
  {
    var s := diffMs / 1000;
    var m := s / 60;
    var h := m / 60;
    assert diffMs == 1000 * s + diffMs % 1000 && s == 60 * m + s % 60;
    assert diffMs / 60000 == m by {
      assert diffMs == 60000 * m + (1000 * (s % 60) + diffMs % 1000);
    }
    assert diffMs / 3600000 == h by {
      assert m == 60 * h + m % 60;
      assert diffMs == 3600000 * h + (60000 * (m % 60) + 1000 * (s % 60) + diffMs % 1000);
    }
    assert diffMs % 1000 == diffMs - 1000 * s;
  }

  /** The backend's uptime record as the indicator keeps it. */
  datatype BackendUptime = BackendUptime(backend: string, backendSeconds: real)

  /** How `/auth/is-admin` ended: an ok reply with its `is_admin`, a non-ok reply, or a
      thrown error. */
  datatype AdminReply = AdminOk(isAdmin: bool) | AdminNotOk | AdminFailed

  /** How `/health` ended: an ok reply with `uptime_formatted` and `uptime_seconds` (absent
      fields are `None`), a non-ok reply, or a thrown error. */
  datatype HealthReply = HealthOk(formatted: Option<string>, seconds: Option<real>) | HealthNotOk | HealthFailed

  /** The record stored from an ok `/health` reply: falsy fields become "Unknown" and 0. */
  function FromHealth(formatted: Option<string>, seconds: Option<real>): (u: BackendUptime)
    ensures u.backend != ""
    ensures formatted.Some? && formatted.value != "" ==> u.backend == formatted.value
    ensures !(formatted.Some? && formatted.value != "") ==> u.backend == "Unknown"
    ensures u.backendSeconds == if seconds.Some? then seconds.value else 0.0
  {
    BackendUptime(if formatted.Some? && formatted.value != "" then formatted.value else "Unknown",
                  seconds.GetOr(0.0))
  }

  class UptimeMonitor {
    /** The session token; `null` is the empty string. */
    var token: string
    var isAdmin: bool
    var uptime: Option<BackendUptime>

    /** The backend uptime is only ever held for a signed-in administrator. */
    ghost predicate Valid()
      reads this
    {
      uptime.Some? ==> token != "" && isAdmin
    }

    constructor (initialToken: string)
      ensures token == initialToken && !isAdmin && uptime == None
      ensures Valid()
    {
      token, isAdmin, uptime := initialToken, false, None;
    }

    /** The uptime effect and the interval's fetch: nothing is kept unless the user is a
        signed-in administrator; a failed request keeps the previous record. */
    method RefreshUptime(reply: HealthReply)
      modifies this`uptime
      ensures token == "" || !isAdmin ==> uptime == None
      ensures token != "" && isAdmin && reply.HealthOk? ==> uptime == Some(FromHealth(reply.formatted, reply.seconds))
      ensures token != "" && isAdmin && !reply.HealthOk? ==> uptime == old(uptime)
      ensures old(Valid()) ==> Valid()
      ensures token != "" && isAdmin ==> Valid()
    {
      if token == "" || !isAdmin {
        uptime := None;
        return;
      }
      if reply.HealthOk? {
        uptime := Some(FromHealth(reply.formatted, reply.seconds));
      }
    }

    /** A new token: the admin effect clears everything when signed out, otherwise asks
        `/auth/is-admin`; the uptime effect then runs again for the new token. */
    method TokenChanged(newToken: string, admin: AdminReply, health: HealthReply)
      modifies this
      ensures token == newToken
      ensures newToken == "" ==> !isAdmin && uptime == None
      ensures newToken != "" && admin.AdminOk? ==> isAdmin == admin.isAdmin
      ensures newToken != "" && admin.AdminNotOk? ==> isAdmin == old(isAdmin)
      ensures newToken != "" && admin.AdminFailed? ==> !isAdmin
      ensures !isAdmin ==> uptime == None
      ensures isAdmin && health.HealthOk? ==> uptime == Some(FromHealth(health.formatted, health.seconds))
      ensures Valid()
    {
      token := newToken;
      if token == "" {
        isAdmin, uptime := false, None;
        return;
      }
      match admin {
        case AdminOk(b) => isAdmin := b;
        case AdminNotOk =>
        case AdminFailed => isAdmin := false;
      }
      RefreshUptime(health);
    }

    /** `uptime?.backend || null`. */
    function ShownBackendUptime(): (r: Option<string>)
      reads this
      ensures r.Some? <==> uptime.Some? && uptime.value.backend != ""
      ensures r.Some? ==> r.value == uptime.value.backend
    {
      if uptime.Some? && uptime.value.backend != "" then Some(uptime.value.backend) else None
    }
  }

  /** A fetched record is never blank, so the indicator shows a backend uptime exactly
      when one is held. */
  lemma ShownWhenHeld(m: UptimeMonitor, formatted: Option<string>, seconds: Option<real>)
    requires m.uptime == Some(FromHealth(formatted, seconds))
    ensures m.ShownBackendUptime() == Some(m.uptime.value.backend)
  {
  }
}

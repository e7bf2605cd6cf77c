/**
 * `src/hooks/useAnalytics.ts`: the per-tab session id and the page-view row
 * sent on mount.
 *
 * `sessionStorage` is a class holding the one key the hook uses. The clock
 * (`Date.now()`) and the random suffix (`Math.random().toString(36)
 * .substring(7)`) are parameters, and so are the page's path, its referrer,
 * the user agent and the outcome of `auth.getUser()`. The insert itself is
 * returned rather than sent.
 */
module Analytics {
  import opened Base
  import opened JsText

  /** `${Date.now()}-${suffix}`. */
  function GeneratedId(now: nat, suffix: string): string {
    NatToDecimal(now) + "-" + suffix
  }

  /** A generated id is never empty, so it is kept by every later call; its
      part before the first `-` reads back as the timestamp. */
  lemma GeneratedIdReadsBack(now: nat, suffix: string)
    ensures GeneratedId(now, suffix) != ""
    ensures BeforeFirst(GeneratedId(now, suffix), '-') == NatToDecimal(now)
    ensures DecimalValue(BeforeFirst(GeneratedId(now, suffix), '-')) == now
  {
    var d := NatToDecimal(now);
    var id := GeneratedId(now, suffix);
    BeforeFirstAt(id, '-', |d|);
    assert id[..|d|] == d;
    DecimalRoundTrip(now);
  }

  /** The tab's `sessionStorage`, as far as `analytics_session_id` goes. */
  class SessionStorage {
    var sessionId: Option<string>

    constructor (initial: Option<string>)
      ensures sessionId == initial
    {
      sessionId := initial;
    }

    /** `getSessionId`: a stored id is returned as it is; a missing or empty
        one is replaced by a new id, which is stored and returned. */
    method GetSessionId(now: nat, suffix: string) returns (id: string)
      modifies this
      ensures Truthy(old(sessionId)) ==> id == old(sessionId).value && sessionId == old(sessionId)
      ensures !Truthy(old(sessionId)) ==> id == GeneratedId(now, suffix) && sessionId == Some(id)
      ensures Truthy(sessionId) && id == sessionId.value
    {
      if Truthy(sessionId) {
        id := sessionId.value;
      } else {
        GeneratedIdReadsBack(now, suffix);
        id := NatToDecimal(now) + "-" + suffix;
        sessionId := Some(id);
      }
    }
  }

  /** Two mounts in one tab report the same session, whatever the clock and
      the random suffix say the second time. */
  method SameSessionScenario(s: SessionStorage, now1: nat, suffix1: string, now2: nat, suffix2: string)
    modifies s
  {
    var first := s.GetSessionId(now1, suffix1);
    var second := s.GetSessionId(now2, suffix2);
    assert first == second;
  }

  // ---------------------------------------------------------------------------
  // The page view

  /** A row of `page_views`; None stands for `null`. */
  datatype PageView = PageView(
    pagePath: string, userId: Option<string>, sessionId: string,
    referrer: Option<string>, userAgent: string)

  /** `x || null` for a string that may be missing. */
  function OrNull(x: Option<string>): (r: Option<string>)
    ensures r.Some? <==> Truthy(x)
    ensures r.Some? ==> r == x
  {
    if Truthy(x) then x else None
  }

  /** The object passed to `insert`; `userId` is the signed-in user's id, if
      any. */
  function PageViewOf(pagePath: string, userId: Option<string>, sessionId: string,
                      referrer: string, userAgent: string): PageView {
    PageView(pagePath, OrNull(userId), sessionId, OrNull(Some(referrer)), userAgent)
  }

  /** The row's `user_id` is null exactly without a (non-empty) user id, and
      its `referrer` exactly when the referrer is empty; everything else is
      copied. */
  lemma PageViewNulls(pagePath: string, userId: Option<string>, sessionId: string, referrer: string, userAgent: string)
    ensures var v := PageViewOf(pagePath, userId, sessionId, referrer, userAgent);
      && (v.userId.None? <==> !Truthy(userId))
      && (v.userId.Some? ==> v.userId == userId)
      && (v.referrer.None? <==> referrer == "")
      && (v.referrer.Some? ==> v.referrer.value == referrer)
      && v.pagePath == pagePath && v.sessionId == sessionId && v.userAgent == userAgent
  {
  }

  /** How `auth.getUser()` came back. */
  datatype UserLookup = Threw | SignedIn(id: string) | SignedOut

  /** `trackPageView`: the row it inserts, or None when `getUser` threw and
      the error was logged instead. The session id is fixed before the
      lookup, so it is stored even then. */
  method TrackPageView(storage: SessionStorage, now: nat, suffix: string, pagePath: string,
                       referrer: string, userAgent: string, lookup: UserLookup)
    returns (row: Option<PageView>)
    modifies storage
    ensures Truthy(storage.sessionId)
    ensures Truthy(old(storage.sessionId)) ==> storage.sessionId == old(storage.sessionId)
    ensures lookup.Threw? ==> row.None?
    ensures !lookup.Threw? ==> row == Some(PageViewOf(pagePath,
      if lookup.SignedIn? then Some(lookup.id) else None, storage.sessionId.value, referrer, userAgent))
  {
    var sessionId := storage.GetSessionId(now, suffix);
    if lookup.Threw? {
      return None;
    }
    var userId := if lookup.SignedIn? then Some(lookup.id) else None;
    row := Some(PageViewOf(pagePath, userId, sessionId, referrer, userAgent));
  }
}

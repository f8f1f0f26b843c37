/**
 * Session timing (src/lib/session-manager.ts): the "remember me" preference
 * kept in one localStorage slot, the token lifetime it selects, and the rules
 * for when to refresh a session and when to look at it again. The clock is a
 * parameter: `nowMs` is what `Date.now()` returned.
 */
module SessionManager {
  import opened Wrappers

  datatype SessionDuration = Short | Long

  datatype SessionPreference = SessionPreference(rememberMe: bool, duration: SessionDuration)

  /** What the slot under `recipe-box-remember-me` can hold. */
  datatype StoredPreference =
    | PreferenceJson(preference: SessionPreference)  // text JSON.parse turns into a preference
    | NotAPreference                                  // empty text, or text JSON.parse rejects

  /** The preference reported when none can be read. */
  const DefaultPreference := SessionPreference(false, Short)

  /** Five minutes, in milliseconds: the regular interval between session checks. */
  const SessionCheckInterval := 5 * 60 * 1000

  /** One minute, in milliseconds: the interval once expiry is near. */
  const SoonCheckInterval := 60 * 1000

  /** The preference `setSessionPreference(rememberMe)` writes: the duration follows the flag. */
  function PreferenceFor(rememberMe: bool): (p: SessionPreference)
    ensures p.rememberMe == rememberMe
    ensures p.duration == Long <==> rememberMe
  {
    SessionPreference(rememberMe, if rememberMe then Long else Short)
  }

  /** The token lifetime, in seconds, a preference asks for: sixty days if remembered, else one day. */
  function SessionDurationSeconds(preference: SessionPreference): (seconds: nat)
    ensures preference.rememberMe ==> seconds == 5184000
    ensures !preference.rememberMe ==> seconds == 86400
  {
    if preference.rememberMe then 60 * 24 * 60 * 60 else 24 * 60 * 60
  }

  /** `Math.floor(nowMs / 1000)`: Dafny's division by a positive number already rounds down. */
  function Seconds(nowMs: int): int {
    nowMs / 1000
  }

  /** A whole number of seconds lies at or before the floor of a millisecond clock exactly when its milliseconds do. */
  lemma FloorSeconds(s: int, nowMs: int)
    ensures s <= Seconds(nowMs) <==> s * 1000 <= nowMs
  {
    var q, r := nowMs / 1000, nowMs % 1000;
    assert nowMs == q * 1000 + r && 0 <= r < 1000;
    if s <= q {
      assert s * 1000 <= q * 1000;
    } else {
      assert s >= q + 1;
      assert s * 1000 >= q * 1000 + 1000;
    }
  }

  /** `!expiresAt`: no expiry known (missing, or 0). */
  predicate NoExpiry(expiresAt: Option<int>) {
    expiresAt.None? || expiresAt.value == 0
  }

  /**
   * `shouldRefreshSession`: false with no expiry; otherwise true once fewer than
   * 300 whole seconds remain, which is from 299 seconds before expiry on,
   * including every moment after expiry.
   */
  function ShouldRefreshSession(expiresAt: Option<int>, nowMs: int): (r: bool)
    ensures NoExpiry(expiresAt) ==> !r
    ensures !NoExpiry(expiresAt) ==> (r <==> (expiresAt.value - 299) * 1000 <= nowMs)
  {
    if NoExpiry(expiresAt) then false
    else
      var timeUntilExpiry := expiresAt.value - Seconds(nowMs);
      FloorSeconds(expiresAt.value - 299, nowMs);
      timeUntilExpiry < 5 * 60
  }

  /**
   * `getNextCheckTime`: one minute once fewer than 600 whole seconds remain,
   * otherwise (and with no expiry) the regular five minutes.
   */
  function GetNextCheckTime(expiresAt: Option<int>, nowMs: int): (r: nat)
    ensures r == SoonCheckInterval || r == SessionCheckInterval
    ensures r == SoonCheckInterval <==> !NoExpiry(expiresAt) && (expiresAt.value - 599) * 1000 <= nowMs
  {
    if NoExpiry(expiresAt) then SessionCheckInterval
    else
      var timeUntilExpiry := expiresAt.value - Seconds(nowMs);
      FloorSeconds(expiresAt.value - 599, nowMs);
      if timeUntilExpiry < 10 * 60 then SoonCheckInterval else SessionCheckInterval
  }

  /** A session due for refresh is also checked at the short interval. */
  lemma RefreshDueMeansFrequentChecks(expiresAt: Option<int>, nowMs: int)
    requires ShouldRefreshSession(expiresAt, nowMs)
    ensures GetNextCheckTime(expiresAt, nowMs) == SoonCheckInterval
  {
  }

  /**
   * The localStorage slot `recipe-box-remember-me`. `inBrowser` is false when
   * the code runs on the server (`typeof window === 'undefined'`), where every
   * operation does nothing and reads give the default.
   */
  class PreferenceSlot {
    const inBrowser: bool
    var stored: Option<StoredPreference>

    constructor (inBrowser: bool, stored: Option<StoredPreference>)
      ensures this.inBrowser == inBrowser && this.stored == stored
    {
      this.inBrowser := inBrowser;
      this.stored := stored;
    }

    /** `getSessionPreference`: what the slot holds if it parses, else the default. */
    method GetSessionPreference() returns (p: SessionPreference)
      ensures inBrowser && stored.Some? && stored.value.PreferenceJson? ==> p == stored.value.preference
      ensures !inBrowser || stored.None? || stored.value.NotAPreference? ==> p == DefaultPreference
    {
      if !inBrowser {
        return DefaultPreference;
      }
      match stored {
        case Some(PreferenceJson(pref)) => p := pref;
        case _ => p := DefaultPreference;
      }
    }

    /**
     * `setSessionPreference`: writes the preference for `rememberMe`.
     * `writeFails` is whether `setItem` throws (the error is logged and the
     * slot keeps its old contents).
     */
    method SetSessionPreference(rememberMe: bool, writeFails: bool)
      modifies this
      ensures stored == if inBrowser && !writeFails then Some(PreferenceJson(PreferenceFor(rememberMe))) else old(stored)
    {
      if !inBrowser {
        return;
      }
      if !writeFails {
        stored := Some(PreferenceJson(PreferenceFor(rememberMe)));
      }
    }

    /**
     * `clearSessionPreference`: empties the slot. `removeFails` is whether
     * `removeItem` throws (the error is logged and the slot keeps its contents).
     */
    method ClearSessionPreference(removeFails: bool)
      modifies this
      ensures stored == if inBrowser && !removeFails then None else old(stored)
    {
      if inBrowser && !removeFails {
        stored := None;
      }
    }

    /** `getSessionDuration`: the lifetime for the given preference, or for the stored one. */
    method GetSessionDuration(preference: Option<SessionPreference>) returns (seconds: nat)
      ensures preference.Some? ==> seconds == SessionDurationSeconds(preference.value)
      ensures preference.None? && inBrowser && stored.Some? && stored.value.PreferenceJson? ==>
        seconds == SessionDurationSeconds(stored.value.preference)
      ensures preference.None? && (!inBrowser || stored.None? || stored.value.NotAPreference?) ==> seconds == 86400
    {
      var pref: SessionPreference;
      if preference.Some? {
        pref := preference.value;
      } else {
        pref := GetSessionPreference();
      }
      seconds := SessionDurationSeconds(pref);
    }
  }

  /** Writing a preference and reading it back gives the preference for that flag. */
  method SetThenGet(slot: PreferenceSlot, rememberMe: bool) returns (p: SessionPreference)
    requires slot.inBrowser
    modifies slot
    ensures p == PreferenceFor(rememberMe)
  {
    slot.SetSessionPreference(rememberMe, false);
    p := slot.GetSessionPreference();
  }

  /** After clearing, a read gives the default preference. */
  method ClearThenGet(slot: PreferenceSlot) returns (p: SessionPreference)
    modifies slot
    ensures p == SessionPreference(false, Short)
  {
    slot.ClearSessionPreference(false);
    p := slot.GetSessionPreference();
  }
}

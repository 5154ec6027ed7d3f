/**
 * The consent preferences: a DataStore of boolean and long entries addressed by key name.
 * Every edit of the source is a transform of the stored preferences; the model writes each
 * transform as a function on `Preferences` and each lookup as a function with its default,
 * and the class `ConsentStore` holds the current snapshot and applies the transforms.
 * The wall clock read by `setConsent` is the parameter `now`.
 */
module Consent {
  import opened Wrappers

  /** The stored preferences: the boolean entries and the long entries, by key name. */
  datatype Preferences = Preferences(bools: map<string, bool>, longs: map<string, int>)

  /** A DataStore with nothing written yet. */
  const Empty: Preferences := Preferences(map[], map[])

  // ---------------------------------------------------------------------------
  // Keys

  const CONSENT_LOCATION: string := "consent_location"
  const CONSENT_MICROPHONE: string := "consent_microphone"
  const CONSENT_CAMERA: string := "consent_camera"
  const CONSENT_SENSORS: string := "consent_sensors"
  const CONSENT_ACCESSIBILITY: string := "consent_accessibility"
  const CONSENT_USAGE_STATS: string := "consent_usage_stats"

  const CONSENT_LOCATION_TIME: string := "consent_location_time"
  const CONSENT_MICROPHONE_TIME: string := "consent_microphone_time"
  const CONSENT_CAMERA_TIME: string := "consent_camera_time"
  const CONSENT_SENSORS_TIME: string := "consent_sensors_time"
  const CONSENT_ACCESSIBILITY_TIME: string := "consent_accessibility_time"
  const CONSENT_USAGE_STATS_TIME: string := "consent_usage_stats_time"

  const IS_PROFILING_ACTIVE: string := "is_profiling_active"
  const FIRST_LAUNCH: string := "first_launch"

  /** The six consent keys. */
  const ConsentKeys: set<string> := {CONSENT_LOCATION, CONSENT_MICROPHONE, CONSENT_CAMERA,
                                     CONSENT_SENSORS, CONSENT_ACCESSIBILITY, CONSENT_USAGE_STATS}

  /** `getTimestampKey`: the key under which a consent's time is kept; null for any other key. */
  function TimestampKey(permissionKey: string): Option<string> {
    if permissionKey == CONSENT_LOCATION then Some(CONSENT_LOCATION_TIME)
    else if permissionKey == CONSENT_MICROPHONE then Some(CONSENT_MICROPHONE_TIME)
    else if permissionKey == CONSENT_CAMERA then Some(CONSENT_CAMERA_TIME)
    else if permissionKey == CONSENT_SENSORS then Some(CONSENT_SENSORS_TIME)
    else if permissionKey == CONSENT_ACCESSIBILITY then Some(CONSENT_ACCESSIBILITY_TIME)
    else if permissionKey == CONSENT_USAGE_STATS then Some(CONSENT_USAGE_STATS_TIME)
    else None
  }

  /** Exactly the six consent keys have a timestamp key; no two share one, and none of them
      is the name of a boolean key of the store. */
  lemma TimestampKeyPairing(k1: string, k2: string)
    ensures TimestampKey(k1).Some? <==> k1 in ConsentKeys
    ensures TimestampKey(k1).Some? && TimestampKey(k1) == TimestampKey(k2) ==> k1 == k2
    ensures TimestampKey(k1).Some? ==>
      TimestampKey(k1).value !in ConsentKeys + {IS_PROFILING_ACTIVE, FIRST_LAUNCH}
  {
  }

  // ---------------------------------------------------------------------------
  // Lookups, each with the default the source gives

  /** `getConsent`: the stored value, false when never set. */
  function ConsentOf(p: Preferences, permissionKey: string): bool {
    MapGetOr(p.bools, permissionKey, false)
  }

  /** `getConsentTimestamp`: the time stored under the paired key, null for a key without
      one or a consent never set. */
  function ConsentTimestampOf(p: Preferences, permissionKey: string): Option<int> {
    match TimestampKey(permissionKey)
    case None => None
    case Some(timeKey) => if timeKey in p.longs then Some(p.longs[timeKey]) else None
  }

  /** `getAllConsents`: the six consents under their short names, absent ones as false. */
  function AllConsents(p: Preferences): map<string, bool> {
    map["location" := ConsentOf(p, CONSENT_LOCATION),
        "microphone" := ConsentOf(p, CONSENT_MICROPHONE),
        "camera" := ConsentOf(p, CONSENT_CAMERA),
        "sensors" := ConsentOf(p, CONSENT_SENSORS),
        "accessibility" := ConsentOf(p, CONSENT_ACCESSIBILITY),
        "usageStats" := ConsentOf(p, CONSENT_USAGE_STATS)]
  }

  /** `isProfilingActive`: false when never set. */
  function ProfilingActiveOf(p: Preferences): bool {
    ConsentOf(p, IS_PROFILING_ACTIVE)
  }

  /** `isFirstLaunch`: true when never set. */
  function FirstLaunchOf(p: Preferences): bool {
    MapGetOr(p.bools, FIRST_LAUNCH, true)
  }

  // ---------------------------------------------------------------------------
  // Edits

  /** `setConsent`: writes the value and, for the six consent keys, the time. */
  function WithConsent(p: Preferences, permissionKey: string, granted: bool, now: int): Preferences {
    var bools := p.bools[permissionKey := granted];
    match TimestampKey(permissionKey)
    case None => Preferences(bools, p.longs)
    case Some(timeKey) => Preferences(bools, p.longs[timeKey := now])
  }

  /** `setProfilingActive`. */
  function WithProfilingActive(p: Preferences, active: bool): Preferences {
    p.(bools := p.bools[IS_PROFILING_ACTIVE := active])
  }

  /** `setFirstLaunchCompleted`. */
  function WithFirstLaunchCompleted(p: Preferences): Preferences {
    p.(bools := p.bools[FIRST_LAUNCH := false])
  }

  // ---------------------------------------------------------------------------
  // Properties

  /** Every getter answers its default on a store never written to, and so after `clearAll`:
      consents false, no timestamps, profiling off, first launch on. */
  lemma Defaults(permissionKey: string)
    ensures !ConsentOf(Empty, permissionKey)
    ensures ConsentTimestampOf(Empty, permissionKey).None?
    ensures !ProfilingActiveOf(Empty)
    ensures FirstLaunchOf(Empty)
    ensures forall name :: name in AllConsents(Empty) ==> !AllConsents(Empty)[name]
  {
  }

  /** After `setConsent(k, g)` the consent `k` reads `g`, every other boolean key reads as
      before, the time of `k` is `now` when `k` is a consent key, and no other time changes. */
  lemma SetConsentReadBack(p: Preferences, permissionKey: string, granted: bool, now: int, other: string)
    ensures var q := WithConsent(p, permissionKey, granted, now);
      && ConsentOf(q, permissionKey) == granted
      && (other != permissionKey ==> ConsentOf(q, other) == ConsentOf(p, other))
      && (other != permissionKey ==> ConsentTimestampOf(q, other) == ConsentTimestampOf(p, other))
      && (permissionKey in ConsentKeys <==> ConsentTimestampOf(q, permissionKey) == Some(now))
      && (permissionKey !in ConsentKeys ==> q.longs == p.longs)
      && (permissionKey != FIRST_LAUNCH ==> FirstLaunchOf(q) == FirstLaunchOf(p))
  {
  }

  /** `getAllConsents` has exactly the six short names, each reading its consent key. */
  lemma AllConsentsEntries(p: Preferences)
    ensures AllConsents(p).Keys == {"location", "microphone", "camera", "sensors", "accessibility", "usageStats"}
    ensures AllConsents(p)["location"] == ConsentOf(p, CONSENT_LOCATION)
    ensures AllConsents(p)["microphone"] == ConsentOf(p, CONSENT_MICROPHONE)
    ensures AllConsents(p)["camera"] == ConsentOf(p, CONSENT_CAMERA)
    ensures AllConsents(p)["sensors"] == ConsentOf(p, CONSENT_SENSORS)
    ensures AllConsents(p)["accessibility"] == ConsentOf(p, CONSENT_ACCESSIBILITY)
    ensures AllConsents(p)["usageStats"] == ConsentOf(p, CONSENT_USAGE_STATS)
  {
  }

  /** The profiling flag reads the last value written; no consent and no time changes. */
  lemma ProfilingReadBack(p: Preferences, active: bool, permissionKey: string)
    ensures ProfilingActiveOf(WithProfilingActive(p, active)) == active
    ensures permissionKey in ConsentKeys ==> ConsentOf(WithProfilingActive(p, active), permissionKey) == ConsentOf(p, permissionKey)
    ensures WithProfilingActive(p, active).longs == p.longs
  {
  }

  /** Completing the first launch makes `isFirstLaunch` false, for good: no consent edit
      turns it back on. */
  lemma FirstLaunchCompleted(p: Preferences, permissionKey: string, granted: bool, now: int)
    ensures !FirstLaunchOf(WithFirstLaunchCompleted(p))
    ensures permissionKey in ConsentKeys ==>
      ConsentOf(WithFirstLaunchCompleted(p), permissionKey) == ConsentOf(p, permissionKey)
    ensures permissionKey in ConsentKeys ==>
      !FirstLaunchOf(WithConsent(WithFirstLaunchCompleted(p), permissionKey, granted, now))
  {
  }

  /** Holds the current preferences; each method is one `edit` of the DataStore. */
  class ConsentStore {
    var prefs: Preferences

    constructor ()
      ensures prefs == Empty
    {
      prefs := Empty;
    }

    method SetConsent(permissionKey: string, granted: bool, now: int)
      modifies this
      ensures prefs == WithConsent(old(prefs), permissionKey, granted, now)
    {
      var p := prefs.bools[permissionKey := granted];
      var longs := prefs.longs;
      var timeKey := TimestampKey(permissionKey);
      if timeKey.Some? {
        longs := longs[timeKey.value := now];
      }
      prefs := Preferences(p, longs);
    }

    function GetConsent(permissionKey: string): (granted: bool)
      reads this
      ensures granted == (permissionKey in prefs.bools && prefs.bools[permissionKey])
    {
      ConsentOf(prefs, permissionKey)
    }

    function GetConsentTimestamp(permissionKey: string): (t: Option<int>)
      reads this
      ensures t.Some? <==> permissionKey in ConsentKeys && TimestampKey(permissionKey).value in prefs.longs
      ensures t.Some? ==> t.value == prefs.longs[TimestampKey(permissionKey).value]
    {
      TimestampKeyPairing(permissionKey, permissionKey);
      ConsentTimestampOf(prefs, permissionKey)
    }

    function GetAllConsents(): (m: map<string, bool>)
      reads this
      ensures m.Keys == {"location", "microphone", "camera", "sensors", "accessibility", "usageStats"}
      ensures m["location"] == GetConsent(CONSENT_LOCATION)
      ensures m["microphone"] == GetConsent(CONSENT_MICROPHONE)
      ensures m["camera"] == GetConsent(CONSENT_CAMERA)
      ensures m["sensors"] == GetConsent(CONSENT_SENSORS)
      ensures m["accessibility"] == GetConsent(CONSENT_ACCESSIBILITY)
      ensures m["usageStats"] == GetConsent(CONSENT_USAGE_STATS)
    {
      AllConsentsEntries(prefs);
      AllConsents(prefs)
    }

    method SetProfilingActive(active: bool)
      modifies this
      ensures prefs == WithProfilingActive(old(prefs), active)
    {
      prefs := prefs.(bools := prefs.bools[IS_PROFILING_ACTIVE := active]);
    }

    function IsProfilingActive(): (active: bool)
      reads this
      ensures active == (IS_PROFILING_ACTIVE in prefs.bools && prefs.bools[IS_PROFILING_ACTIVE])
    {
      ProfilingActiveOf(prefs)
    }

    function IsFirstLaunch(): (first: bool)
      reads this
      ensures first == (FIRST_LAUNCH !in prefs.bools || prefs.bools[FIRST_LAUNCH])
    {
      FirstLaunchOf(prefs)
    }

    method SetFirstLaunchCompleted()
      modifies this
      ensures prefs == WithFirstLaunchCompleted(old(prefs))
      ensures !IsFirstLaunch()
    {
      prefs := prefs.(bools := prefs.bools[FIRST_LAUNCH := false]);
    }

    /** `clearAll`: removes every entry, consents, times and both flags alike. */
    method ClearAll()
      modifies this
      ensures prefs == Empty
    {
      prefs := Preferences(map[], map[]);
    }
  }
}

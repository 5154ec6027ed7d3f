/**
 * The consent screen's state holder: six flags, loaded from the consent store and toggled
 * one at a time, each toggle writing the new value through to the store. The source runs
 * every step in a coroutine; here each step is one sequential method call.
 */
module ConsentScreen {
  import opened Wrappers
  import opened Consent

  /** The six permissions the screen shows. */
  datatype Permission = Location | Microphone | Camera | Sensors | Accessibility | UsageStats

  /** The store key a permission's toggle writes. */
  function KeyOf(perm: Permission): string {
    match perm
    case Location => CONSENT_LOCATION
    case Microphone => CONSENT_MICROPHONE
    case Camera => CONSENT_CAMERA
    case Sensors => CONSENT_SENSORS
    case Accessibility => CONSENT_ACCESSIBILITY
    case UsageStats => CONSENT_USAGE_STATS
  }

  /** The name a permission has in the map `getAllConsents` returns. */
  function NameOf(perm: Permission): string {
    match perm
    case Location => "location"
    case Microphone => "microphone"
    case Camera => "camera"
    case Sensors => "sensors"
    case Accessibility => "accessibility"
    case UsageStats => "usageStats"
  }

  /** The screen state; every flag is off until loaded. */
  datatype ConsentUiState = ConsentUiState(
    locationConsent: bool := false,
    microphoneConsent: bool := false,
    cameraConsent: bool := false,
    sensorsConsent: bool := false,
    accessibilityConsent: bool := false,
    usageStatsConsent: bool := false)
  {
    function Flag(perm: Permission): bool {
      match perm
      case Location => locationConsent
      case Microphone => microphoneConsent
      case Camera => cameraConsent
      case Sensors => sensorsConsent
      case Accessibility => accessibilityConsent
      case UsageStats => usageStatsConsent
    }

    /** `copy(<perm>Consent = b)`. */
    function WithFlag(perm: Permission, b: bool): ConsentUiState {
      match perm
      case Location => this.(locationConsent := b)
      case Microphone => this.(microphoneConsent := b)
      case Camera => this.(cameraConsent := b)
      case Sensors => this.(sensorsConsent := b)
      case Accessibility => this.(accessibilityConsent := b)
      case UsageStats => this.(usageStatsConsent := b)
    }
  }

  /** `consents[name] ?: false`. */
  function Lookup(consents: map<string, bool>, name: string): bool {
    MapGetOr(consents, name, false)
  }

  /** The state `loadConsentState` sets from one emission of `getAllConsents`: all six flags
      are overwritten, so nothing of the previous state survives. */
  function Loaded(consents: map<string, bool>): ConsentUiState {
    ConsentUiState(
      locationConsent := Lookup(consents, "location"),
      microphoneConsent := Lookup(consents, "microphone"),
      cameraConsent := Lookup(consents, "camera"),
      sensorsConsent := Lookup(consents, "sensors"),
      accessibilityConsent := Lookup(consents, "accessibility"),
      usageStatsConsent := Lookup(consents, "usageStats"))
  }

  /** The screen agrees with the store: each flag is the stored consent of its key. */
  ghost predicate InSync(s: ConsentUiState, p: Preferences) {
    forall perm: Permission :: s.Flag(perm) == ConsentOf(p, KeyOf(perm))
  }

  // ---------------------------------------------------------------------------
  // Properties

  /** The initial state has all six flags off. */
  lemma InitialStateAllOff(perm: Permission)
    ensures !ConsentUiState().Flag(perm)
  {
  }

  /** Loading maps each entry to its flag, absent entries to false. */
  lemma LoadedFlags(consents: map<string, bool>, perm: Permission)
    ensures Loaded(consents).Flag(perm) == (NameOf(perm) in consents && consents[NameOf(perm)])
  {
  }

  /** After loading from the store, the screen agrees with it. */
  lemma LoadedIsInSync(p: Preferences)
    ensures InSync(Loaded(AllConsents(p)), p)
  {
    forall perm: Permission ensures Loaded(AllConsents(p)).Flag(perm) == ConsentOf(p, KeyOf(perm)) {
      AllConsentsEntries(p);
    }
  }

  /** A toggle negates its own flag and leaves the other five as they were. */
  lemma ToggleOnlyOwnFlag(s: ConsentUiState, perm: Permission, other: Permission)
    ensures s.WithFlag(perm, !s.Flag(perm)).Flag(perm) == !s.Flag(perm)
    ensures other != perm ==> s.WithFlag(perm, !s.Flag(perm)).Flag(other) == s.Flag(other)
  {
  }

  /** A toggle writes its new value through, so a screen that agrees with the store still
      agrees after it. */
  lemma ToggleKeepsInSync(s: ConsentUiState, p: Preferences, perm: Permission, now: int)
    requires InSync(s, p)
    ensures InSync(s.WithFlag(perm, !s.Flag(perm)), WithConsent(p, KeyOf(perm), !s.Flag(perm), now))
  {
    var s', p' := s.WithFlag(perm, !s.Flag(perm)), WithConsent(p, KeyOf(perm), !s.Flag(perm), now);
    forall other: Permission ensures s'.Flag(other) == ConsentOf(p', KeyOf(other)) {
      SetConsentReadBack(p, KeyOf(perm), !s.Flag(perm), now, KeyOf(other));
      ToggleOnlyOwnFlag(s, perm, other);
    }
  }

  /** Toggling the same flag twice gives back the screen state, and the stored consent is
      again the flag's original value (only its time has moved on). */
  lemma ToggleTwiceRestores(s: ConsentUiState, p: Preferences, perm: Permission, t1: int, t2: int)
    ensures var s1 := s.WithFlag(perm, !s.Flag(perm));
      var p1 := WithConsent(p, KeyOf(perm), s1.Flag(perm), t1);
      var s2 := s1.WithFlag(perm, !s1.Flag(perm));
      var p2 := WithConsent(p1, KeyOf(perm), s2.Flag(perm), t2);
      && s2 == s
      && ConsentOf(p2, KeyOf(perm)) == s.Flag(perm)
      && (InSync(s, p) ==> ConsentOf(p2, KeyOf(perm)) == ConsentOf(p, KeyOf(perm)))
  {
    var s1 := s.WithFlag(perm, !s.Flag(perm));
    var p1 := WithConsent(p, KeyOf(perm), s1.Flag(perm), t1);
    SetConsentReadBack(p1, KeyOf(perm), !s1.Flag(perm), t2, KeyOf(perm));
  }

  /** Completing consent changes no consent the screen shows. */
  lemma CompleteKeepsConsents(s: ConsentUiState, p: Preferences)
    requires InSync(s, p)
    ensures InSync(s, WithFirstLaunchCompleted(p))
    ensures !FirstLaunchOf(WithFirstLaunchCompleted(p))
  {
    forall perm: Permission ensures s.Flag(perm) == ConsentOf(WithFirstLaunchCompleted(p), KeyOf(perm)) {
      FirstLaunchCompleted(p, KeyOf(perm), false, 0);
    }
  }

  class ConsentViewModel {
    const consentStore: ConsentStore
    var uiState: ConsentUiState

    /** Starts from the default state and loads it from the store. */
    constructor (consentStore: ConsentStore)
      ensures this.consentStore == consentStore
      ensures uiState == Loaded(AllConsents(consentStore.prefs))
    {
      this.consentStore := consentStore;
      uiState := ConsentUiState();
      new;
      LoadConsentState();
    }

    /** One emission of the store's consents, copied into the state. */
    method LoadConsentState()
      modifies this
      ensures uiState == Loaded(AllConsents(consentStore.prefs))
    {
      var consents := consentStore.GetAllConsents();
      uiState := uiState.(
        locationConsent := Lookup(consents, "location"),
        microphoneConsent := Lookup(consents, "microphone"),
        cameraConsent := Lookup(consents, "camera"),
        sensorsConsent := Lookup(consents, "sensors"),
        accessibilityConsent := Lookup(consents, "accessibility"),
        usageStatsConsent := Lookup(consents, "usageStats"));
    }

    /** The body shared by the six toggles: negate the flag, write it to the store, then to
        the state. */
    method Toggle(perm: Permission, now: int)
      modifies this, consentStore
      ensures uiState == old(uiState).WithFlag(perm, !old(uiState).Flag(perm))
      ensures consentStore.prefs == WithConsent(old(consentStore.prefs), KeyOf(perm), !old(uiState).Flag(perm), now)
    {
      var newValue := !uiState.Flag(perm);
      consentStore.SetConsent(KeyOf(perm), newValue, now);
      uiState := uiState.WithFlag(perm, newValue);
    }

    method ToggleLocationConsent(now: int)
      modifies this, consentStore
      ensures uiState == old(uiState).(locationConsent := !old(uiState).locationConsent)
      ensures consentStore.prefs == WithConsent(old(consentStore.prefs), CONSENT_LOCATION, !old(uiState).locationConsent, now)
    {
      Toggle(Location, now);
    }

    method ToggleMicrophoneConsent(now: int)
      modifies this, consentStore
      ensures uiState == old(uiState).(microphoneConsent := !old(uiState).microphoneConsent)
      ensures consentStore.prefs == WithConsent(old(consentStore.prefs), CONSENT_MICROPHONE, !old(uiState).microphoneConsent, now)
    {
      Toggle(Microphone, now);
    }

    method ToggleCameraConsent(now: int)
      modifies this, consentStore
      ensures uiState == old(uiState).(cameraConsent := !old(uiState).cameraConsent)
      ensures consentStore.prefs == WithConsent(old(consentStore.prefs), CONSENT_CAMERA, !old(uiState).cameraConsent, now)
    {
      Toggle(Camera, now);
    }

    method ToggleSensorsConsent(now: int)
      modifies this, consentStore
      ensures uiState == old(uiState).(sensorsConsent := !old(uiState).sensorsConsent)
      ensures consentStore.prefs == WithConsent(old(consentStore.prefs), CONSENT_SENSORS, !old(uiState).sensorsConsent, now)
    {
      Toggle(Sensors, now);
    }

    method ToggleAccessibilityConsent(now: int)
      modifies this, consentStore
      ensures uiState == old(uiState).(accessibilityConsent := !old(uiState).accessibilityConsent)
      ensures consentStore.prefs == WithConsent(old(consentStore.prefs), CONSENT_ACCESSIBILITY, !old(uiState).accessibilityConsent, now)
    {
      Toggle(Accessibility, now);
    }

    method ToggleUsageStatsConsent(now: int)
      modifies this, consentStore
      ensures uiState == old(uiState).(usageStatsConsent := !old(uiState).usageStatsConsent)
      ensures consentStore.prefs == WithConsent(old(consentStore.prefs), CONSENT_USAGE_STATS, !old(uiState).usageStatsConsent, now)
    {
      Toggle(UsageStats, now);
    }

    /** Marks the first launch as done; the screen state is left alone. */
    method CompleteConsent()
      modifies consentStore
      ensures consentStore.prefs == WithFirstLaunchCompleted(old(consentStore.prefs))
    {
      consentStore.SetFirstLaunchCompleted();
    }
  }
}

/**
 * The accessibility service's event handler: it turns a platform accessibility event into
 * a UI row that keeps only non-sensitive fields, stores it, and correlates the stored row
 * with the sensor rows around it. The wall clock is the parameter `now`.
 */
module Accessibility {
  import opened Wrappers
  import opened Entities
  import Rows
  import UiEvents
  import Correlation

  /** The platform's event type codes the handler distinguishes. */
  const TYPE_VIEW_CLICKED: int := 1
  const TYPE_VIEW_FOCUSED: int := 8
  const TYPE_WINDOW_STATE_CHANGED: int := 32
  const TYPE_WINDOW_CONTENT_CHANGED: int := 2048

  /** Reading the view id of the event's source node: it yields a value (null when there is
      no source node or no id), or it throws. */
  datatype ViewIdRead = Returns(viewId: Option<string>) | Throws

  /** The parts of a platform event the handler reads. */
  datatype AccessibilityEvent = AccessibilityEvent(
    eventType: int,
    packageName: Option<string>,
    className: Option<string>,
    contentDescription: Option<string>,
    sourceViewId: ViewIdRead)

  /** The tag stored for an event type; every code not listed is OTHER. */
  function EventTag(eventType: int): string {
    if eventType == TYPE_WINDOW_STATE_CHANGED then "WINDOW_CHANGE"
    else if eventType == TYPE_WINDOW_CONTENT_CHANGED then "CONTENT_CHANGE"
    else if eventType == TYPE_VIEW_CLICKED then "CLICK"
    else if eventType == TYPE_VIEW_FOCUSED then "FOCUS"
    else "OTHER"
  }

  /** `take(n)`: the first `n` characters, or all of them when there are fewer. */
  function Take(s: string, n: nat): (r: string)
    ensures |r| <= n && r <= s
    ensures |s| <= n ==> r == s
  {
    if |s| <= n then s else s[..n]
  }

  /** The row the handler builds, or None when the guard drops the event: a null or empty
      package name. */
  function Normalize(event: AccessibilityEvent, now: int): Option<UiEvent> {
    if event.packageName.None? || event.packageName.value == "" then
      None
    else
      Some(UiEvent(
        timestamp := now,
        packageName := event.packageName.GetOr("unknown"),
        eventType := EventTag(event.eventType),
        className := event.className,
        contentDescription := match event.contentDescription
          case None => None
          case Some(d) => Some(Take(d, 50)),
        viewIdResourceName := match event.sourceViewId
          case Throws => None
          case Returns(None) => None
          case Returns(Some(v)) => Some(Take(v, 100)),
        text := None))
  }

  /** The tag is one of the five, and each listed code gets its own. */
  lemma EventTags(eventType: int)
    ensures EventTag(eventType) in {"WINDOW_CHANGE", "CONTENT_CHANGE", "CLICK", "FOCUS", "OTHER"}
    ensures EventTag(eventType) == "CLICK" <==> eventType == TYPE_VIEW_CLICKED
    ensures EventTag(eventType) == "FOCUS" <==> eventType == TYPE_VIEW_FOCUSED
    ensures EventTag(eventType) == "WINDOW_CHANGE" <==> eventType == TYPE_WINDOW_STATE_CHANGED
    ensures EventTag(eventType) == "CONTENT_CHANGE" <==> eventType == TYPE_WINDOW_CONTENT_CHANGED
  {
  }

  /** What a stored UI row can hold: the event's own non-empty package name (so never the
      "unknown" fallback in place of a missing one), the stored time, a description of at
      most 50 characters and a view id of at most 100, each a prefix of the original, no id
      when reading it threw, and never any text. */
  lemma NormalizePrivacy(event: AccessibilityEvent, now: int)
    ensures Normalize(event, now).None? <==> event.packageName.None? || event.packageName.value == ""
    ensures Normalize(event, now).Some? ==>
      var u := Normalize(event, now).value;
      && u.id == 0
      && u.timestamp == now
      && Some(u.packageName) == event.packageName && u.packageName != ""
      && u.eventType == EventTag(event.eventType)
      && u.className == event.className
      && u.contentDescription.Some? == event.contentDescription.Some?
      && (u.contentDescription.Some? ==>
            |u.contentDescription.value| <= 50 && u.contentDescription.value <= event.contentDescription.value)
      && (u.viewIdResourceName.Some? <==> event.sourceViewId.Returns? && event.sourceViewId.viewId.Some?)
      && (u.viewIdResourceName.Some? ==>
            |u.viewIdResourceName.value| <= 100 && u.viewIdResourceName.value <= event.sourceViewId.viewId.value)
      && u.text.None?
  {
  }

  class UiAccessibilityService {
    const uiEventDao: UiEvents.UiEventDao
    const correlationEngine: Correlation.CorrelationEngine

    constructor (uiEventDao: UiEvents.UiEventDao, correlationEngine: Correlation.CorrelationEngine)
      ensures this.uiEventDao == uiEventDao && this.correlationEngine == correlationEngine
    {
      this.uiEventDao := uiEventDao;
      this.correlationEngine := correlationEngine;
    }

    /** Drops the event, or stores its row under the next key and correlates the stored row,
        the key included. */
    method OnAccessibilityEvent(event: AccessibilityEvent, now: int)
      requires uiEventDao.Valid() && correlationEngine.Valid()
      modifies uiEventDao, correlationEngine.correlationResultDao
      ensures uiEventDao.Valid() && correlationEngine.Valid()
      ensures Normalize(event, now).None? ==>
        uiEventDao.table == old(uiEventDao.table)
        && correlationEngine.correlationResultDao.table == old(correlationEngine.correlationResultDao.table)
      ensures Normalize(event, now).Some? ==>
        var stored := Normalize(event, now).value.(id := old(uiEventDao.table.lastId) + 1);
        && uiEventDao.table == Rows.Table(old(uiEventDao.table.rows) + [stored], stored.id)
        && correlationEngine.correlationResultDao.table == Correlation.Stored(
             old(correlationEngine.correlationResultDao.table),
             Correlation.CorrelationFor(stored, correlationEngine.sensorEventDao.table.rows, now))
      ensures (forall x :: x in old(uiEventDao.table.rows) ==> x.text.None?) ==>
        forall x :: x in uiEventDao.table.rows ==> x.text.None?
    {
      NormalizePrivacy(event, now);
      var normalized := Normalize(event, now);
      if normalized.None? {
        return;
      }
      var uiEvent := normalized.value;
      var eventId := uiEventDao.Insert(uiEvent);
      var insertedEvent := uiEvent.(id := eventId);
      correlationEngine.CorrelateUiEvent(insertedEvent, now);
    }
  }
}

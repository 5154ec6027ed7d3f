/**
 * The Room entities of the four tables. Kotlin's default arguments become
 * default values of the datatype constructors, so `SensorEvent(timestamp := t,
 * sensorType := ty, values := v)` builds the same record as the Kotlin call
 * with those three named arguments. Every `id` defaults to 0, which Room reads
 * as "not assigned yet"; the table assigns one on insert.
 */
module Entities {
  import opened Wrappers

  /**
   * The `values` column of a sensor row is JSON text written by Gson; the model
   * keeps the shape of that text instead of its characters.
   */
  datatype Payload =
    | FloatArray(floats: seq<real>)            // a JSON array of numbers, as written for motion and light sensors
    | JsonObject(fields: seq<(string, real)>)  // a JSON object, as written for LOCATION rows
    | JsonNull                                 // the JSON literal null
    | Malformed(text: string)                  // text that does not parse as JSON

  /**
   * Decoding the column as a float array and keeping the result only when it is
   * not null: a JSON array yields its numbers; an object or unparsable text makes
   * the decoder throw, and null decodes to null, so all three yield nothing.
   */
  function Decode(p: Payload): Option<seq<real>> {
    match p
    case FloatArray(vs) => Some(vs)
    case _ => None
  }

  /** A row of `sensor_events`. */
  datatype SensorEvent = SensorEvent(
    id: int := 0,
    timestamp: int,
    sensorType: string,
    values: Payload,
    accuracy: int := 0)

  /** A row of `ui_events`. */
  datatype UiEvent = UiEvent(
    id: int := 0,
    timestamp: int,
    packageName: string,
    eventType: string,
    className: Option<string> := None,
    contentDescription: Option<string> := None,
    viewIdResourceName: Option<string> := None,
    text: Option<string> := None)

  /**
   * The statistics a correlation stores. The source keeps them as a JSON object
   * with the same field names; `meanSquare` stands for `rms`, which is its square root.
   */
  datatype Summary = Summary(
    sensorTypeCount: map<string, nat>,
    totalSamples: nat,
    mean: real,
    variance: real,
    meanSquare: real,
    minValue: real,
    maxValue: real)

  /** A row of `correlation_results`. `createdAt` defaults to the wall clock in the source,
      so here it is always given. */
  datatype CorrelationResult = CorrelationResult(
    id: int := 0,
    timestamp: int,
    uiEventId: int,
    sensorEventCount: nat,
    correlationWindowMs: int := 500,
    sensorDataSummary: Summary,
    createdAt: int)

  /** A row of `consent_receipts`. */
  datatype ConsentReceipt = ConsentReceipt(
    id: int := 0,
    permissionName: string,
    purpose: string,
    granted: bool,
    timestamp: int,
    revokedAt: Option<int> := None)

  /** The defaults of the four entities: no id assigned, accuracy 0, every optional UI field
      null, a ±500 ms correlation window, and a receipt not revoked. */
  lemma Defaults(t: int, ty: string, v: Payload, pkg: string, tag: string, u: int, n: nat, s: Summary, now: int,
                 perm: string, purpose: string, g: bool)
    ensures var e := SensorEvent(timestamp := t, sensorType := ty, values := v);
      e.id == 0 && e.accuracy == 0
    ensures var e := UiEvent(timestamp := t, packageName := pkg, eventType := tag);
      e.id == 0 && e.className.None? && e.contentDescription.None? && e.viewIdResourceName.None? && e.text.None?
    ensures var c := CorrelationResult(timestamp := t, uiEventId := u, sensorEventCount := n,
                                       sensorDataSummary := s, createdAt := now);
      c.id == 0 && c.correlationWindowMs == 500
    ensures var r := ConsentReceipt(permissionName := perm, purpose := purpose, granted := g, timestamp := t);
      r.id == 0 && r.revokedAt.None?
  {
  }
}

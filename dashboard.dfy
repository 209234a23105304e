/** The dashboard page (apps/web/app/page.tsx): the fallback when a client call fails, and
    the decisions behind the three status cards and the warning line. Rendering is not
    modelled; a card is the record of what it is handed. */
module Dashboard {
  import opened Wrappers
  import opened NightscoutClient
  import Decimal

  /** What a `catch` clause can receive: an `Error` object, or any other thrown value. */
  datatype Thrown = ErrorInstance(message: string) | OtherValue

  /** The `tone` a card is given; a card given none renders as `Default`. */
  datatype Tone = Default | Success | Warning

  /** The text a card shows. `RoundedMgdl(v)` is "`Math.round(v)` mg/dL" and
      `MeasuredAt(t)` is "Measured at `formatTimestamp(t)`"; both formats are outside the model. */
  datatype CardText = Text(text: string) | RoundedMgdl(mgdl: real) | MeasuredAt(timestamp: string)

  datatype Card = Card(title: string, value: CardText, description: CardText, tone: Tone)

  /** What the page computes before rendering. */
  datatype DashboardView = DashboardView(
    fetchError: Option<string>,
    warning: Option<string>,
    entries: seq<GlucoseValue>,
    status: StatusSummary,
    glucose: Card,
    system: Card,
    trend: Card)

  const UnreachableMessage: string := "Unable to reach the Nightscout API"

  /** The status shown until both calls have succeeded. */
  const DefaultStatus: StatusSummary := StatusSummary("unknown", [])

  /** `error instanceof Error ? error.message : "Unable to reach the Nightscout API"` */
  function ErrorText(t: Thrown): (m: string)
    ensures t.ErrorInstance? ==> m == t.message
    ensures t.OtherValue? ==> m == UnreachableMessage
  {
    match t
    case ErrorInstance(message) => message
    case OtherValue => UnreachableMessage
  }

  /** The value `Promise.all` rejects with: the failing call's error, or, when both fail,
      the one that failed first (`entriesRejectsFirst`, a matter of timing). */
  function Rejection<A, B>(entriesCall: Result<A, Thrown>, statusCall: Result<B, Thrown>,
                           entriesRejectsFirst: bool): (t: Thrown)
    requires entriesCall.Err? || statusCall.Err?
    ensures statusCall.Ok? ==> t == entriesCall.error
    ensures entriesCall.Ok? ==> t == statusCall.error
    ensures entriesCall.Err? && statusCall.Err? ==>
              t == (if entriesRejectsFirst then entriesCall.error else statusCall.error)
  {
    if entriesCall.Err? && (statusCall.Ok? || entriesRejectsFirst) then entriesCall.error
    else statusCall.error
  }

  /** `entries.at(0)`: the newest entry, absent for an empty list. */
  function MostRecentEntry(entries: seq<GlucoseValue>): (e: Option<GlucoseValue>)
    ensures e.None? <==> entries == []
    ensures e.Some? ==> e.value == entries[0]
  {
    if entries == [] then None else Some(entries[0])
  }

  /** A reading in 70..180 mg/dL is a success; anything else, no reading included, a warning. */
  function GlucoseTone(latest: Option<GlucoseValue>): (t: Tone)
    ensures t == Success <==> latest.Some? && 70.0 <= latest.value.mgdl <= 180.0
    ensures t != Success ==> t == Warning
  {
    if latest.Some? && latest.value.mgdl >= 70.0 && latest.value.mgdl <= 180.0 then Success else Warning
  }

  /** The "Latest glucose" card. */
  function GlucoseCard(latest: Option<GlucoseValue>): (c: Card)
    ensures c.title == "Latest glucose"
    ensures latest.None? ==> c.value == Text("No data") && c.description == Text("Waiting for first reading")
    ensures latest.Some? ==> c.value == RoundedMgdl(latest.value.mgdl) && c.description == MeasuredAt(latest.value.measuredAt)
    ensures c.tone == Success <==> latest.Some? && 70.0 <= latest.value.mgdl <= 180.0
    ensures c.tone != Success ==> c.tone == Warning
  {
    Card("Latest glucose",
         if latest.Some? then RoundedMgdl(latest.value.mgdl) else Text("No data"),
         if latest.Some? then MeasuredAt(latest.value.measuredAt) else Text("Waiting for first reading"),
         GlucoseTone(latest))
  }

  /** "ok" is a success, "warn" a warning, every other state the default tone. */
  function SystemTone(state: string): (t: Tone)
    ensures state == "ok" <==> t == Success
    ensures state == "warn" <==> t == Warning
    ensures state != "ok" && state != "warn" <==> t == Default
  {
    if state == "ok" then Success else if state == "warn" then Warning else Default
  }

  /** The device count, pluralised; no devices has a sentence of its own. */
  function DeviceDescription(count: nat): (d: string)
    ensures count == 0 ==> d == "No device telemetry reported"
    ensures count == 1 ==> d == "1 connected device"
    ensures count > 1 ==> d == Decimal.FromNat(count) + " connected devices"
  {
    if count > 0 then
      Decimal.FromNat(count) + " connected device" + (if count == 1 then "" else "s")
    else
      "No device telemetry reported"
  }

  /** The "System state" card. */
  function SystemCard(status: StatusSummary): (c: Card)
    ensures c.title == "System state" && c.value == Text(status.state)
    ensures c.description == Text(DeviceDescription(|status.devices|))
    ensures c.tone == SystemTone(status.state)
  {
    Card("System state", Text(status.state), Text(DeviceDescription(|status.devices|)), SystemTone(status.state))
  }

  /** `mostRecentEntry?.direction ?? "Unknown"`: only a missing entry or a missing
      direction falls back, so an empty direction is shown as it is. */
  function TrendValue(latest: Option<GlucoseValue>): (v: string)
    ensures latest.Some? && latest.value.direction.Some? ==> v == latest.value.direction.value
    ensures latest.None? || latest.value.direction.None? ==> v == "Unknown"
  {
    if latest.Some? && latest.value.direction.Some? then latest.value.direction.value else "Unknown"
  }

  /** The "Last trend" card, which is given no tone. */
  function TrendCard(latest: Option<GlucoseValue>): (c: Card)
    ensures c.title == "Last trend" && c.value == Text(TrendValue(latest)) && c.tone == Default
    ensures c.description == Text("Arrow direction reflects the newest CGM entry")
  {
    Card("Last trend", Text(TrendValue(latest)), Text("Arrow direction reflects the newest CGM entry"), Default)
  }

  /** The warning line under the header: shown only for a non-empty error text, since an
      empty string is falsy. */
  function WarningBanner(fetchError: Option<string>): (w: Option<string>)
    ensures w.Some? <==> fetchError.Some? && fetchError.value != ""
    ensures w.Some? ==> w.value == fetchError.value + ". Showing the most recently cached values instead."
  {
    if fetchError.Some? && fetchError.value != "" then
      Some(fetchError.value + ". Showing the most recently cached values instead.")
    else
      None
  }

  /** `DashboardPage`: the two client calls are given as their outcomes. Both values are
      taken or neither is; on a failure the defaults stay and the error text is kept. */
  method DashboardPage(entriesCall: Result<seq<GlucoseValue>, Thrown>,
                       statusCall: Result<StatusSummary, Thrown>,
                       entriesRejectsFirst: bool) returns (view: DashboardView)
    ensures entriesCall.Ok? && statusCall.Ok? ==>
              view.entries == entriesCall.value && view.status == statusCall.value && view.fetchError == None
    ensures entriesCall.Err? || statusCall.Err? ==>
              && view.entries == [] && view.status == DefaultStatus
              && view.fetchError == Some(ErrorText(Rejection(entriesCall, statusCall, entriesRejectsFirst)))
    ensures view.warning == WarningBanner(view.fetchError)
    ensures view.glucose == GlucoseCard(MostRecentEntry(view.entries))
    ensures view.system == SystemCard(view.status)
    ensures view.trend == TrendCard(MostRecentEntry(view.entries))
  {
    var entries: seq<GlucoseValue> := [];
    var status := DefaultStatus;
    var fetchError: Option<string> := None;

    if entriesCall.Ok? && statusCall.Ok? {
      entries, status := entriesCall.value, statusCall.value;
    } else {
      fetchError := Some(ErrorText(Rejection(entriesCall, statusCall, entriesRejectsFirst)));
    }

    var mostRecentEntry := MostRecentEntry(entries);
    view := DashboardView(fetchError, WarningBanner(fetchError), entries, status,
                          GlucoseCard(mostRecentEntry), SystemCard(status), TrendCard(mostRecentEntry));
  }

  // ---------------------------------------------------------------------------
  // Properties of the decisions

  /** The sentence for no devices is said of no other count. */
  lemma NoDeviceSentenceOnlyForZero(count: nat)
    ensures DeviceDescription(count) == "No device telemetry reported" <==> count == 0
  {
  }

  /** The device sentence determines the device count. */
  lemma DeviceDescriptionInjective(m: nat, n: nat)
    requires DeviceDescription(m) == DeviceDescription(n)
    ensures m == n
  {
    NoDeviceSentenceOnlyForZero(m);
    NoDeviceSentenceOnlyForZero(n);
    if m > 0 && n > 0 {
      var dm, dn := Decimal.FromNat(m), Decimal.FromNat(n);
      var xm := " connected device" + (if m == 1 then "" else "s");
      var xn := " connected device" + (if n == 1 then "" else "s");
      assert DeviceDescription(m) == dm + xm && DeviceDescription(n) == dn + xn;
      Decimal.SplitAtFirstNonDigit(dm, xm, dn, xn);
      Decimal.FromNatInjective(m, n);
    }
  }
}

/** What the filters of a request mean for each row: how the rows of one request are made up of those of others. */
module AlertRequests {
  import opened Wrappers
  import opened AlertQueries

  /** Without an acknowledgement filter a row is wanted just if it is under the one filter that tells its state. */
  lemma AcknowledgedOrNot(areas: Option<seq<string>>, severity: Option<string>, row: Row, acknowledged: bool)
    ensures ServiceWants(areas, severity, Some(acknowledged), row)
         <==> ServiceWants(areas, severity, None, row) && row.acknowledged == acknowledged
    ensures areas.Some? ==>
              (BffWants(areas.value, severity, Some(acknowledged), row)
               <==> BffWants(areas.value, severity, None, row) && row.acknowledged == acknowledged)
  {
  }

  /** Under a severity filter a row is wanted just if it has that severity; the empty text filters nothing in the BFF. */
  lemma OneSeverity(areas: Option<seq<string>>, severity: string, acknowledged: Option<bool>, row: Row)
    ensures ServiceWants(areas, Some(severity), acknowledged, row)
         <==> ServiceWants(areas, None, acknowledged, row) && row.severity == severity
    ensures areas.Some? ==>
              (BffWants(areas.value, Some(severity), acknowledged, row)
               <==> BffWants(areas.value, None, acknowledged, row) && (severity == "" || row.severity == severity))
  {
  }

  /** The rows of several areas are those of each; the empty list is all of them for the alert service, none for the BFF. */
  lemma AreasAddUp(a: seq<string>, b: seq<string>, severity: Option<string>, acknowledged: Option<bool>, row: Row)
    ensures BffWants(a + b, severity, acknowledged, row)
         <==> BffWants(a, severity, acknowledged, row) || BffWants(b, severity, acknowledged, row)
    ensures BffWants([row.area], None, None, row) && !BffWants([], severity, acknowledged, row)
    ensures a != [] && b != [] ==>
              (ServiceWants(Some(a + b), severity, acknowledged, row)
               <==> ServiceWants(Some(a), severity, acknowledged, row) || ServiceWants(Some(b), severity, acknowledged, row))
    ensures ServiceWants(Some([row.area]), None, None, row)
    ensures ServiceWants(Some([]), severity, acknowledged, row) <==> ServiceWants(None, severity, acknowledged, row)
    ensures ServiceWants(None, None, None, row)
  {
  }

  /** Two neighbouring time windows share no row and make up the window over both; a window holds both its ends. */
  lemma WindowsAddUp(areas: seq<string>, start: int, middle: int, end: int, row: Row)
    requires start <= middle < end
    ensures var first, second := TelemetryWants(areas, Some(start), Some(middle), row),
                                 TelemetryWants(areas, Some(middle + 1), Some(end), row);
            && (TelemetryWants(areas, Some(start), Some(end), row) <==> first || second) && !(first && second)
    ensures TelemetryWants([row.area], Some(row.ts), Some(row.ts), row) && TelemetryWants([row.area], None, None, row)
    ensures TelemetryWants(areas, Some(start), None, row) && TelemetryWants(areas, None, Some(end), row)
         <==> TelemetryWants(areas, Some(start), Some(end), row)
    ensures !(TelemetryWants(areas, Some(middle + 1), None, row) && TelemetryWants(areas, None, Some(middle), row))
  {
  }
}

/** Types shared by the services: optional values and the alert envelope. */
module Wrappers {
  datatype Option<+T> = None | Some(value: T)

  function Min(x: int, y: int): int {
    if x < y then x else y
  }

  function Max(x: int, y: int): int {
    if x < y then y else x
  }

  /** No value occurs twice: what the keys of a Python dictionary guarantee. */
  ghost predicate Distinct<T>(s: seq<T>) {
    forall i, j :: 0 <= i < j < |s| ==> s[i] != s[j]
  }

  /** Increasing positions of a list of the given length. */
  ghost predicate Increasing(at: seq<nat>, length: nat) {
    && (forall i | 0 <= i < |at| :: at[i] < length)
    && forall i, j | 0 <= i < j < |at| :: at[i] < at[j]
  }
}

module Alerts {
  import opened Wrappers

  datatype Kind = Threshold | Malfunction | Priority
  datatype Severity = Low | Medium | High
  datatype Trend = Rising | Falling | Stable

  datatype Context = Context(
    redundancyRemaining: Option<int>,
    trend: Option<Trend>,
    originatingAlertId: Option<nat>)

  /** The alert envelope. Identifiers, random UUIDs in the program, are numbers drawn from a supply. */
  datatype Alert = Alert(
    id: nat,
    kind: Kind,
    severity: Severity,
    area: string,
    sensor: string,
    parameter: string,
    value: Option<real>,
    threshold: Option<real>,
    tsEvent: string,
    context: Context)
}

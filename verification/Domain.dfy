/**
 * The entities of the service: alerts as they arrive from the webhook, and the
 * incidents they are grouped into. Times are integers and label maps are values.
 */
module Domain {
  import opened Wrappers

  type Time = int
  type Labels = map<string, string>

  /** Reading a label that is absent yields the empty string. */
  function Label(labels: Labels, name: string): string {
    if name in labels then labels[name] else ""
  }

  datatype Alert = Alert(
    fingerprint: string,
    labels: Labels,
    annotations: Labels,
    startsAt: Time,
    endsAt: Option<Time>)

  datatype IncidentState = Open | Investigating | Mitigating | Monitoring | Resolved

  datatype TopologyNode = TopologyNode(id: string, kind: string)
  datatype TopologyEdge = TopologyEdge(from: string, to: string, kind: string)
  datatype TopologySlice = TopologySlice(nodes: seq<TopologyNode>, edges: seq<TopologyEdge>)

  datatype Incident = Incident(
    id: string,
    service: string,
    cluster: string,
    environment: string,
    severity: string,
    alerts: seq<Alert>,
    key: string,
    version: int,
    state: IncidentState,
    createdAt: Time,
    updatedAt: Time,
    firstAlertAt: Time,
    lastAlertAt: Time,
    topology: Option<TopologySlice>)
}

/**
 * What the rows of the stores hold (internal/store/models.go). Payloads are values instead of JSON text, and instants
 * are integers, 0 being the zero time.
 */
module StorePayloads {
  import opened StatsBuckets

  datatype Client = Client(key: string, clientType: string, name: string, group: string,
                           firstSeen: int, lastSeen: int, lastIP: string, hidden: bool)
  datatype Session = Session(token: string, username: string, expiresAt: int)

  type Counters = map<string, nat>

  datatype Value =
    | ClientValue(client: Client)
    | SessionValue(session: Session)
    | TrueValue
    | StatsValue(row: StatsRow)
    | VersionValue(version: int)
    | OtherValue(raw: string)
}

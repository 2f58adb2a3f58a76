/**
 * The records the remote backend hands to the client, as declared by its
 * generated bindings. Identifiers and timestamps are `bigint` there; the
 * backend assigns identifiers (naturals) and timestamps (nanoseconds since
 * the epoch).
 */
module Backend {
  import opened Wrappers

  /** A caller identity; only compared and carried along by the client. */
  datatype Principal = Principal(text: string)

  /** An uploaded file, known to the client only through its handle. */
  datatype ExternalBlob = ExternalBlob(directUrl: string)

  type Timestamp = int

  datatype IncidentStatus = Closed | Open | ClosureRequested {
    /** The enum's string value, which the incident summary prints. */
    function Text(): (r: string)
      ensures r != []
    {
      match this
      case Closed => "closed"
      case Open => "open"
      case ClosureRequested => "closureRequested"
    }
  }

  datatype Incident = Incident(
    id: nat,
    status: IncidentStatus,
    title: string,
    criminalActivityReportNumber: string,
    description: string,
    author: Principal,
    timestamp: Timestamp,
    evidenceIds: seq<nat>)

  /** The six evidence kinds; only `Other` carries a payload, its free-text label. */
  datatype EvidenceType = Audio | Other(other: string) | Video | Document | Photo | Screenshot

  /** Every field may be absent. */
  datatype VictimSurvivorInfo = VictimSurvivorInfo(
    age: Option<int>,
    contactInfo: Option<string>,
    additionalNotes: Option<string>,
    name: Option<string>,
    emergencyContact: Option<string>,
    gender: Option<string>)

  datatype EvidenceFile = EvidenceFile(
    id: nat,
    title: string,
    file: ExternalBlob,
    description: string,
    author: Principal,
    timestamp: Timestamp,
    evidenceType: EvidenceType)

  datatype PoliceDepartment = PoliceDepartment(
    id: nat,
    name: string,
    website: string,
    isVerified: bool,
    addedBy: Principal,
    address: string,
    phone: string)

  /** The user's tone preference from the settings. */
  datatype ToneStyle = AssertiveWomen | DirectSafety | Balanced {
    /** The enum's string value. */
    function Text(): (r: string)
      ensures r != []
    {
      match this
      case AssertiveWomen => "assertiveWomen"
      case DirectSafety => "directSafety"
      case Balanced => "balanced"
    }
  }

  function IncidentTime(i: Incident): Timestamp {
    i.timestamp
  }

  function EvidenceTime(e: EvidenceFile): Timestamp {
    e.timestamp
  }
}

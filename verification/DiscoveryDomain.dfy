/** The values the discovery scheduler exchanges with its backend and its clients. */
module DiscoveryDomain {

  datatype Option<+T> = None | Some(value: T)

  datatype Result<+T> = Ok(value: T) | Err(error: ErrorCode)

  datatype ErrorCode =
    | InvalidArgument
    | IdentityMismatch
    | NotFound
    | PlatformError
    | Internal

  /** A field that may not have been observed. `Known([])` and `Unknown` are different facts. */
  datatype FieldValue<+T> =
    | Known(value: T)
    | Unknown
    | AccessLimited(reason: Option<string>)
    | NotSupported

  /** Evidence of project discovery: `Missing` is a completed lookup that found nothing. */
  datatype Evidence<+T> =
    | Proven(value: T)
    | Missing
    | Undetermined
    | Limited(reason: Option<string>)
    | Unsupported

  datatype ProcessKey = ProcessKey(bootId: string, pid: nat, nativeStartTime: string)

  datatype PortProtocol = Tcp | Udp

  datatype AddressFamily = Ipv4 | Ipv6

  datatype PortState = TcpListen | TcpEstablished | OtherState

  datatype Confidence = Exact | Shared | UnknownOwner

  datatype PortBinding = PortBinding(
    protocol: PortProtocol,
    family: AddressFamily,
    address: string,
    port: nat,
    state: FieldValue<PortState>,
    owner: Option<ProcessKey>,
    confidence: Confidence,
    observedAt: string)

  /** Identity of a binding: its observation metadata is not part of it. */
  datatype PortKey = PortKey(
    protocol: PortProtocol,
    family: AddressFamily,
    address: string,
    port: nat,
    owner: Option<ProcessKey>)

  function KeyOf(binding: PortBinding): PortKey {
    PortKey(binding.protocol, binding.family, binding.address, binding.port, binding.owner)
  }

  datatype Ownership = Managed | External

  datatype Category = Development | Runtime | Excluded | Unclassified

  datatype Override = Include | Exclude | AssignProject(project: string)

  datatype Reason = Reason(code: string, score: int, ruleId: Option<string>)

  datatype Classification = Classification(
    score: int,
    version: nat,
    category: Category,
    reasons: seq<Reason>,
    userOverride: Option<Override>,
    isDevelopment: bool)

  datatype Association = Association(projectId: string, registeredRoot: string)

  datatype Feature = Feature(markerId: string, markerPath: string, detectedRoot: string)

  /** The fields of a record that no handler interprets. */
  datatype Observation = Observation(
    parent: FieldValue<Option<ProcessKey>>,
    ownerUser: FieldValue<string>,
    cpuPercent: FieldValue<int>,
    memoryBytes: FieldValue<nat>,
    startedAt: FieldValue<string>,
    status: FieldValue<nat>)

  datatype ProcessRecord = ProcessRecord(
    key: ProcessKey,
    observation: Observation,
    executableName: FieldValue<string>,
    executablePath: FieldValue<string>,
    commandLine: FieldValue<string>,
    workingDirectory: FieldValue<string>,
    accessLevel: nat,
    ownership: Ownership,
    managedRunId: Option<string>,
    association: Evidence<Association>,
    features: Evidence<seq<Feature>>,
    projectId: Option<string>,
    classification: Classification,
    portBindings: FieldValue<seq<PortBinding>>,
    lastSeenRevision: nat)

  // ----- Equality up to observation times -----

  function WithoutTime(binding: PortBinding): PortBinding {
    binding.(observedAt := "")
  }

  function WithoutTimes(value: FieldValue<seq<PortBinding>>): FieldValue<seq<PortBinding>> {
    match value
    case Known(bindings) =>
      Known(seq(|bindings|, i requires 0 <= i < |bindings| => WithoutTime(bindings[i])))
    case other => other
  }

  predicate SamePort(left: PortBinding, right: PortBinding) {
    WithoutTime(left) == WithoutTime(right)
  }

  predicate SamePorts(left: FieldValue<seq<PortBinding>>, right: FieldValue<seq<PortBinding>>) {
    WithoutTimes(left) == WithoutTimes(right)
  }

  /** Records are semantically equal up to observation times and the revision. */
  predicate SameRecord(left: ProcessRecord, right: ProcessRecord) {
    left.(lastSeenRevision := 0, portBindings := WithoutTimes(left.portBindings))
    == right.(lastSeenRevision := 0, portBindings := WithoutTimes(right.portBindings))
  }

  predicate ClassificationInputsDiffer(left: ProcessRecord, right: ProcessRecord) {
    || left.ownership != right.ownership
    || left.executableName != right.executableName
    || left.executablePath != right.executablePath
    || left.commandLine != right.commandLine
    || left.workingDirectory != right.workingDirectory
    || !SamePorts(left.portBindings, right.portBindings)
  }
}

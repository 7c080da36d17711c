/** The normalized event and the policy, as far as attribution and redaction touch them. */
module Events {
  import opened Common

  datatype EventType = Connection | Dns | Navigation | Process | Status | Error
  datatype EventSource = Ebpf | Pcap | Browser

  datatype ProcessInfo = ProcessInfo(pid: nat, name: string)

  datatype NetworkInfo = NetworkInfo(
    localAddress: string, localPort: nat, remoteAddress: string, remotePort: nat, dnsQueryName: string)

  datatype BrowserInfo = BrowserInfo(
    tabId: nat, windowId: nat, url: string, title: string, navigationId: string, frameId: nat)

  datatype RedactionKind = QueryString | Fragment | HostnameHash | HostnameMask | DomainExcluded

  datatype PrivacyInfo = PrivacyInfo(redacted: bool, metadataOnly: bool, redactions: set<RedactionKind>)

  /** Timestamps are clock ticks; confidence is in hundredths. */
  datatype Event = Event(
    id: string, eventType: EventType, source: EventSource, timestamp: int, confidence: int,
    process: Option<ProcessInfo>, network: Option<NetworkInfo>, browser: Option<BrowserInfo>,
    privacy: PrivacyInfo)

  datatype RedactionMode = HostnameOnly | QueryStringRemoval | FullHostname | DomainHash | DomainMask

  datatype Policy = Policy(
    mode: RedactionMode, stripQueryString: bool, stripFragment: bool, sensitiveDomains: seq<string>,
    persistenceEnabled: bool, retention: int, captureInterfaces: seq<string>, pcapFilter: string)
}

/**
 * One flow-log record (`LogEntry`), its builder, the protocol catalogue that turns a
 * protocol number into a lowercase name, and the two sentinel predicates.
 */
module LogEntries {
  import opened Wrappers
  import opened JavaLang

  /** The value a numeric field holds when the log line had a dash ("absent"). */
  const Sentinel: int := -1

  /** A parsed, immutable flow-log record. The fields are the record's getters. */
  datatype LogEntry = LogEntry(
    version: Int32,
    accountId: Int64,
    interfaceId: string,
    sourceIp: string,
    destinationIp: string,
    sourcePort: Int32,
    destinationPort: Int32,
    protocol: Int32,
    packets: Int32,
    bytes: Int64,
    startTime: Int64,
    endTime: Int64,
    action: string,
    logStatus: string)
  {
    /** The byte count is present (not the dash sentinel). */
    predicate HasValidBytes()
      ensures HasValidBytes() <==> bytes != Sentinel
    {
      bytes != Sentinel
    }

    /** The start time is present (not the dash sentinel). */
    predicate HasValidStartTime()
      ensures HasValidStartTime() <==> startTime != Sentinel
    {
      startTime != Sentinel
    }

    /** The lowercase canonical name of this record's protocol. */
    function ProtocolAsString(): (name: string)
      ensures NoUpper(name)
    {
      ProtocolName(protocol)
    }
  }

  /** The record under construction. Numeric fields start at Java's default 0 except bytes
      and start time, which start at the sentinel; string fields start empty. */
  datatype Builder = Builder(
    version: Int32,
    accountId: Int64,
    interfaceId: string,
    sourceIp: string,
    destinationIp: string,
    sourcePort: Int32,
    destinationPort: Int32,
    protocol: Int32,
    packets: Int32,
    bytes: Int64,
    startTime: Int64,
    endTime: Int64,
    action: string,
    logStatus: string)
  {
    // Each setter sets its own field and leaves the other thirteen as they were.

    function WithVersion(v: Int32): (b: Builder)
      ensures b.version == v && b.(version := version) == this
    {
      this.(version := v)
    }

    function WithAccountId(v: Int64): (b: Builder)
      ensures b.accountId == v && b.(accountId := accountId) == this
    {
      this.(accountId := v)
    }

    function WithInterfaceId(v: string): (b: Builder)
      ensures b.interfaceId == v && b.(interfaceId := interfaceId) == this
    {
      this.(interfaceId := v)
    }

    function WithSourceIp(v: string): (b: Builder)
      ensures b.sourceIp == v && b.(sourceIp := sourceIp) == this
    {
      this.(sourceIp := v)
    }

    function WithDestinationIp(v: string): (b: Builder)
      ensures b.destinationIp == v && b.(destinationIp := destinationIp) == this
    {
      this.(destinationIp := v)
    }

    function WithSourcePort(v: Int32): (b: Builder)
      ensures b.sourcePort == v && b.(sourcePort := sourcePort) == this
    {
      this.(sourcePort := v)
    }

    function WithDestinationPort(v: Int32): (b: Builder)
      ensures b.destinationPort == v && b.(destinationPort := destinationPort) == this
    {
      this.(destinationPort := v)
    }

    function WithProtocol(v: Int32): (b: Builder)
      ensures b.protocol == v && b.(protocol := protocol) == this
    {
      this.(protocol := v)
    }

    function WithPackets(v: Int32): (b: Builder)
      ensures b.packets == v && b.(packets := packets) == this
    {
      this.(packets := v)
    }

    function WithBytes(v: Int64): (b: Builder)
      ensures b.bytes == v && b.(bytes := bytes) == this
    {
      this.(bytes := v)
    }

    function WithStartTime(v: Int64): (b: Builder)
      ensures b.startTime == v && b.(startTime := startTime) == this
    {
      this.(startTime := v)
    }

    function WithEndTime(v: Int64): (b: Builder)
      ensures b.endTime == v && b.(endTime := endTime) == this
    {
      this.(endTime := v)
    }

    function WithAction(v: string): (b: Builder)
      ensures b.action == v && b.(action := action) == this
    {
      this.(action := v)
    }

    function WithLogStatus(v: string): (b: Builder)
      ensures b.logStatus == v && b.(logStatus := logStatus) == this
    {
      this.(logStatus := v)
    }

    /** Freezes the builder into a record that holds every value set on it. */
    function Build(): (e: LogEntry)
      ensures && e.version == version && e.accountId == accountId && e.interfaceId == interfaceId
              && e.sourceIp == sourceIp && e.destinationIp == destinationIp
              && e.sourcePort == sourcePort && e.destinationPort == destinationPort
              && e.protocol == protocol && e.packets == packets && e.bytes == bytes
              && e.startTime == startTime && e.endTime == endTime
              && e.action == action && e.logStatus == logStatus
    {
      LogEntry(version, accountId, interfaceId, sourceIp, destinationIp, sourcePort,
               destinationPort, protocol, packets, bytes, startTime, endTime, action, logStatus)
    }
  }

  /** `new LogEntry.Builder()`. */
  function NewBuilder(): (b: Builder)
    ensures b.bytes == Sentinel && b.startTime == Sentinel
    ensures && b.version == 0 && b.accountId == 0 && b.sourcePort == 0 && b.destinationPort == 0
            && b.protocol == 0 && b.packets == 0 && b.endTime == 0
    ensures b.interfaceId == b.sourceIp == b.destinationIp == b.action == b.logStatus == ""
  {
    Builder(0, 0, "", "", "", 0, 0, 0, 0, Sentinel, Sentinel, 0, "", "")
  }

  /** Setting every field and then building yields exactly the values set, whatever the
      builder held before: no field of the record is left over from earlier state. */
  lemma BuildCopiesEverySetting(b: Builder, version: Int32, accountId: Int64, interfaceId: string,
                                sourceIp: string, destinationIp: string, sourcePort: Int32,
                                destinationPort: Int32, protocol: Int32, packets: Int32,
                                bytes: Int64, startTime: Int64, endTime: Int64,
                                action: string, logStatus: string)
    ensures b.WithVersion(version).WithAccountId(accountId).WithInterfaceId(interfaceId)
             .WithSourceIp(sourceIp).WithDestinationIp(destinationIp).WithSourcePort(sourcePort)
             .WithDestinationPort(destinationPort).WithProtocol(protocol).WithPackets(packets)
             .WithBytes(bytes).WithStartTime(startTime).WithEndTime(endTime)
             .WithAction(action).WithLogStatus(logStatus).Build()
          == LogEntry(version, accountId, interfaceId, sourceIp, destinationIp, sourcePort,
                      destinationPort, protocol, packets, bytes, startTime, endTime, action, logStatus)
  {
  }

  /** A fresh builder whose bytes and start time are never set builds a record in which
      both are the sentinel, so neither validity predicate holds. */
  lemma BuilderDefaults(version: Int32, accountId: Int64, interfaceId: string,
                        sourceIp: string, destinationIp: string, sourcePort: Int32,
                        destinationPort: Int32, protocol: Int32, packets: Int32,
                        endTime: Int64, action: string, logStatus: string)
    ensures var e := NewBuilder().WithVersion(version).WithAccountId(accountId)
             .WithInterfaceId(interfaceId).WithSourceIp(sourceIp).WithDestinationIp(destinationIp)
             .WithSourcePort(sourcePort).WithDestinationPort(destinationPort).WithProtocol(protocol)
             .WithPackets(packets).WithEndTime(endTime).WithAction(action).WithLogStatus(logStatus)
             .Build();
      e.bytes == Sentinel && e.startTime == Sentinel && !e.HasValidBytes() && !e.HasValidStartTime()
  {
  }

  // ---------------------------------------------------------------------------
  // Protocol catalogue

  /** The catalogue's spelling of the well-known IANA protocol numbers, before lowercasing. */
  function CatalogName(protocol: int): (r: Option<string>)
    ensures r.Some? ==> 0 <= protocol <= 142 && r.value != ""
  {
    match protocol
    case 0 => Some("HOPOPT")
    case 1 => Some("ICMP")
    case 2 => Some("IGMP")
    case 3 => Some("GGP")
    case 4 => Some("IPv4")
    case 5 => Some("ST")
    case 6 => Some("TCP")
    case 17 => Some("UDP")
    case 18 => Some("MUX")
    case 27 => Some("RDP")
    case 28 => Some("IRTP")
    case 29 => Some("ISO-TP4")
    case 30 => Some("NETBLT")
    case 31 => Some("MFE-NSP")
    case 32 => Some("MERIT-INP")
    case 33 => Some("DCCP")
    case 34 => Some("3PC")
    case 35 => Some("IDPR")
    case 36 => Some("XTP")
    case 37 => Some("DDP")
    case 38 => Some("IDPR-CMTP")
    case 39 => Some("TP++")
    case 40 => Some("IL")
    case 41 => Some("IPv6")
    case 42 => Some("SDRP")
    case 43 => Some("IPv6-Route")
    case 44 => Some("IPv6-Frag")
    case 45 => Some("IDRP")
    case 46 => Some("RSVP")
    case 47 => Some("GRE")
    case 48 => Some("DSR")
    case 49 => Some("BNA")
    case 50 => Some("ESP")
    case 51 => Some("AH")
    case 88 => Some("EIGRP")
    case 89 => Some("OSPF")
    case 103 => Some("PIM")
    case 108 => Some("IPComp")
    case 112 => Some("VRRP")
    case 115 => Some("L2TP")
    case 124 => Some("ISIS")
    case 132 => Some("SCTP")
    case 133 => Some("FC")
    case 135 => Some("Mobility-Header")
    case 136 => Some("UDPLite")
    case 137 => Some("MPLS-in-IP")
    case 138 => Some("manet")
    case 139 => Some("HIP")
    case 140 => Some("Shim6")
    case 141 => Some("WESP")
    case 142 => Some("ROHC")
    case _ => None
  }

  /** `getProtocolAsString`: the catalogue name, or the decimal number for numbers outside
      the catalogue, lowercased. Defined for every number. */
  function ProtocolName(protocol: int): (name: string)
    ensures NoUpper(name)
    ensures CatalogName(protocol).Some? ==> name == ToLower(CatalogName(protocol).value)
  {
    ToLower(match CatalogName(protocol)
            case Some(n) => n
            case None => IntToString(protocol))
  }

  /** A number outside the catalogue is named by its own decimal string, which reads back
      as the number. */
  lemma UnknownProtocolName(protocol: int)
    requires CatalogName(protocol).None?
    ensures ProtocolName(protocol) == IntToString(protocol)
    ensures ParseDecimal(ProtocolName(protocol)) == Some(protocol)
  {
    IntToStringPlain(protocol);
    ToLowerNoUpper(IntToString(protocol));
    ParseDecimalOfIntToString(protocol);
  }

  /** The names that the lookup table is most often written against. */
  lemma ProtocolNameExamples()
    ensures ProtocolName(6) == "tcp" && ProtocolName(17) == "udp" && ProtocolName(1) == "icmp"
    ensures ProtocolName(4) == "ipv4"
  {
    assert ToLower("TCP") == "tcp";
    assert ToLower("UDP") == "udp";
    assert ToLower("ICMP") == "icmp";
    assert ToLower("IPv4") == "ipv4";
  }
}

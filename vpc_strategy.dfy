/**
 * The default VPC flow-log line format: 14 whitespace-separated fields
 *   version accountId interfaceId srcIp dstIp srcPort dstPort protocol packets bytes start end action logStatus
 * validated one by one into a `LogEntry`. A dash marks an absent value where the format
 * allows one. Any failure rejects the whole line; no partial record is ever produced.
 */
module VpcStrategy {
  import opened Wrappers
  import opened JavaLang
  import opened LogEntries

  const ExpectedFields: nat := 14
  const SupportedVersion: int := 2
  const MaxPort: int := 65535
  /** The token that marks an absent value in a log line. */
  const Dash: string := "-"
  /** What an absent IP address is stored as. */
  const AbsentIp: string := "-1"

  /** Why one field was refused. */
  datatype FieldError =
    | NotANumber(value: string)
    | UnsupportedVersion(version: Int32)
    | InvalidIpAddress(value: string)
    | InvalidPort(port: Int32)
    | InvalidProtocol(protocol: Int32)

  /** Why a line was refused: the wrong number of fields, or a field that failed, reported
      for the line as a whole. */
  datatype ParseError =
    | FieldCountMismatch(expected: nat, actual: nat, line: string)
    | InvalidLine(line: string, cause: FieldError)
  {
    function Line(): string {
      match this
      case FieldCountMismatch(_, _, line) => line
      case InvalidLine(line, _) => line
    }
  }

  /** The fields of a line: trimmed, then split on runs of whitespace. A blank line has
      one empty field; otherwise every field is a non-empty run of non-space characters. */
  function Fields(line: string): (f: seq<string>)
    ensures Trim(line) == [] ==> f == [""]
    ensures Trim(line) != [] ==> f != [] && forall i :: 0 <= i < |f| ==> f[i] != "" && NoRegexSpace(f[i])
  {
    var t := Trim(line);
    if t == [] then SplitOnSpaceRuns(t)
    else
      SplitTrimmedShape(t);
      SplitOnSpaceRuns(t)
  }

  // ---------------------------------------------------------------------------
  // Field parsers

  function ParseIntField(value: string): (r: Result<Int32, FieldError>)
    ensures r.Success? <==> ParseInt(value).Some?
    ensures r.Success? ==> ParseDecimal(value) == Some(r.value as int)
    ensures r.Failure? ==> r.error == NotANumber(value)
  {
    match ParseInt(value)
    case Some(v) => Success(v)
    case None => Failure(NotANumber(value))
  }

  /** Only version 2 is accepted; another integer is an unsupported version. */
  function ParseVersion(value: string): (r: Result<Int32, FieldError>)
    ensures r.Success? ==> r.value == SupportedVersion
    ensures ParseInt(value).None? ==> r == Failure(NotANumber(value))
    ensures r.Success? <==> ParseInt(value) == Some(SupportedVersion)
    ensures ParseInt(value).Some? && ParseInt(value).value != SupportedVersion ==>
              r == Failure(UnsupportedVersion(ParseInt(value).value))
  {
    var version :- ParseIntField(value);
    if version != SupportedVersion then Failure(UnsupportedVersion(version)) else Success(version)
  }

  /** A dash is the absent address "-1"; anything else must split into exactly four
      dot-separated segments (trailing empty segments not counted) and is kept as written. */
  function ParseIpAddress(value: string): (r: Result<string, FieldError>)
    ensures value == Dash ==> r == Success(AbsentIp)
    ensures value != Dash ==> (r.Success? <==> |Split(value, '.')| == 4)
    ensures value != Dash && r.Success? ==> r.value == value
    ensures r.Failure? ==> r.error == InvalidIpAddress(value)
  {
    if value == Dash then Success(AbsentIp)
    else if |Split(value, '.')| != 4 then Failure(InvalidIpAddress(value))
    else Success(value)
  }

  /** A dash is the sentinel; otherwise an integer within [0, 65535]. */
  function ParseSrcPort(value: string): (r: Result<Int32, FieldError>)
    ensures value == Dash ==> r == Success(Sentinel)
    ensures r.Success? ==> r.value == Sentinel || 0 <= r.value <= MaxPort
    ensures value != Dash ==>
              (r.Success? <==> ParseInt(value).Some? && 0 <= ParseInt(value).value <= MaxPort)
    ensures value != Dash && r.Success? ==> ParseDecimal(value) == Some(r.value as int)
    ensures value != Dash && ParseInt(value).None? ==> r == Failure(NotANumber(value))
    ensures value != Dash && ParseInt(value).Some? && !(0 <= ParseInt(value).value <= MaxPort) ==>
              r == Failure(InvalidPort(ParseInt(value).value))
  {
    if value == Dash then Success(Sentinel)
    else
      var port :- ParseIntField(value);
      if port < 0 || port > MaxPort then Failure(InvalidPort(port)) else Success(port)
  }

  /** An integer within [0, 65535]; there is no sentinel, so a dash is refused. */
  function ParseDesPort(value: string): (r: Result<Int32, FieldError>)
    ensures r.Success? ==> 0 <= r.value <= MaxPort
    ensures r.Success? <==> ParseInt(value).Some? && 0 <= ParseInt(value).value <= MaxPort
    ensures r.Success? ==> ParseDecimal(value) == Some(r.value as int)
    ensures value == Dash ==> r.Failure?
    ensures ParseInt(value).None? ==> r == Failure(NotANumber(value))
    ensures ParseInt(value).Some? && !(0 <= ParseInt(value).value <= MaxPort) ==>
              r == Failure(InvalidPort(ParseInt(value).value))
  {
    var port :- ParseIntField(value);
    if port < 0 || port > MaxPort then Failure(InvalidPort(port)) else Success(port)
  }

  /** A non-negative integer; there is no sentinel. */
  function ParseProtocol(value: string): (r: Result<Int32, FieldError>)
    ensures r.Success? ==> r.value >= 0
    ensures r.Success? <==> ParseInt(value).Some? && ParseInt(value).value >= 0
    ensures r.Success? ==> ParseDecimal(value) == Some(r.value as int)
    ensures value == Dash ==> r.Failure?
    ensures ParseInt(value).None? ==> r == Failure(NotANumber(value))
    ensures ParseInt(value).Some? && ParseInt(value).value < 0 ==>
              r == Failure(InvalidProtocol(ParseInt(value).value))
  {
    var protocol :- ParseIntField(value);
    if protocol < 0 then Failure(InvalidProtocol(protocol)) else Success(protocol)
  }

  /** A dash is the sentinel; otherwise any `int`, taken verbatim. */
  function ParseInteger(value: string): (r: Result<Int32, FieldError>)
    ensures value == Dash ==> r == Success(Sentinel)
    ensures value != Dash ==> (r.Success? <==> ParseInt(value).Some?)
    ensures value != Dash && r.Success? ==> ParseDecimal(value) == Some(r.value as int)
    ensures r.Failure? ==> r.error == NotANumber(value)
  {
    if value == Dash then Success(Sentinel) else ParseIntField(value)
  }

  /** A dash is the sentinel; otherwise any `long`, taken verbatim. */
  function ParseLongField(value: string): (r: Result<Int64, FieldError>)
    ensures value == Dash ==> r == Success(Sentinel)
    ensures value != Dash ==> (r.Success? <==> ParseLong(value).Some?)
    ensures value != Dash && r.Success? ==> ParseDecimal(value) == Some(r.value as int)
    ensures r.Failure? ==> r.error == NotANumber(value)
  {
    if value == Dash then Success(Sentinel)
    else
      match ParseLong(value)
      case Some(v) => Success(v)
      case None => Failure(NotANumber(value))
  }

  /** Four dot-free segments, the last non-empty, form an accepted address, and so does the
      same address with a trailing dot, since a trailing empty segment is not counted. */
  lemma DottedQuadAccepted(a: string, b: string, c: string, d: string)
    requires '.' !in a && '.' !in b && '.' !in c && '.' !in d && d != ""
    ensures var ip := a + "." + b + "." + c + "." + d;
      ParseIpAddress(ip) == Success(ip) && ParseIpAddress(ip + ".") == Success(ip + ".")
  {
    var ip := a + "." + b + "." + c + "." + d;
    DottedPieces(a, b, c, d);
    DottedPieces(a, b, c, d + ".");
    CharPiecesCons(d, '.', "");
    assert d + ['.'] + "" == d + ".";
    assert CharPieces(d, '.') == [d] by {
      CharPiecesPrefix(d, "", '.');
      assert d + "" == d;
    }
    assert ip + "." == a + "." + b + "." + c + "." + (d + ".");
    assert CharPieces(d + ".", '.') == [d, ""];
    assert CharPieces(ip + ".", '.') == [a, b, c, d, ""];
    assert CharPieces(ip, '.') == [a, b, c, d];
    assert [a, b, c, d, ""][..4] == [a, b, c, d];
    assert DropTrailingEmpty([a, b, c, d, ""]) == [a, b, c, d];
    assert DropTrailingEmpty([a, b, c, d]) == [a, b, c, d];
    assert ip[|a|] == '.' && (ip + ".")[|a|] == '.';
    assert Split(ip, '.') == [a, b, c, d];
    assert Split(ip + ".", '.') == [a, b, c, d];
    assert ip != Dash && ip + "." != Dash by {
      assert |Dash| == 1 && Dash[0] == '-';
    }
  }

  /** The pieces of a dotted text are its first three dot-free segments followed by the
      pieces of the rest. */
  lemma DottedPieces(a: string, b: string, c: string, rest: string)
    requires '.' !in a && '.' !in b && '.' !in c
    ensures CharPieces(a + "." + b + "." + c + "." + rest, '.') == [a, b, c] + CharPieces(rest, '.')
  {
    var tail3 := c + ['.'] + rest;
    var tail2 := b + ['.'] + tail3;
    assert a + "." + b + "." + c + "." + rest == a + ['.'] + tail2;
    CharPiecesCons(c, '.', rest);
    CharPiecesCons(b, '.', tail3);
    CharPiecesCons(a, '.', tail2);
    assert [a] + ([b] + ([c] + CharPieces(rest, '.'))) == [a, b, c] + CharPieces(rest, '.');
  }

  /** Three segments are too few, however they are written. */
  lemma ThreeSegmentsRejected(a: string, b: string, c: string)
    requires '.' !in a && '.' !in b && '.' !in c && c != ""
    ensures ParseIpAddress(a + "." + b + "." + c).Failure?
  {
    var ip := a + "." + b + "." + c;
    CharPiecesPrefix(c, "", '.');
    assert c + "" == c;
    CharPiecesCons(b, '.', c);
    CharPiecesCons(a, '.', b + ['.'] + c);
    assert ip == a + ['.'] + (b + ['.'] + c);
    assert CharPieces(ip, '.') == [a, b, c];
    assert ip[|a|] == '.';
  }

  // ---------------------------------------------------------------------------
  // The line parser

  /** The fields validated in the source's order; the first failure is the one reported. */
  function ParseFields(f: seq<string>): (r: Result<LogEntry, FieldError>)
    requires |f| == ExpectedFields
    ensures r.Success? <==>
      && ParseVersion(f[0]).Success? && ParseLongField(f[1]).Success?
      && ParseIpAddress(f[3]).Success? && ParseIpAddress(f[4]).Success?
      && ParseSrcPort(f[5]).Success? && ParseDesPort(f[6]).Success? && ParseProtocol(f[7]).Success?
      && ParseInteger(f[8]).Success? && ParseLongField(f[9]).Success?
      && ParseLongField(f[10]).Success? && ParseLongField(f[11]).Success?
    ensures r.Success? ==> r.value == LogEntry(
      ParseVersion(f[0]).value, ParseLongField(f[1]).value, f[2],
      ParseIpAddress(f[3]).value, ParseIpAddress(f[4]).value,
      ParseSrcPort(f[5]).value, ParseDesPort(f[6]).value, ParseProtocol(f[7]).value,
      ParseInteger(f[8]).value, ParseLongField(f[9]).value,
      ParseLongField(f[10]).value, ParseLongField(f[11]).value, f[12], f[13])
  {
    var version :- ParseVersion(f[0]);
    var accountId :- ParseLongField(f[1]);
    var sourceIp :- ParseIpAddress(f[3]);
    var destinationIp :- ParseIpAddress(f[4]);
    var sourcePort :- ParseSrcPort(f[5]);
    var destinationPort :- ParseDesPort(f[6]);
    var protocol :- ParseProtocol(f[7]);
    var packets :- ParseInteger(f[8]);
    var bytes :- ParseLongField(f[9]);
    var startTime :- ParseLongField(f[10]);
    var endTime :- ParseLongField(f[11]);
    BuildCopiesEverySetting(NewBuilder(), version, accountId, f[2], sourceIp, destinationIp,
      sourcePort, destinationPort, protocol, packets, bytes, startTime, endTime, f[12], f[13]);
    Success(NewBuilder()
      .WithVersion(version)
      .WithAccountId(accountId)
      .WithInterfaceId(f[2])
      .WithSourceIp(sourceIp)
      .WithDestinationIp(destinationIp)
      .WithSourcePort(sourcePort)
      .WithDestinationPort(destinationPort)
      .WithProtocol(protocol)
      .WithPackets(packets)
      .WithBytes(bytes)
      .WithStartTime(startTime)
      .WithEndTime(endTime)
      .WithAction(f[12])
      .WithLogStatus(f[13])
      .Build())
  }

  /** The error of one field check, if it failed. */
  function ErrorOf<T>(r: Result<T, FieldError>): (e: Option<FieldError>)
    ensures e.Some? <==> r.Failure?
    ensures e.Some? ==> e.value == r.error
  {
    match r
    case Success(_) => None
    case Failure(err) => Some(err)
  }

  /** The outcome of each field check, in the order in which the source performs them. */
  function FieldChecks(f: seq<string>): (c: seq<Option<FieldError>>)
    requires |f| == ExpectedFields
    ensures |c| == 11
  {
    [ErrorOf(ParseVersion(f[0])), ErrorOf(ParseLongField(f[1])),
     ErrorOf(ParseIpAddress(f[3])), ErrorOf(ParseIpAddress(f[4])),
     ErrorOf(ParseSrcPort(f[5])), ErrorOf(ParseDesPort(f[6])), ErrorOf(ParseProtocol(f[7])),
     ErrorOf(ParseInteger(f[8])), ErrorOf(ParseLongField(f[9])),
     ErrorOf(ParseLongField(f[10])), ErrorOf(ParseLongField(f[11]))]
  }

  /** The first failing field check is the one reported: the later ones are never run. */
  lemma FirstFailureReported(f: seq<string>, i: nat)
    requires |f| == ExpectedFields && i < 11
    requires forall j :: 0 <= j < i ==> FieldChecks(f)[j].None?
    requires FieldChecks(f)[i].Some?
    ensures ParseFields(f) == Failure(FieldChecks(f)[i].value)
  {
    var c := FieldChecks(f);
    if i > 0 { assert c[0].None?; }
    if i > 1 { assert c[1].None?; }
    if i > 2 { assert c[2].None?; }
    if i > 3 { assert c[3].None?; }
    if i > 4 { assert c[4].None?; }
    if i > 5 { assert c[5].None?; }
    if i > 6 { assert c[6].None?; }
    if i > 7 { assert c[7].None?; }
    if i > 8 { assert c[8].None?; }
    if i > 9 { assert c[9].None?; }
  }

  /** `DefaultVPCFlowLogStrategy.parse`. */
  function Parse(line: string): (r: Result<LogEntry, ParseError>)
    // the field count is checked first, and is the only reason for a count error
    ensures |Fields(line)| != ExpectedFields ==>
              r == Failure(FieldCountMismatch(ExpectedFields, |Fields(line)|, line))
    ensures r.Failure? && r.error.FieldCountMismatch? ==> |Fields(line)| != ExpectedFields
    // a field failure is reported once, for the whole line
    ensures r.Failure? ==> r.error.Line() == line
    ensures r.Failure? && |Fields(line)| == ExpectedFields ==> r.error.InvalidLine?
    // what every accepted record satisfies
    ensures r.Success? ==> |Fields(line)| == ExpectedFields
    ensures r.Success? ==> var e := r.value;
      && e.version == SupportedVersion
      && 0 <= e.destinationPort <= MaxPort
      && (e.sourcePort == Sentinel || 0 <= e.sourcePort <= MaxPort)
      && e.protocol >= 0
    // the pass-through fields are copied unchanged
    ensures r.Success? ==> var e, f := r.value, Fields(line);
      e.interfaceId == f[2] && e.action == f[12] && e.logStatus == f[13]
  {
    var fields := Fields(line);
    if |fields| != ExpectedFields then
      Failure(FieldCountMismatch(ExpectedFields, |fields|, line))
    else
      match ParseFields(fields)
      case Success(e) => Success(e)
      case Failure(cause) => Failure(InvalidLine(line, cause))
  }

  /** A line of fourteen fields is accepted exactly when its field checks pass, and then
      holds their record; otherwise their first failure is reported for the whole line. */
  lemma ParseOfFourteenFields(line: string)
    ensures |Fields(line)| == ExpectedFields ==> var p := ParseFields(Fields(line));
      && (Parse(line).Success? <==> p.Success?)
      && (Parse(line).Success? ==> Parse(line).value == p.value)
      && (Parse(line).Failure? ==> Parse(line).error == InvalidLine(line, p.error))
  {
  }

  /** How each field of an accepted line became its value: a dash is the sentinel where the
      format allows one, any other token is the number it spells, and addresses are kept. */
  lemma ParsedFieldValues(line: string)
    requires Parse(line).Success?
    ensures var e, f := Parse(line).value, Fields(line);
      && (f[1] == Dash ==> e.accountId == Sentinel) && (f[1] != Dash ==> ParseDecimal(f[1]) == Some(e.accountId as int))
      && (f[3] == Dash ==> e.sourceIp == AbsentIp) && (f[3] != Dash ==> e.sourceIp == f[3])
      && (f[4] == Dash ==> e.destinationIp == AbsentIp) && (f[4] != Dash ==> e.destinationIp == f[4])
      && (f[5] == Dash ==> e.sourcePort == Sentinel) && (f[5] != Dash ==> ParseDecimal(f[5]) == Some(e.sourcePort as int))
      && f[6] != Dash && ParseDecimal(f[6]) == Some(e.destinationPort as int)
      && f[7] != Dash && ParseDecimal(f[7]) == Some(e.protocol as int)
      && (f[8] == Dash ==> e.packets == Sentinel) && (f[8] != Dash ==> ParseDecimal(f[8]) == Some(e.packets as int))
      && (f[9] == Dash ==> e.bytes == Sentinel) && (f[9] != Dash ==> ParseDecimal(f[9]) == Some(e.bytes as int))
      && (f[10] == Dash ==> e.startTime == Sentinel) && (f[10] != Dash ==> ParseDecimal(f[10]) == Some(e.startTime as int))
      && (f[11] == Dash ==> e.endTime == Sentinel) && (f[11] != Dash ==> ParseDecimal(f[11]) == Some(e.endTime as int))
  {
  }

  /** `hasValidBytes` of an accepted record fails exactly when the bytes field is a dash or
      spells -1. */
  lemma ValidBytesOfParsed(line: string)
    requires Parse(line).Success?
    ensures var f := Fields(line)[9];
      Parse(line).value.HasValidBytes() <==> f != Dash && ParseDecimal(f) != Some(-1)
  {
    ParsedFieldValues(line);
  }

  /** `hasValidStartTime` likewise for the start-time field. */
  lemma ValidStartTimeOfParsed(line: string)
    requires Parse(line).Success?
    ensures var f := Fields(line)[10];
      Parse(line).value.HasValidStartTime() <==> f != Dash && ParseDecimal(f) != Some(-1)
  {
    ParsedFieldValues(line);
  }

  // ---------------------------------------------------------------------------
  // The inverse: writing a record back as a line

  /** A non-empty field without whitespace. */
  predicate IsToken(s: string) {
    s != [] && NoRegexSpace(s)
  }

  /** What the address fields of an accepted record can hold. */
  predicate IsIpText(ip: string) {
    ip == AbsentIp || (IsToken(ip) && |Split(ip, '.')| == 4)
  }

  /** The records the parser can produce. */
  predicate Representable(e: LogEntry) {
    && e.version == SupportedVersion
    && IsToken(e.interfaceId) && IsToken(e.action) && IsToken(e.logStatus)
    && !IsTrimSpace(e.logStatus[|e.logStatus| - 1])
    && IsIpText(e.sourceIp) && IsIpText(e.destinationIp)
    && (e.sourcePort == Sentinel || 0 <= e.sourcePort <= MaxPort)
    && 0 <= e.destinationPort <= MaxPort
    && e.protocol >= 0
  }

  function IpToken(ip: string): string {
    if ip == AbsentIp then Dash else ip
  }

  function SourcePortToken(port: int): string {
    if port == Sentinel then Dash else IntToString(port)
  }

  function FormatFields(e: LogEntry): (f: seq<string>)
    ensures |f| == ExpectedFields
  {
    [IntToString(e.version), IntToString(e.accountId), e.interfaceId,
     IpToken(e.sourceIp), IpToken(e.destinationIp),
     SourcePortToken(e.sourcePort), IntToString(e.destinationPort), IntToString(e.protocol),
     IntToString(e.packets), IntToString(e.bytes), IntToString(e.startTime), IntToString(e.endTime),
     e.action, e.logStatus]
  }

  /** A record written as a log line, one space between fields. */
  function FormatLine(e: LogEntry): string {
    JoinWithSpaces(FormatFields(e))
  }

  lemma IpTokenIsToken(ip: string)
    requires IsIpText(ip)
    ensures IsToken(IpToken(ip))
    ensures ParseIpAddress(IpToken(ip)) == Success(ip)
  {
    if ip != AbsentIp {
      assert Split(Dash, '.') == [Dash];
    }
  }

  /** The tokens of a representable record are what splitting its line yields. */
  lemma FieldsOfFormatLine(e: LogEntry)
    requires Representable(e)
    ensures Fields(FormatLine(e)) == FormatFields(e)
  {
    var f := FormatFields(e);
    FormatFieldsAreTokens(e);
    JoinStartsWith(f);
    JoinEndsWith(f);
    TrimUntrimmed(FormatLine(e));
    SplitJoin(f);
  }

  /** Every field of a representable record is written as a token; the line starts with
      the version's first digit and ends with the last character of the status. */
  lemma FormatFieldsAreTokens(e: LogEntry)
    requires Representable(e)
    ensures var f := FormatFields(e);
      && (forall i :: 0 <= i < |f| ==> IsToken(f[i]))
      && !IsTrimSpace(f[0][0]) && !IsTrimSpace(f[13][|f[13]| - 1])
  {
    var f := FormatFields(e);
    NumericFieldsAreTokens(e);
    TextFieldsAreTokens(e);
    FourteenTokens(f);
  }

  lemma FourteenTokens(f: seq<string>)
    requires |f| == ExpectedFields
    requires IsToken(f[0]) && IsToken(f[1]) && IsToken(f[2]) && IsToken(f[3]) && IsToken(f[4])
    requires IsToken(f[5]) && IsToken(f[6]) && IsToken(f[7]) && IsToken(f[8]) && IsToken(f[9])
    requires IsToken(f[10]) && IsToken(f[11]) && IsToken(f[12]) && IsToken(f[13])
    ensures forall i :: 0 <= i < |f| ==> IsToken(f[i])
  {
  }

  lemma NumericFieldsAreTokens(e: LogEntry)
    ensures var f := FormatFields(e);
      && IsToken(f[0]) && !IsTrimSpace(f[0][0]) && IsToken(f[1]) && IsToken(f[6]) && IsToken(f[7])
      && IsToken(f[8]) && IsToken(f[9]) && IsToken(f[10]) && IsToken(f[11])
  {
    NumberIsToken(e.version);
    NumberIsToken(e.accountId);
    NumberIsToken(e.destinationPort);
    NumberIsToken(e.protocol);
    NumberIsToken(e.packets);
    NumberIsToken(e.bytes);
    NumberIsToken(e.startTime);
    NumberIsToken(e.endTime);
  }

  lemma TextFieldsAreTokens(e: LogEntry)
    requires Representable(e)
    ensures var f := FormatFields(e);
      IsToken(f[2]) && IsToken(f[3]) && IsToken(f[4]) && IsToken(f[5]) && IsToken(f[12]) && IsToken(f[13])
  {
    var f := FormatFields(e);
    assert f[3] == IpToken(e.sourceIp) && f[4] == IpToken(e.destinationIp);
    assert f[5] == SourcePortToken(e.sourcePort);
    IpTokenIsToken(e.sourceIp);
    IpTokenIsToken(e.destinationIp);
    SourcePortTokenIsToken(e.sourcePort);
  }

  /** A number is written as a token that begins with a visible character. */
  lemma NumberIsToken(n: int)
    ensures IsToken(IntToString(n)) && !IsTrimSpace(IntToString(n)[0])
  {
    IntToStringPlain(n);
  }

  lemma SourcePortTokenIsToken(port: int)
    ensures IsToken(SourcePortToken(port))
  {
    if port == Sentinel {
      assert SourcePortToken(port) == Dash;
      assert NoRegexSpace(Dash) by { assert Dash[0] == '-'; }
    } else {
      NumberIsToken(port);
    }
  }

  lemma IntTokenRoundTrip(n: Int32)
    ensures ParseIntField(IntToString(n)) == Success(n)
    ensures ParseInteger(IntToString(n)) == Success(n)
    ensures n == SupportedVersion ==> ParseVersion(IntToString(n)) == Success(n)
    ensures 0 <= n <= MaxPort ==> ParseDesPort(IntToString(n)) == Success(n)
    ensures n >= 0 ==> ParseProtocol(IntToString(n)) == Success(n)
  {
    ParseIntOfIntToString(n);
    IntToStringPlain(n);
  }

  lemma SourcePortTokenRoundTrip(n: Int32)
    requires n == Sentinel || 0 <= n <= MaxPort
    ensures ParseSrcPort(SourcePortToken(n)) == Success(n)
  {
    if n != Sentinel {
      IntTokenRoundTrip(n);
      IntToStringPlain(n);
    }
  }

  lemma LongTokenRoundTrip(n: Int64)
    ensures ParseLongField(IntToString(n)) == Success(n)
  {
    ParseLongOfIntToString(n);
    IntToStringPlain(n);
  }

  /** Each field parser reads back the value its token was written from. */
  lemma ParseFieldsOfFormat(e: LogEntry)
    requires Representable(e)
    ensures ParseFields(FormatFields(e)) == Success(e)
  {
    IntFieldsOfFormat(e);
    LongFieldsOfFormat(e);
    OtherFieldsOfFormat(e);
    ParseFieldsOfParts(FormatFields(e), e);
  }

  lemma IntFieldsOfFormat(e: LogEntry)
    requires Representable(e)
    ensures var f := FormatFields(e);
      && ParseVersion(f[0]) == Success(e.version) && ParseDesPort(f[6]) == Success(e.destinationPort)
      && ParseProtocol(f[7]) == Success(e.protocol) && ParseInteger(f[8]) == Success(e.packets)
  {
    IntTokenRoundTrip(e.version);
    IntTokenRoundTrip(e.destinationPort);
    IntTokenRoundTrip(e.protocol);
    IntTokenRoundTrip(e.packets);
  }

  lemma LongFieldsOfFormat(e: LogEntry)
    ensures var f := FormatFields(e);
      && ParseLongField(f[1]) == Success(e.accountId) && ParseLongField(f[9]) == Success(e.bytes)
      && ParseLongField(f[10]) == Success(e.startTime) && ParseLongField(f[11]) == Success(e.endTime)
  {
    LongTokenRoundTrip(e.accountId);
    LongTokenRoundTrip(e.bytes);
    LongTokenRoundTrip(e.startTime);
    LongTokenRoundTrip(e.endTime);
  }

  lemma OtherFieldsOfFormat(e: LogEntry)
    requires Representable(e)
    ensures var f := FormatFields(e);
      && ParseIpAddress(f[3]) == Success(e.sourceIp) && ParseIpAddress(f[4]) == Success(e.destinationIp)
      && ParseSrcPort(f[5]) == Success(e.sourcePort)
      && f[2] == e.interfaceId && f[12] == e.action && f[13] == e.logStatus
  {
    var f := FormatFields(e);
    assert f[3] == IpToken(e.sourceIp) && f[4] == IpToken(e.destinationIp);
    assert f[5] == SourcePortToken(e.sourcePort);
    IpTokenIsToken(e.sourceIp);
    IpTokenIsToken(e.destinationIp);
    SourcePortTokenRoundTrip(e.sourcePort);
  }

  /** Fields that each read back as the matching value of a record make up that record. */
  lemma ParseFieldsOfParts(f: seq<string>, e: LogEntry)
    requires |f| == ExpectedFields
    requires ParseVersion(f[0]) == Success(e.version) && ParseLongField(f[1]) == Success(e.accountId)
    requires ParseIpAddress(f[3]) == Success(e.sourceIp) && ParseIpAddress(f[4]) == Success(e.destinationIp)
    requires ParseSrcPort(f[5]) == Success(e.sourcePort) && ParseDesPort(f[6]) == Success(e.destinationPort)
    requires ParseProtocol(f[7]) == Success(e.protocol) && ParseInteger(f[8]) == Success(e.packets)
    requires ParseLongField(f[9]) == Success(e.bytes) && ParseLongField(f[10]) == Success(e.startTime)
    requires ParseLongField(f[11]) == Success(e.endTime)
    requires f[2] == e.interfaceId && f[12] == e.action && f[13] == e.logStatus
    ensures ParseFields(f) == Success(e)
  {
  }

  /** Every representable record is read back unchanged from the line it is written as. */
  lemma ParseFormatRoundTrip(e: LogEntry)
    requires Representable(e)
    ensures Parse(FormatLine(e)) == Success(e)
  {
    FieldsOfFormatLine(e);
    ParseFieldsOfFormat(e);
  }

  /** Conversely every record the parser accepts is representable, so the records the
      parser produces are exactly the representable ones, and re-parsing the written form
      of an accepted line gives the same record. */
  lemma ParsedIsRepresentable(line: string)
    requires Parse(line).Success?
    ensures Representable(Parse(line).value)
    ensures Parse(FormatLine(Parse(line).value)) == Parse(line)
  {
    var t := Trim(line);
    var f := Fields(line);
    assert t != [];
    SplitTrimmedShape(t);
    var e := Parse(line).value;
    assert e.logStatus == f[13];
    ParseFormatRoundTrip(e);
  }
}

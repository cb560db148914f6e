# VPC flow-log tagger — a Dafny model

The system reads AWS VPC flow-log lines in the default (version 2) format. Each line has 14
whitespace-separated fields:

    version accountId interfaceId srcIp dstIp srcPort dstPort protocol packets bytes start end action logStatus

A line that parses becomes an immutable `LogEntry`; a line that fails is skipped. A lookup
table of `dstport,protocol,tag` lines maps (destination port, protocol name) keys to sets of
tags. The analyzer produces two counts:

- per tag: the tags of each record's key, or the bucket `untagged` when no rule names the key;
- per (destination port, protocol name) key.

The model follows the Java source one file at a time.

| file | module | form |
|---|---|---|
| `wrappers.dfy` | `Wrappers` | `Option` and `Result` with `:-` propagation, which stand in for exceptions |
| `java_lang.dfy` | `JavaLang` | the JDK behaviour the core depends on, written out (see below) |
| `log_entry.dfy` | `LogEntries` | the record, its builder and the protocol catalogue |
| `port_protocol_key.dfy` | `PortProtocolKeys` | the composite key, as a datatype with structural equality |
| `vpc_strategy.dfy` | `VpcStrategy` | `DefaultVPCFlowLogStrategy.parse`, its field parsers, and an inverse (`FormatLine`) with round trips in both directions |
| `strategy_factory.dfy` | `StrategyFactory` | the one-variant strategy type and `createStrategy` |
| `tag_mapper.dfy` | `TagMapping` | the class `TagMapper`; its loading loop is proved against the fold `LoadAll` |
| `flow_log_analyzer.dfy` | `Analyzer` | the class `FlowLogAnalyzer`; its loops are proved against the functions `ParsedEntries`, `TagCounts` and `PortProtocolCounts` |

`JavaLang` writes out these JDK methods:

- `String.trim`, which removes characters up to U+0020.
- `String.split` on `\s+` and on a literal character. Java drops the trailing empty strings, and a string with no separator splits to itself.
- `toLowerCase`, for ASCII letters.
- `Integer.parseInt` and `Long.parseLong`, with their range checks.
- `String.valueOf`.
- `String.hashCode` and 32-bit wrap-around.

The lookup table and the flow log are given as sequences of lines, one per line the source
reads from its files.

The account id and the end time both go through `parseLong`. So both are `long`s, and a dash
in either field is read as `-1` (`DefaultVPCFlowLogStrategy.java:22`, `:32`, `:88-90`).

The main results:

- **Parsing.**
  - `Parse` separates the two kinds of failure. A line without 14 fields is a count error,
    and that is the only cause of one. Any other failure is reported for the whole line.
  - `FirstFailureReported` shows which field failure is reported: the one from the first
    field check, in the source's order, that fails. The field parsers' contracts give each
    check's own errors (not a number, port out of range, negative protocol, unsupported
    version).
  - `ParseFormatRoundTrip` and `ParsedIsRepresentable` together show that the accepted
    records are exactly the representable ones. Re-parsing the written form of an accepted
    line gives back the same record.
- **Lookup table.**
  - `LoadAllKeys` and `LoadAllTags` show that loading is the union of the old map with the
    table's rules, whatever the line order.
  - `LoadAllTwice` shows that loading the same table again changes nothing.
- **Counts.**
  - `TagCountsAreRecordCounts` shows that a tag's count is the number of records that carry it.
  - `PortProtocolCountsAreMultiplicities` shows that a key's count is the key's multiplicity.
  - `TagCountsTotal` and `PortProtocolCountsTotal` give the totals.
- **Methods.** Each method is proved equal to the function it computes.

## Model

| member | source | states |
|---|---|---|
| `JavaLang.Trim` | src/main/java/in/anuragbanerjee/parser/strategy/DefaultVPCFlowLogStrategy.java:10 | `trim`: the result is a slice of the input, every character removed before or after it is at most U+0020, and a non-empty result starts and ends above U+0020 |
| `JavaLang.TrimIdempotent` | src/main/java/in/anuragbanerjee/parser/strategy/DefaultVPCFlowLogStrategy.java:10 | trimming twice is trimming once |
| `JavaLang.TrimStart` | src/main/java/in/anuragbanerjee/parser/strategy/DefaultVPCFlowLogStrategy.java:10 | the result is a suffix of the input that is empty or starts above U+0020, and every character removed is at most U+0020 |
| `JavaLang.TrimEnd` | src/main/java/in/anuragbanerjee/parser/strategy/DefaultVPCFlowLogStrategy.java:10 | the result is a prefix of the input that is empty or ends above U+0020, and every character removed is at most U+0020 |
| `JavaLang.TrimUntrimmed` | src/main/java/in/anuragbanerjee/parser/strategy/DefaultVPCFlowLogStrategy.java:10 | a string whose two ends are above U+0020 is its own trim |
| `JavaLang.CharPieces` | src/main/java/in/anuragbanerjee/mapper/TagMapper.java:27 | the pieces between the separators: at least one, none holding the separator |
| `JavaLang.RunPieces` | src/main/java/in/anuragbanerjee/parser/strategy/DefaultVPCFlowLogStrategy.java:10 | the pieces between whitespace runs: at least one, none holding whitespace |
| `JavaLang.Split` | src/main/java/in/anuragbanerjee/mapper/TagMapper.java:27 | `split(",")`: a string without the separator splits to itself; otherwise the last piece is non-empty (or there is none); no piece holds the separator |
| `JavaLang.SplitOnSpaceRuns` | src/main/java/in/anuragbanerjee/parser/strategy/DefaultVPCFlowLogStrategy.java:10 | `split("\\s+")`: a string without whitespace splits to itself; otherwise the last piece is non-empty (or there is none); no piece holds whitespace |
| `JavaLang.DropTrailingEmpty` | src/main/java/in/anuragbanerjee/parser/strategy/DefaultVPCFlowLogStrategy.java:52 | `split` keeps a prefix of the pieces whose last piece is non-empty; every piece it drops is empty |
| `JavaLang.CharPiecesPrefix` | src/main/java/in/anuragbanerjee/mapper/TagMapper.java:27 | a separator-free token glues onto the first piece of whatever follows it |
| `JavaLang.CharPiecesCons` | src/main/java/in/anuragbanerjee/mapper/TagMapper.java:27 | splitting `a` + separator + `b` yields `a` followed by the pieces of `b` |
| `JavaLang.RunPiecesPrefix` | src/main/java/in/anuragbanerjee/parser/strategy/DefaultVPCFlowLogStrategy.java:10 | a space-free token glues onto the first piece of what follows it |
| `JavaLang.RunPiecesOfJoin` | src/main/java/in/anuragbanerjee/parser/strategy/DefaultVPCFlowLogStrategy.java:10 | the pieces of a space-joined list of non-empty, space-free tokens are those tokens |
| `JavaLang.JoinStartsWith` | src/main/java/in/anuragbanerjee/parser/strategy/DefaultVPCFlowLogStrategy.java:10 | a join starts with the first character of the first token |
| `JavaLang.JoinEndsWith` | src/main/java/in/anuragbanerjee/parser/strategy/DefaultVPCFlowLogStrategy.java:10 | a join ends with the last character of the last token |
| `JavaLang.SplitJoin` | src/main/java/in/anuragbanerjee/parser/strategy/DefaultVPCFlowLogStrategy.java:10 | `split("\\s+")` undoes joining non-empty, space-free tokens with spaces |
| `JavaLang.RunPiecesShape` | src/main/java/in/anuragbanerjee/parser/strategy/DefaultVPCFlowLogStrategy.java:10 | for a string that does not end in whitespace: no piece holds whitespace, only the first piece may be empty, and the last piece ends where the string ends |
| `JavaLang.SplitTrimmedShape` | src/main/java/in/anuragbanerjee/parser/strategy/DefaultVPCFlowLogStrategy.java:10 | every field of a trimmed, non-empty line is non-empty and whitespace-free, and the last field ends above U+0020 |
| `JavaLang.SplitSpacedShape` | src/main/java/in/anuragbanerjee/parser/strategy/DefaultVPCFlowLogStrategy.java:10 | a trimmed line that holds whitespace splits into its run pieces, with no empty piece |
| `JavaLang.ToLower` | src/main/java/in/anuragbanerjee/mapper/TagMapper.java:37-38 | `toLowerCase`: same length, each character lowercased, no upper-case letter left |
| `JavaLang.ToLowerNoUpper` | src/main/java/in/anuragbanerjee/model/LogEntry.java:106 | lowercasing a string that has no upper-case letter leaves it unchanged |
| `JavaLang.ParseDecimal` | src/main/java/in/anuragbanerjee/parser/strategy/DefaultVPCFlowLogStrategy.java:42 | the number syntax accepts exactly an optional sign followed by one or more digits, and the value is the digits' value, negated after a minus |
| `JavaLang.ParseInt` | src/main/java/in/anuragbanerjee/parser/strategy/DefaultVPCFlowLogStrategy.java:42 | `Integer.parseInt` succeeds exactly when the syntax is valid and the value is in `int` range, and then returns that value |
| `JavaLang.ParseLong` | src/main/java/in/anuragbanerjee/parser/strategy/DefaultVPCFlowLogStrategy.java:89 | `Long.parseLong` likewise, for the `long` range |
| `JavaLang.NatToString` | src/main/java/in/anuragbanerjee/model/LogEntry.java:105 | a natural number is written as a non-empty string of digits |
| `JavaLang.IntToString` | src/main/java/in/anuragbanerjee/model/LogEntry.java:105 | `String.valueOf`: non-empty, with a leading minus exactly for negative numbers |
| `JavaLang.IntToStringChars` | src/main/java/in/anuragbanerjee/model/LogEntry.java:105 | after the optional minus, a written number holds only digits |
| `JavaLang.DigitsValueOfNatToString` | src/main/java/in/anuragbanerjee/model/LogEntry.java:105 | the digits of a written natural spell that natural |
| `JavaLang.ParseDecimalOfNatToString` | src/main/java/in/anuragbanerjee/model/LogEntry.java:105 | a written natural reads back as itself |
| `JavaLang.ParseDecimalOfNegative` | src/main/java/in/anuragbanerjee/model/LogEntry.java:105 | a minus sign followed by a written positive number reads back as its negation |
| `JavaLang.ParseDecimalOfIntToString` | src/main/java/in/anuragbanerjee/model/LogEntry.java:105 | reading back any written integer gives that integer |
| `JavaLang.ParseIntOfIntToString` | src/main/java/in/anuragbanerjee/parser/strategy/DefaultVPCFlowLogStrategy.java:42 | `parseInt(valueOf(n)) == n` for every `int` |
| `JavaLang.ParseLongOfIntToString` | src/main/java/in/anuragbanerjee/parser/strategy/DefaultVPCFlowLogStrategy.java:89 | `parseLong(valueOf(n)) == n` for every `long` |
| `JavaLang.IntToStringPlain` | src/main/java/in/anuragbanerjee/model/LogEntry.java:105 | a written number has no upper-case letter, whitespace, comma or dot, and is never a lone dash |
| `JavaLang.Wrap32` | src/main/java/in/anuragbanerjee/model/PortProtocolKey.java:30-33 | the `int` result agrees with the exact value modulo 2^32, and equals it when it is in range |
| `JavaLang.HashStep` | src/main/java/in/anuragbanerjee/model/PortProtocolKey.java:30-33 | one step `31 * h + c` of the hash respects agreement modulo 2^32 |
| `JavaLang.StringHash` | src/main/java/in/anuragbanerjee/model/PortProtocolKey.java:30-33 | `String.hashCode`: the `int` that agrees modulo 2^32 with the polynomial s[0]*31^(n-1) + ... + s[n-1] |
| `LogEntries.LogEntry.HasValidBytes` | src/main/java/in/anuragbanerjee/model/LogEntry.java:109-111 | holds exactly when the bytes are not the `-1` sentinel |
| `LogEntries.LogEntry.HasValidStartTime` | src/main/java/in/anuragbanerjee/model/LogEntry.java:113-115 | holds exactly when the start time is not the `-1` sentinel |
| `LogEntries.LogEntry.ProtocolAsString` | src/main/java/in/anuragbanerjee/model/LogEntry.java:52-107 | a record's protocol name has no upper-case letter |
| `LogEntries.CatalogName` | src/main/java/in/anuragbanerjee/model/LogEntry.java:53-104 | only numbers from 0 to 142 have a catalogue name, and it is never empty |
| `LogEntries.ProtocolName` | src/main/java/in/anuragbanerjee/model/LogEntry.java:52-107 | the lowercased catalogue name for a catalogued number; never an upper-case letter |
| `LogEntries.UnknownProtocolName` | src/main/java/in/anuragbanerjee/model/LogEntry.java:105-106 | a number outside the catalogue is named by its decimal string, which reads back as the number |
| `LogEntries.ProtocolNameExamples` | src/main/java/in/anuragbanerjee/model/LogEntry.java:53-106 | 6, 17, 1 and 4 are named `tcp`, `udp`, `icmp` and `ipv4` |
| `LogEntries.NewBuilder` | src/main/java/in/anuragbanerjee/model/LogEntry.java:139-145 | a fresh builder holds `-1` bytes and start time, zero in the other numbers and empty strings |
| `LogEntries.Builder.WithVersion` | src/main/java/in/anuragbanerjee/model/LogEntry.java:147-150 | sets `version` and leaves every other field as it was |
| `LogEntries.Builder.WithAccountId` | src/main/java/in/anuragbanerjee/model/LogEntry.java:152-155 | sets `accountId` and leaves every other field as it was |
| `LogEntries.Builder.WithInterfaceId` | src/main/java/in/anuragbanerjee/model/LogEntry.java:157-160 | sets `interfaceId` and leaves every other field as it was |
| `LogEntries.Builder.WithSourceIp` | src/main/java/in/anuragbanerjee/model/LogEntry.java:162-165 | sets `sourceIp` and leaves every other field as it was |
| `LogEntries.Builder.WithDestinationIp` | src/main/java/in/anuragbanerjee/model/LogEntry.java:167-170 | sets `destinationIp` and leaves every other field as it was |
| `LogEntries.Builder.WithSourcePort` | src/main/java/in/anuragbanerjee/model/LogEntry.java:172-175 | sets `sourcePort` and leaves every other field as it was |
| `LogEntries.Builder.WithDestinationPort` | src/main/java/in/anuragbanerjee/model/LogEntry.java:177-180 | sets `destinationPort` and leaves every other field as it was |
| `LogEntries.Builder.WithProtocol` | src/main/java/in/anuragbanerjee/model/LogEntry.java:182-185 | sets `protocol` and leaves every other field as it was |
| `LogEntries.Builder.WithPackets` | src/main/java/in/anuragbanerjee/model/LogEntry.java:187-190 | sets `packets` and leaves every other field as it was |
| `LogEntries.Builder.WithBytes` | src/main/java/in/anuragbanerjee/model/LogEntry.java:192-195 | sets `bytes` and leaves every other field as it was |
| `LogEntries.Builder.WithStartTime` | src/main/java/in/anuragbanerjee/model/LogEntry.java:197-200 | sets `startTime` and leaves every other field as it was |
| `LogEntries.Builder.WithEndTime` | src/main/java/in/anuragbanerjee/model/LogEntry.java:202-205 | sets `endTime` and leaves every other field as it was |
| `LogEntries.Builder.WithAction` | src/main/java/in/anuragbanerjee/model/LogEntry.java:207-210 | sets `action` and leaves every other field as it was |
| `LogEntries.Builder.WithLogStatus` | src/main/java/in/anuragbanerjee/model/LogEntry.java:212-215 | sets `logStatus` and leaves every other field as it was |
| `LogEntries.Builder.Build` | src/main/java/in/anuragbanerjee/model/LogEntry.java:217-219 | the record holds every value of the builder |
| `LogEntries.BuildCopiesEverySetting` | src/main/java/in/anuragbanerjee/model/LogEntry.java:129-220 | setting every field and building gives exactly the values set, whatever the builder held before |
| `LogEntries.BuilderDefaults` | src/main/java/in/anuragbanerjee/model/LogEntry.java:139-140 | a fresh builder that never sets bytes or start time builds a record where both are `-1` and neither validity predicate holds |
| `PortProtocolKeys.KeyOf` | src/main/java/in/anuragbanerjee/mapper/TagMapper.java:56 | a record's key holds its destination port and a lowercase protocol name |
| `PortProtocolKeys.HashCode` | src/main/java/in/anuragbanerjee/model/PortProtocolKey.java:30-33 | `Objects.hash(port, protocol)`: agrees modulo 2^32 with 31 * (31 + port) + the hash polynomial of the protocol |
| `PortProtocolKeys.KeyEquality` | src/main/java/in/anuragbanerjee/model/PortProtocolKey.java:22-28 | two keys are equal exactly when their ports and protocol strings are |
| `PortProtocolKeys.HashAgreesWithEquality` | src/main/java/in/anuragbanerjee/model/PortProtocolKey.java:30-33 | equal keys have equal hash codes |
| `PortProtocolKeys.KeyOfSameFields` | src/main/java/in/anuragbanerjee/analyzer/FlowLogAnalyzer.java:75 | records with the same destination port and protocol share a key; records with different destination ports never do |
| `VpcStrategy.Fields` | src/main/java/in/anuragbanerjee/parser/strategy/DefaultVPCFlowLogStrategy.java:10 | a blank line is one empty field; otherwise every field is non-empty and whitespace-free |
| `VpcStrategy.ParseIntField` | src/main/java/in/anuragbanerjee/parser/strategy/DefaultVPCFlowLogStrategy.java:42 | a field is an `int` exactly when `parseInt` accepts it; otherwise the error names the field's text |
| `VpcStrategy.ParseVersion` | src/main/java/in/anuragbanerjee/parser/strategy/DefaultVPCFlowLogStrategy.java:41-47 | accepted exactly when the field parses to 2; another integer is an unsupported version, and text that is no `int` is not a number |
| `VpcStrategy.ParseIpAddress` | src/main/java/in/anuragbanerjee/parser/strategy/DefaultVPCFlowLogStrategy.java:49-57 | a dash becomes `"-1"`; any other text is accepted, unchanged, exactly when it splits into four dot segments |
| `VpcStrategy.DottedQuadAccepted` | src/main/java/in/anuragbanerjee/parser/strategy/DefaultVPCFlowLogStrategy.java:52-56 | any four dot-free segments are accepted, without checking octet values, and so is the same text with a trailing dot |
| `VpcStrategy.DottedPieces` | src/main/java/in/anuragbanerjee/parser/strategy/DefaultVPCFlowLogStrategy.java:52 | the pieces of a dotted text start with its first three segments |
| `VpcStrategy.ThreeSegmentsRejected` | src/main/java/in/anuragbanerjee/parser/strategy/DefaultVPCFlowLogStrategy.java:52-55 | three segments are refused |
| `VpcStrategy.ParseSrcPort` | src/main/java/in/anuragbanerjee/parser/strategy/DefaultVPCFlowLogStrategy.java:59-66 | a dash is `-1`; otherwise accepted exactly for an `int` in [0, 65535]; text that is no `int` is not a number, and an `int` outside the range is an invalid port |
| `VpcStrategy.ParseDesPort` | src/main/java/in/anuragbanerjee/parser/strategy/DefaultVPCFlowLogStrategy.java:68-74 | accepted exactly for an `int` in [0, 65535]; a dash is refused; text that is no `int` is not a number, and an `int` outside the range is an invalid port |
| `VpcStrategy.ParseProtocol` | src/main/java/in/anuragbanerjee/parser/strategy/DefaultVPCFlowLogStrategy.java:76-82 | accepted exactly for a non-negative `int`; a dash is refused; text that is no `int` is not a number, and a negative `int` is an invalid protocol |
| `VpcStrategy.ParseInteger` | src/main/java/in/anuragbanerjee/parser/strategy/DefaultVPCFlowLogStrategy.java:84-86 | a dash is `-1`; otherwise accepted exactly when `parseInt` accepts, and a failure reports the text as not a number |
| `VpcStrategy.ParseLongField` | src/main/java/in/anuragbanerjee/parser/strategy/DefaultVPCFlowLogStrategy.java:88-90 | a dash is `-1`; otherwise accepted exactly when `parseLong` accepts |
| `VpcStrategy.ParseFields` | src/main/java/in/anuragbanerjee/parser/strategy/DefaultVPCFlowLogStrategy.java:19-38 | the record is built exactly when every field parser succeeds; it holds each parser's value and the pass-through fields |
| `VpcStrategy.ErrorOf` | src/main/java/in/anuragbanerjee/parser/strategy/DefaultVPCFlowLogStrategy.java:19-38 | the failure of a field check, if there is one |
| `VpcStrategy.FieldChecks` | src/main/java/in/anuragbanerjee/parser/strategy/DefaultVPCFlowLogStrategy.java:19-38 | the eleven field checks of a 14-field line, in the source's order |
| `VpcStrategy.FirstFailureReported` | src/main/java/in/anuragbanerjee/parser/strategy/DefaultVPCFlowLogStrategy.java:19-38 | when every earlier field check passes and check `i` fails, the record build fails with check `i`'s error |
| `VpcStrategy.Parse` | src/main/java/in/anuragbanerjee/parser/strategy/DefaultVPCFlowLogStrategy.java:9-39 | a field count other than 14 is the only cause of a count error; every other failure is reported for the whole line; an accepted record has version 2, ports in range and a non-negative protocol |
| `VpcStrategy.ParseOfFourteenFields` | src/main/java/in/anuragbanerjee/parser/strategy/DefaultVPCFlowLogStrategy.java:9-39 | a 14-field line is accepted exactly when its field checks pass, with their record; otherwise their failure is reported for the line |
| `VpcStrategy.ParsedFieldValues` | src/main/java/in/anuragbanerjee/parser/strategy/DefaultVPCFlowLogStrategy.java:19-35 | each field of an accepted line is the sentinel where it was a dash (and that is allowed), the number it spells, or the address as written |
| `VpcStrategy.ValidBytesOfParsed` | src/main/java/in/anuragbanerjee/model/LogEntry.java:109-111 | an accepted record has valid bytes exactly when the bytes field is neither a dash nor `-1` |
| `VpcStrategy.ValidStartTimeOfParsed` | src/main/java/in/anuragbanerjee/model/LogEntry.java:113-115 | likewise for the start time |
| `VpcStrategy.IpTokenIsToken` | src/main/java/in/anuragbanerjee/parser/strategy/DefaultVPCFlowLogStrategy.java:49-57 | an address an accepted record can hold is written as a token that the IP parser reads back as that address |
| `VpcStrategy.IntTokenRoundTrip` | src/main/java/in/anuragbanerjee/parser/strategy/DefaultVPCFlowLogStrategy.java:41-86 | every `int` field parser reads back a written value that it allows |
| `VpcStrategy.SourcePortTokenRoundTrip` | src/main/java/in/anuragbanerjee/parser/strategy/DefaultVPCFlowLogStrategy.java:59-66 | a source port or the sentinel, once written, reads back as itself |
| `VpcStrategy.LongTokenRoundTrip` | src/main/java/in/anuragbanerjee/parser/strategy/DefaultVPCFlowLogStrategy.java:88-90 | a written `long` field reads back as itself |
| `VpcStrategy.FieldsOfFormatLine` | src/main/java/in/anuragbanerjee/parser/strategy/DefaultVPCFlowLogStrategy.java:10 | trimming and splitting the written line of a representable record gives its 14 tokens |
| `VpcStrategy.ParseFieldsOfParts` | src/main/java/in/anuragbanerjee/parser/strategy/DefaultVPCFlowLogStrategy.java:19-35 | fields that each read back as the matching value of a record build that record |
| `VpcStrategy.ParseFieldsOfFormat` | src/main/java/in/anuragbanerjee/parser/strategy/DefaultVPCFlowLogStrategy.java:19-35 | the written fields of a representable record build that record |
| `VpcStrategy.ParseFormatRoundTrip` | src/main/java/in/anuragbanerjee/parser/strategy/DefaultVPCFlowLogStrategy.java:9-39 | every representable record is parsed back unchanged from its written line |
| `VpcStrategy.ParsedIsRepresentable` | src/main/java/in/anuragbanerjee/parser/strategy/DefaultVPCFlowLogStrategy.java:9-39 | every accepted record is representable, and re-parsing its written line gives the same result |
| `StrategyFactory.LogParsingStrategy.Parse` | src/main/java/in/anuragbanerjee/parser/strategy/LogParsingStrategy.java:6 | the default strategy parses with the VPC flow-log parser |
| `StrategyFactory.CreateStrategy` | src/main/java/in/anuragbanerjee/parser/LogParsingStrategyFactory.java:7-12 | success selects the default strategy; failure reports the format as unsupported |
| `StrategyFactory.AcceptedFormats` | src/main/java/in/anuragbanerjee/parser/LogParsingStrategyFactory.java:8-10 | the accepted names are exactly the mixed-case spellings of `default` |
| `StrategyFactory.CaseInsensitive` | src/main/java/in/anuragbanerjee/parser/LogParsingStrategyFactory.java:8 | names that are equal after lowercasing are accepted alike |
| `StrategyFactory.FactoryExamples` | src/main/java/in/anuragbanerjee/parser/LogParsingStrategyFactory.java:8-10 | `default`, `DEFAULT` and `Default` are accepted; `csv` is refused |
| `TagMapping.ParseRule` | src/main/java/in/anuragbanerjee/mapper/TagMapper.java:27-39 | a line is a rule exactly when it has three parts and an `int` port, and then the rule holds that port; protocol and tag are lowercased; each other case gives its own error |
| `TagMapping.AddRule` | src/main/java/in/anuragbanerjee/mapper/TagMapper.java:41-43 | the rule's key gains the rule's tag and keeps its earlier tags; no other key changes |
| `TagMapping.LoadLine` | src/main/java/in/anuragbanerjee/mapper/TagMapper.java:26-47 | a line that is a rule adds that rule to the map; a line with the wrong part count or a bad port leaves the map unchanged; no key or tag is ever removed, and non-empty tag sets stay non-empty |
| `TagMapping.LoadAll` | src/main/java/in/anuragbanerjee/mapper/TagMapper.java:25-48 | loading the lines in order removes no key or tag, and keeps every tag set non-empty |
| `TagMapping.Lookup` | src/main/java/in/anuragbanerjee/mapper/TagMapper.java:55-58 | the result is present exactly when the record's key is mapped; it is then that key's set, and non-empty |
| `TagMapping.LoadAllKeys` | src/main/java/in/anuragbanerjee/mapper/TagMapper.java:21-53 | a key is loaded exactly when it was there before or some line is a rule for it |
| `TagMapping.LoadAllTags` | src/main/java/in/anuragbanerjee/mapper/TagMapper.java:21-53 | a tag is stored under a key exactly when it was before or some line gives it to that key (union semantics) |
| `TagMapping.LoadAllAppend` | src/main/java/in/anuragbanerjee/mapper/TagMapper.java:25-48 | loading two tables in turn is loading their concatenation |
| `TagMapping.LoadAllTwice` | src/main/java/in/anuragbanerjee/mapper/TagMapper.java:21-53 | loading the same table twice is loading it once |
| `TagMapping.LookupAfterLoad` | src/main/java/in/anuragbanerjee/mapper/TagMapper.java:55-58 | after a load, a record is mapped exactly when its key was mapped before or is named by a rule; it carries the old tags and the rules' tags |
| `TagMapping.SplitThree` | src/main/java/in/anuragbanerjee/mapper/TagMapper.java:27 | three comma-free parts with a non-empty last part split back into those parts |
| `TagMapping.RuleLineRoundTrip` | src/main/java/in/anuragbanerjee/mapper/TagMapper.java:27-39 | a line written from a port, a protocol and a non-empty tag is read as that rule, lowercased |
| `TagMapping.WellFormedLineLoaded` | src/main/java/in/anuragbanerjee/mapper/TagMapper.java:27-47 | a three-part line whose port `parseInt` accepts, however written, is read as that rule, lowercased, and added to the map |
| `TagMapping.SignedPortParsed` | src/main/java/in/anuragbanerjee/mapper/TagMapper.java:36 | `parseInt` reads `+025` as 25 |
| `TagMapping.SignedPortLineLoaded` | src/main/java/in/anuragbanerjee/mapper/TagMapper.java:27-39 | the line `+025,TCP,Web` is the rule (25, `tcp`) → `web` |
| `TagMapping.NonNumericPortSkipped` | src/main/java/in/anuragbanerjee/mapper/TagMapper.java:36-46 | a three-part line whose port does not start like a number, such as the header line, is refused and changes nothing |
| `TagMapping.TagMapper.constructor` | src/main/java/in/anuragbanerjee/mapper/TagMapper.java:17-19 | a new mapper holds the empty map |
| `TagMapping.TagMapper.LoadTagMappings` | src/main/java/in/anuragbanerjee/mapper/TagMapper.java:21-53 | the map becomes the old map extended by every line of the table, in order, and every tag set stays non-empty |
| `TagMapping.TagMapper.AssociatedTags` | src/main/java/in/anuragbanerjee/mapper/TagMapper.java:55-58 | present exactly when the record's key is mapped; it is then that key's non-empty set |
| `Analyzer.ParsedEntries` | src/main/java/in/anuragbanerjee/analyzer/FlowLogAnalyzer.java:37-55 | there are never more records than lines |
| `Analyzer.ParsedEntriesAppend` | src/main/java/in/anuragbanerjee/analyzer/FlowLogAnalyzer.java:41-50 | the records of two consecutive stretches of the log are those of the first, then those of the second |
| `Analyzer.ParsedEntriesOfLine` | src/main/java/in/anuragbanerjee/analyzer/FlowLogAnalyzer.java:42-49 | a line gives its record when it parses and nothing when it fails |
| `Analyzer.ParsedEntriesAreParses` | src/main/java/in/anuragbanerjee/analyzer/FlowLogAnalyzer.java:42-44 | every record kept is the parse of some input line |
| `Analyzer.ParsedRecordsAreAccepted` | src/main/java/in/anuragbanerjee/analyzer/FlowLogAnalyzer.java:43 | every record kept has version 2, ports in range and a non-negative protocol |
| `Analyzer.ParsedEntriesAllParse` | src/main/java/in/anuragbanerjee/analyzer/FlowLogAnalyzer.java:41-50 | when every line parses, no record is lost |
| `Analyzer.Increment` | src/main/java/in/anuragbanerjee/analyzer/FlowLogAnalyzer.java:76 | `merge(k, 1, Integer::sum)`: adds one to `k`, inserting it if absent; no other count changes |
| `Analyzer.AddEach` | src/main/java/in/anuragbanerjee/analyzer/FlowLogAnalyzer.java:62-64 | exactly the keys of the set gain one |
| `Analyzer.AddEachNone` | src/main/java/in/anuragbanerjee/analyzer/FlowLogAnalyzer.java:62-64 | an empty set changes nothing |
| `Analyzer.AddEachStep` | src/main/java/in/anuragbanerjee/analyzer/FlowLogAnalyzer.java:62-64 | one more key of the set is one more `merge` |
| `Analyzer.MergeEach` | src/main/java/in/anuragbanerjee/analyzer/FlowLogAnalyzer.java:62-64 | the inner loop adds one to every tag of the set, whatever the visiting order |
| `Analyzer.Contribution` | src/main/java/in/anuragbanerjee/analyzer/FlowLogAnalyzer.java:60-67 | a mapped record counts for its tags, an unmapped one for `untagged` alone; the set is never empty |
| `Analyzer.TagCounts` | src/main/java/in/anuragbanerjee/analyzer/FlowLogAnalyzer.java:57-70 | every tag present counts between one and the number of records |
| `Analyzer.PortProtocolCounts` | src/main/java/in/anuragbanerjee/analyzer/FlowLogAnalyzer.java:72-79 | every key present counts between one and the number of records |
| `Analyzer.TagCountsOfOneMore` | src/main/java/in/anuragbanerjee/analyzer/FlowLogAnalyzer.java:59-68 | one more record adds one to exactly the tags it carries, `untagged` when it is unmapped |
| `Analyzer.RecordsTagged` | src/main/java/in/anuragbanerjee/analyzer/FlowLogAnalyzer.java:57-70 | a tag is carried by at most as many records as there are |
| `Analyzer.TagCountsAreRecordCounts` | src/main/java/in/anuragbanerjee/analyzer/FlowLogAnalyzer.java:57-70 | a tag's count is the number of records that carry it; a tag is present exactly when some record carries it |
| `Analyzer.PortProtocolCountsAreMultiplicities` | src/main/java/in/anuragbanerjee/analyzer/FlowLogAnalyzer.java:72-79 | a key's count is its multiplicity among the records' keys; a key is present exactly when some record has it |
| `Analyzer.UntaggedAbsentWhenAllMapped` | src/main/java/in/anuragbanerjee/analyzer/FlowLogAnalyzer.java:65-67 | when every record is mapped and no rule uses the tag `untagged`, that bucket does not appear |
| `Analyzer.SumValuesIncrement` | src/main/java/in/anuragbanerjee/analyzer/FlowLogAnalyzer.java:76 | one `merge` adds one to the total |
| `Analyzer.SumValuesAddEach` | src/main/java/in/anuragbanerjee/analyzer/FlowLogAnalyzer.java:62-64 | the tags of a set add the size of the set to the total |
| `Analyzer.Weight` | src/main/java/in/anuragbanerjee/analyzer/FlowLogAnalyzer.java:60-67 | a mapped record weighs the size of its tag set; an unmapped one weighs one |
| `Analyzer.TagCountsTotal` | src/main/java/in/anuragbanerjee/analyzer/FlowLogAnalyzer.java:57-70 | the tag counts add up to the total weight of the records |
| `Analyzer.PortProtocolCountsTotal` | src/main/java/in/anuragbanerjee/analyzer/FlowLogAnalyzer.java:72-79 | the key counts add up to the number of records |
| `Analyzer.FlowLogAnalyzer.constructor` | src/main/java/in/anuragbanerjee/analyzer/FlowLogAnalyzer.java:21-26 | the analyzer holds the given strategy and tag mapper |
| `Analyzer.FlowLogAnalyzer.Create` | src/main/java/in/anuragbanerjee/analyzer/FlowLogAnalyzer.java:21-26 | an unsupported format fails before any analyzer exists; otherwise it makes a new analyzer with the default strategy and the given mapper |
| `Analyzer.FlowLogAnalyzer.ParseFlowLogFile` | src/main/java/in/anuragbanerjee/analyzer/FlowLogAnalyzer.java:37-55 | the records of the lines that parse, in line order |
| `Analyzer.FlowLogAnalyzer.MapTagCounts` | src/main/java/in/anuragbanerjee/analyzer/FlowLogAnalyzer.java:57-70 | the tag counts of the records against the mapper's current map |
| `Analyzer.FlowLogAnalyzer.MapPortProtocolCounts` | src/main/java/in/anuragbanerjee/analyzer/FlowLogAnalyzer.java:72-79 | the per-key counts of the records |
| `Analyzer.FlowLogAnalyzer.Analyze` | src/main/java/in/anuragbanerjee/analyzer/FlowLogAnalyzer.java:28-35 | the lookup table is loaded before counting, so every record is resolved against the complete map; both count maps come from the parsed records |

## Left out

- File reading (`BufferedReader`, `IOException` → `RuntimeException`): the lookup table and
  the flow log are given as sequences of lines.
- The `System.err` messages for skipped lines: they are output only.
- `OutputGenerator.writeOutput` and `Application`: `Analyze` returns the two count maps
  instead of writing them. `OutputGenerator` and `Application` are not part of this model.
- `LogParser`, including `setStrategy`: the analyzer calls its strategy's `Parse` directly,
  which is what `parseLogEntry` does (`LogParser.java:17-19`).
- `LogParsingStrategy` is an interface with one implementation. It is modelled as a
  one-variant datatype.
- `toString` of `LogEntry` and `PortProtocolKey`: they are only used for display.
- Exceptions: each `IllegalArgumentException` (and `NumberFormatException`) is a `Failure`
  value. The model keeps the reason, not the message text.
- `Analyzer.Increment`: the counts are unbounded `nat`s. The source's `Integer` counts would
  wrap after 2^31 - 1 records.
- `HashMap` and `HashSet` iteration order: maps and sets are values. `MergeEach` picks the
  tags in any order, and its result is proved not to depend on that order.
- `TagMapping.TagMapper.AssociatedTags` returns the tag set as a value. The source returns the
  stored `HashSet`, which a caller could mutate. No caller in the core does.
- The Builder models never-set `String` fields (Java `null`) as the empty string. The parser
  sets every field.
- `JavaLang.ToLower`: lowercases ASCII letters only, because Java's locale-dependent Unicode
  case mapping is not modelled. Non-ASCII letters are kept.
- `JavaLang.ParseDecimal`: accepts ASCII digits only. Java's `parseInt` also accepts other
  Unicode decimal digits.
- `PortProtocolKeys.HashCode` and `JavaLang.StringHash` hash characters by their code point. Java hashes UTF-16 code
  units, which differ above U+FFFF. The map semantics depend only on `HashAgreesWithEquality`.
- `LogEntries.ProtocolNameExamples` checks four catalogue entries. `CatalogName` holds all 51.

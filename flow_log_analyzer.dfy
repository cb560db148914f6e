/**
 * The aggregator: flow-log lines are parsed with the selected strategy, failing lines are
 * skipped, and the surviving records are counted twice — once per tag (records without a
 * mapping go to the "untagged" bucket) and once per (destination port, protocol name) key.
 */
module Analyzer {
  import opened Wrappers
  import opened LogEntries
  import opened PortProtocolKeys
  import opened TagMapping
  import opened StrategyFactory
  import VpcStrategy

  /** The bucket of records that no lookup rule maps. */
  const Untagged: string := "untagged"

  // ---------------------------------------------------------------------------
  // Parsing the flow log

  /** A parser of one flow-log line; the analyzer's is its strategy's `Parse`. The lemmas of
      this section hold for any parser. */
  type LineParser = string -> Result<LogEntry, VpcStrategy.ParseError>

  /** The records of the lines that parse, in line order; failing lines are skipped. */
  function ParsedEntries(parse: LineParser, lines: seq<string>): (r: seq<LogEntry>)
    ensures |r| <= |lines|
    decreases |lines|
  {
    if lines == [] then []
    else
      var earlier := ParsedEntries(parse, lines[..|lines| - 1]);
      match parse(lines[|lines| - 1])
      case Success(e) => earlier + [e]
      case Failure(_) => earlier
  }

  /** Parsing is line by line: the records of two consecutive stretches of the log are the
      records of the first followed by those of the second. */
  lemma {:induction false} ParsedEntriesAppend(parse: LineParser, a: seq<string>, b: seq<string>)
    ensures ParsedEntries(parse, a + b) == ParsedEntries(parse, a) + ParsedEntries(parse, b)
    decreases |b|
  {
    if b == [] {
      assert a + b == a;
    } else {
      var init := b[..|b| - 1];
      assert (a + b)[..|a + b| - 1] == a + init;
      assert (a + b)[|a + b| - 1] == b[|b| - 1];
      ParsedEntriesAppend(parse, a, init);
    }
  }

  /** A single line contributes its record when it parses and nothing when it fails. */
  lemma ParsedEntriesOfLine(parse: LineParser, line: string)
    ensures parse(line).Success? ==> ParsedEntries(parse, [line]) == [parse(line).value]
    ensures parse(line).Failure? ==> ParsedEntries(parse, [line]) == []
  {
    assert [line][..0] == [];
  }

  /** The records of the first `i + 1` lines: those of the first `i`, then line `i`'s. */
  lemma ParsedEntriesStep(parse: LineParser, lines: seq<string>, i: nat)
    requires i < |lines|
    ensures ParsedEntries(parse, lines[..i + 1]) == ParsedEntries(parse, lines[..i]) + ParsedEntries(parse, [lines[i]])
  {
    assert lines[..i] + [lines[i]] == lines[..i + 1];
    ParsedEntriesAppend(parse, lines[..i], [lines[i]]);
  }

  /** Every record kept is the parse of some input line. */
  lemma {:induction false} ParsedEntriesAreParses(parse: LineParser, lines: seq<string>, e: LogEntry)
    requires e in ParsedEntries(parse, lines)
    ensures exists i :: 0 <= i < |lines| && parse(lines[i]) == Success(e)
    decreases |lines|
  {
    var init, last := lines[..|lines| - 1], lines[|lines| - 1];
    if e in ParsedEntries(parse, init) {
      ParsedEntriesAreParses(parse, init, e);
      var i :| 0 <= i < |init| && parse(init[i]) == Success(e);
      assert lines[i] == init[i];
    } else {
      assert parse(last) == Success(e);
    }
  }

  /** So every record the analyzer keeps satisfies what the parser promises of an accepted
      record. */
  lemma ParsedRecordsAreAccepted(strategy: LogParsingStrategy, lines: seq<string>, e: LogEntry)
    requires e in ParsedEntries(strategy.Parse, lines)
    ensures e.version == VpcStrategy.SupportedVersion && 0 <= e.destinationPort <= VpcStrategy.MaxPort
    ensures e.sourcePort == Sentinel || 0 <= e.sourcePort <= VpcStrategy.MaxPort
    ensures e.protocol >= 0
  {
    ParsedEntriesAreParses(strategy.Parse, lines, e);
    var i :| 0 <= i < |lines| && strategy.Parse(lines[i]) == Success(e);
    assert VpcStrategy.Parse(lines[i]) == Success(e);
  }

  /** When every line parses, no record is lost. */
  lemma {:induction false} ParsedEntriesAllParse(parse: LineParser, lines: seq<string>)
    requires forall i :: 0 <= i < |lines| ==> parse(lines[i]).Success?
    ensures |ParsedEntries(parse, lines)| == |lines|
    decreases |lines|
  {
    if lines != [] {
      var init := lines[..|lines| - 1];
      assert forall i :: 0 <= i < |init| ==> init[i] == lines[i];
      ParsedEntriesAllParse(parse, init);
    }
  }

  // ---------------------------------------------------------------------------
  // Counting

  /** The count stored for a key, zero when the key is absent. */
  function CountOf<K>(counts: map<K, nat>, k: K): nat {
    if k in counts then counts[k] else 0
  }

  /** `merge(k, 1, Integer::sum)`: one more for `k`, which is added with count 1 if absent. */
  function Increment<K(!new)>(counts: map<K, nat>, k: K): (r: map<K, nat>)
    ensures r.Keys == counts.Keys + {k}
    ensures CountOf(r, k) == CountOf(counts, k) + 1
    ensures forall j :: j != k ==> CountOf(r, j) == CountOf(counts, j)
  {
    counts[k := CountOf(counts, k) + 1]
  }

  /** One more for every key of `keys`, in whatever order they are visited. */
  function AddEach<K(!new)>(counts: map<K, nat>, keys: set<K>): (r: map<K, nat>)
    ensures r.Keys == counts.Keys + keys
    ensures forall j :: CountOf(r, j) == CountOf(counts, j) + (if j in keys then 1 else 0)
  {
    map j | j in counts.Keys + keys :: CountOf(counts, j) + (if j in keys then 1 else 0)
  }

  /** Visiting no key changes nothing. */
  lemma AddEachNone<K(!new)>(counts: map<K, nat>)
    ensures AddEach(counts, {}) == counts
  {
    var r := AddEach(counts, {});
    assert forall j :: j in r ==> r[j] == CountOf(r, j);
  }

  /** Visiting one more key of a set is one more increment. */
  lemma AddEachStep<K(!new)>(counts: map<K, nat>, done: set<K>, k: K)
    requires k !in done
    ensures AddEach(counts, done + {k}) == Increment(AddEach(counts, done), k)
  {
    var lhs, rhs := AddEach(counts, done + {k}), Increment(AddEach(counts, done), k);
    assert forall j :: j in lhs ==> CountOf(lhs, j) == CountOf(rhs, j);
  }

  /** The tags a record adds one to: its tag set when it is mapped, else the untagged
      bucket alone. */
  function Contribution(m: TagMap, e: LogEntry): (r: set<string>)
    ensures Lookup(m, e).None? ==> r == {Untagged}
    ensures Lookup(m, e).Some? ==> r == m[KeyOf(e)]
    ensures NonEmptyTagSets(m) ==> r != {}
  {
    match Lookup(m, e)
    case Some(tags) => tags
    case None => {Untagged}
  }

  /** The tag counts of a list of records, as `mapTagCounts` accumulates them with the tag
      map `m`. Every count present is between one and the number of records. */
  function TagCounts(m: TagMap, entries: seq<LogEntry>): (r: map<string, nat>)
    ensures forall t :: t in r ==> 1 <= r[t] <= |entries|
    decreases |entries|
  {
    if entries == [] then map[]
    else AddEach(TagCounts(m, entries[..|entries| - 1]), Contribution(m, entries[|entries| - 1]))
  }

  /** The per-key counts of a list of records, as `mapPortProtocolCounts` accumulates them;
      the same bounds hold. */
  function PortProtocolCounts(entries: seq<LogEntry>): (r: map<PortProtocolKey, nat>)
    ensures forall k :: k in r ==> 1 <= r[k] <= |entries|
    decreases |entries|
  {
    if entries == [] then map[]
    else Increment(PortProtocolCounts(entries[..|entries| - 1]), KeyOf(entries[|entries| - 1]))
  }

  /** What one more record does to the tag counts: an unmapped record adds exactly one to
      "untagged" and nothing to any other tag; a mapped record adds exactly one to each tag
      of its set and nothing to any other tag — "untagged" included, unless a rule names a
      tag literally called "untagged". */
  lemma TagCountsOfOneMore(m: TagMap, entries: seq<LogEntry>, e: LogEntry, t: string)
    ensures var before, after := TagCounts(m, entries), TagCounts(m, entries + [e]);
      && (t in after <==> t in before || t in Contribution(m, e))
      && (Lookup(m, e).None? ==> CountOf(after, t) == CountOf(before, t) + (if t == Untagged then 1 else 0))
      && (Lookup(m, e).Some? ==>
            CountOf(after, t) == CountOf(before, t) + (if t in Lookup(m, e).value then 1 else 0))
  {
    assert (entries + [e])[..|entries|] == entries;
  }

  /** How many records a tag counts: those whose contribution holds it. */
  function RecordsTagged(m: TagMap, entries: seq<LogEntry>, t: string): (n: nat)
    ensures n <= |entries|
    decreases |entries|
  {
    if entries == [] then 0
    else
      RecordsTagged(m, entries[..|entries| - 1], t)
        + (if t in Contribution(m, entries[|entries| - 1]) then 1 else 0)
  }

  /** The count of a tag is the number of records that carry it, and a tag appears in the
      result exactly when at least one record carries it. */
  lemma {:induction false} TagCountsAreRecordCounts(m: TagMap, entries: seq<LogEntry>, t: string)
    ensures CountOf(TagCounts(m, entries), t) == RecordsTagged(m, entries, t)
    ensures t in TagCounts(m, entries) <==> RecordsTagged(m, entries, t) > 0
    decreases |entries|
  {
    if entries != [] {
      TagCountsAreRecordCounts(m, entries[..|entries| - 1], t);
    }
  }

  /** The key of every record, in order. */
  function KeysOf(entries: seq<LogEntry>): (r: seq<PortProtocolKey>)
    ensures |r| == |entries|
    decreases |entries|
  {
    if entries == [] then [] else KeysOf(entries[..|entries| - 1]) + [KeyOf(entries[|entries| - 1])]
  }

  /** The count of a key is the number of records with that key, and a key appears in the
      result exactly when at least one record has it. */
  lemma {:induction false} PortProtocolCountsAreMultiplicities(entries: seq<LogEntry>, k: PortProtocolKey)
    ensures CountOf(PortProtocolCounts(entries), k) == multiset(KeysOf(entries))[k]
    ensures k in PortProtocolCounts(entries) <==> k in KeysOf(entries)
    decreases |entries|
  {
    if entries != [] {
      PortProtocolCountsAreMultiplicities(entries[..|entries| - 1], k);
    }
  }

  /** When every record is mapped and no rule uses the tag "untagged", the untagged bucket
      never appears. */
  lemma {:induction false} UntaggedAbsentWhenAllMapped(m: TagMap, entries: seq<LogEntry>)
    requires forall i :: 0 <= i < |entries| ==> KeyOf(entries[i]) in m && Untagged !in m[KeyOf(entries[i])]
    ensures Untagged !in TagCounts(m, entries)
    decreases |entries|
  {
    if entries != [] {
      var init := entries[..|entries| - 1];
      assert forall i :: 0 <= i < |init| ==> init[i] == entries[i];
      UntaggedAbsentWhenAllMapped(m, init);
    }
  }

  // ---------------------------------------------------------------------------
  // Totals

  /** The sum of the counts of a map. */
  ghost function SumValues<K(!new)>(counts: map<K, nat>): nat
    decreases |counts|
  {
    if counts == map[] then 0
    else
      var k :| k in counts;
      assert |counts - {k}| < |counts| by {
        assert (counts - {k}).Keys == counts.Keys - {k};
      }
      counts[k] + SumValues(counts - {k})
  }

  /** The sum can be taken starting from any key. */
  lemma SumValuesRemove<K(!new)>(counts: map<K, nat>, k: K)
    requires k in counts
    ensures SumValues(counts) == counts[k] + SumValues(counts - {k})
    decreases |counts|
  {
    var j :| j in counts && SumValues(counts) == counts[j] + SumValues(counts - {j});
    if j != k {
      assert (counts - {j}).Keys == counts.Keys - {j};
      assert (counts - {k}).Keys == counts.Keys - {k};
      SumValuesRemove(counts - {j}, k);
      SumValuesRemove(counts - {k}, j);
      assert counts - {j} - {k} == counts - {k} - {j};
    }
  }

  /** One increment adds one to the total. */
  lemma SumValuesIncrement<K(!new)>(counts: map<K, nat>, k: K)
    ensures SumValues(Increment(counts, k)) == SumValues(counts) + 1
  {
    var r := Increment(counts, k);
    SumValuesRemove(r, k);
    if k in counts {
      SumValuesRemove(counts, k);
      assert r - {k} == counts - {k};
    } else {
      assert r - {k} == counts;
    }
  }

  /** Adding one for each key of a set adds the size of the set to the total. */
  lemma {:induction false} SumValuesAddEach<K(!new)>(counts: map<K, nat>, keys: set<K>)
    ensures SumValues(AddEach(counts, keys)) == SumValues(counts) + |keys|
    decreases |keys|
  {
    if keys == {} {
      AddEachNone(counts);
    } else {
      var k :| k in keys;
      var rest := keys - {k};
      assert rest + {k} == keys;
      AddEachStep(counts, rest, k);
      SumValuesAddEach(counts, rest);
      SumValuesIncrement(AddEach(counts, rest), k);
    }
  }

  /** How much a record adds to the tag total: the size of its tag set when mapped, else 1. */
  function Weight(m: TagMap, e: LogEntry): (w: nat)
    ensures Lookup(m, e).None? ==> w == 1
    ensures Lookup(m, e).Some? ==> w == |Lookup(m, e).value|
  {
    |Contribution(m, e)|
  }

  function TotalWeight(m: TagMap, entries: seq<LogEntry>): nat
    decreases |entries|
  {
    if entries == [] then 0
    else TotalWeight(m, entries[..|entries| - 1]) + Weight(m, entries[|entries| - 1])
  }

  /** The tag counts add up to the sum over records of the size of the tag set, one for an
      unmapped record. */
  lemma {:induction false} TagCountsTotal(m: TagMap, entries: seq<LogEntry>)
    ensures SumValues(TagCounts(m, entries)) == TotalWeight(m, entries)
    decreases |entries|
  {
    if entries == [] {
      assert TagCounts(m, entries) == map[];
    } else {
      var init := entries[..|entries| - 1];
      TagCountsTotal(m, init);
      SumValuesAddEach(TagCounts(m, init), Contribution(m, entries[|entries| - 1]));
    }
  }

  /** Every record counts for exactly one key, so the port/protocol counts add up to the
      number of records. */
  lemma {:induction false} PortProtocolCountsTotal(entries: seq<LogEntry>)
    ensures SumValues(PortProtocolCounts(entries)) == |entries|
    decreases |entries|
  {
    if entries == [] {
      assert PortProtocolCounts(entries) == map[];
    } else {
      var init := entries[..|entries| - 1];
      PortProtocolCountsTotal(init);
      SumValuesIncrement(PortProtocolCounts(init), KeyOf(entries[|entries| - 1]));
    }
  }

  /** The inner loop of `mapTagCounts`: one `merge` per tag of the set, in the set's
      iteration order, which the result does not depend on. */
  method MergeEach(counts: map<string, nat>, tags: set<string>) returns (r: map<string, nat>)
    ensures r == AddEach(counts, tags)
  {
    r := counts;
    var remaining := tags;
    AddEachNone(counts);
    while remaining != {}
      invariant remaining <= tags
      invariant r == AddEach(counts, tags - remaining)
      decreases remaining
    {
      var tag :| tag in remaining;
      AddEachStep(counts, tags - remaining, tag);
      assert (tags - remaining) + {tag} == tags - (remaining - {tag});
      r := Increment(r, tag);
      remaining := remaining - {tag};
    }
  }

  // ---------------------------------------------------------------------------
  // The analyzer object

  class FlowLogAnalyzer {
    const strategy: LogParsingStrategy
    const tagMapper: TagMapper

    constructor (strategy: LogParsingStrategy, tagMapper: TagMapper)
      ensures this.strategy == strategy && this.tagMapper == tagMapper
    {
      this.strategy := strategy;
      this.tagMapper := tagMapper;
    }

    /** `new FlowLogAnalyzer(logFormat, tagMapper, ...)`: the strategy is chosen first, and
        an unsupported format fails before any analyzer exists. */
    static method Create(logFormat: string, tagMapper: TagMapper) returns (r: Result<FlowLogAnalyzer, FactoryError>)
      ensures CreateStrategy(logFormat).Failure? ==> r == Failure(UnsupportedFormat(logFormat))
      ensures CreateStrategy(logFormat).Success? ==>
                r.Success? && fresh(r.value) && r.value.strategy == DefaultVpcFlowLog
                && r.value.tagMapper == tagMapper
    {
      match CreateStrategy(logFormat) {
        case Failure(err) =>
          r := Failure(err);
        case Success(strategy) =>
          var analyzer := new FlowLogAnalyzer(strategy, tagMapper);
          r := Success(analyzer);
      }
    }

    /** `parseFlowLogFile`, over the lines of the flow log. */
    method ParseFlowLogFile(lines: seq<string>) returns (entries: seq<LogEntry>)
      ensures entries == ParsedEntries(strategy.Parse, lines)
    {
      entries := [];
      for i := 0 to |lines|
        invariant entries == ParsedEntries(strategy.Parse, lines[..i])
      {
        ParsedEntriesStep(strategy.Parse, lines, i);
        ParsedEntriesOfLine(strategy.Parse, lines[i]);
        match strategy.Parse(lines[i]) {
          case Success(e) => entries := entries + [e];
          case Failure(_) =>
        }
      }
      assert lines[..|lines|] == lines;
    }

    /** `mapTagCounts`, against the tag mapper's current map. */
    method MapTagCounts(entries: seq<LogEntry>) returns (counts: map<string, nat>)
      requires tagMapper.Valid()
      ensures counts == TagCounts(tagMapper.tagMapping, entries)
    {
      counts := map[];
      for i := 0 to |entries|
        invariant counts == TagCounts(tagMapper.tagMapping, entries[..i])
      {
        assert entries[..i + 1][..i] == entries[..i];
        var associated := tagMapper.AssociatedTags(entries[i]);
        var tags := if associated.Some? then associated.value else {Untagged};
        assert tags == Contribution(tagMapper.tagMapping, entries[i]);
        counts := MergeEach(counts, tags);
      }
      assert entries[..|entries|] == entries;
    }

    /** `mapPortProtocolCounts`. */
    method MapPortProtocolCounts(entries: seq<LogEntry>) returns (counts: map<PortProtocolKey, nat>)
      ensures counts == PortProtocolCounts(entries)
    {
      counts := map[];
      for i := 0 to |entries|
        invariant counts == PortProtocolCounts(entries[..i])
      {
        assert entries[..i + 1][..i] == entries[..i];
        var key := PortProtocolKey(entries[i].destinationPort, entries[i].ProtocolAsString());
        counts := Increment(counts, key);
      }
      assert entries[..|entries|] == entries;
    }

    /** `analyze`: the whole lookup table is loaded before any flow line is parsed, so every
        record is resolved against the complete map. The two count maps are returned in
        place of being written out. */
    method Analyze(flowLines: seq<string>, lookupLines: seq<string>)
      returns (tagCounts: map<string, nat>, portProtocolCounts: map<PortProtocolKey, nat>)
      requires tagMapper.Valid()
      modifies tagMapper
      ensures tagMapper.Valid()
      ensures tagMapper.tagMapping == LoadAll(old(tagMapper.tagMapping), lookupLines)
      ensures tagCounts == TagCounts(LoadAll(old(tagMapper.tagMapping), lookupLines), ParsedEntries(strategy.Parse, flowLines))
      ensures portProtocolCounts == PortProtocolCounts(ParsedEntries(strategy.Parse, flowLines))
    {
      tagMapper.LoadTagMappings(lookupLines);
      var entries := ParseFlowLogFile(flowLines);
      tagCounts := MapTagCounts(entries);
      portProtocolCounts := MapPortProtocolCounts(entries);
    }
  }
}

/**
 * The tag resolver: lookup-table lines `dstport,protocol,tag` are folded into a map from
 * (port, protocol) keys to sets of tags, with union semantics; malformed lines are skipped.
 * A record is then resolved to the tag set stored under its key, or to nothing.
 */
module TagMapping {
  import opened Wrappers
  import opened JavaLang
  import opened LogEntries
  import opened PortProtocolKeys

  const LookupFields: nat := 3

  type TagMap = map<PortProtocolKey, set<string>>

  /** One lookup rule: records under `key` carry `tag`. */
  datatype Rule = Rule(key: PortProtocolKey, tag: string)

  /** Why a lookup line was skipped. */
  datatype RuleError =
    | WrongFieldCount(expected: nat, actual: nat, line: string)
    | BadPort(value: string)

  /** One lookup line: exactly three comma-separated parts (trailing empty parts do not
      count), an `int` port, and protocol and tag stored lowercased. The port is not
      range-checked and the protocol is not checked against the catalogue. */
  function ParseRule(line: string): (r: Result<Rule, RuleError>)
    ensures var p := Split(line, ',');
      && (|p| != LookupFields ==> r == Failure(WrongFieldCount(LookupFields, |p|, line)))
      && (|p| == LookupFields && ParseInt(p[0]).None? ==> r == Failure(BadPort(p[0])))
      && (|p| == LookupFields && ParseInt(p[0]).Some? ==> r.Success? && r.value.key.port == ParseInt(p[0]).value)
      && (r.Success? ==> |p| == LookupFields && ParseDecimal(p[0]) == Some(r.value.key.port as int)
                         && r.value.key.protocol == ToLower(p[1]) && r.value.tag == ToLower(p[2]))
    ensures r.Success? ==> NoUpper(r.value.key.protocol) && NoUpper(r.value.tag)
  {
    var parts := Split(line, ',');
    if |parts| != LookupFields then Failure(WrongFieldCount(LookupFields, |parts|, line))
    else
      match ParseInt(parts[0])
      case None => Failure(BadPort(parts[0]))
      case Some(port) => Success(Rule(PortProtocolKey(port, ToLower(parts[1])), ToLower(parts[2])))
  }

  /** Every stored key has at least one tag. */
  ghost predicate NonEmptyTagSets(m: TagMap) {
    forall k :: k in m ==> m[k] != {}
  }

  /** Adds a rule's tag to the set of its key, keeping the tags stored before; no other
      key is touched. */
  function AddRule(m: TagMap, rule: Rule): (r: TagMap)
    ensures r.Keys == m.Keys + {rule.key}
    ensures rule.tag in r[rule.key]
    ensures forall t :: t in r[rule.key] <==> t == rule.tag || (rule.key in m && t in m[rule.key])
    ensures forall k :: k in m && k != rule.key ==> r[k] == m[k]
  {
    var associated := if rule.key in m then m[rule.key] else {};
    m[rule.key := associated + {rule.tag}]
  }

  /** The effect of one line of the lookup table. */
  function LoadLine(m: TagMap, line: string): (r: TagMap)
    ensures |Split(line, ',')| != LookupFields ==> r == m
    ensures |Split(line, ',')| == LookupFields && ParseInt(Split(line, ',')[0]).None? ==> r == m
    ensures ParseRule(line).Success? ==> r == AddRule(m, ParseRule(line).value)
    ensures m.Keys <= r.Keys && forall k :: k in m ==> m[k] <= r[k]
    ensures NonEmptyTagSets(m) ==> NonEmptyTagSets(r)
  {
    match ParseRule(line)
    case Success(rule) => AddRule(m, rule)
    case Failure(_) => m
  }

  /** The effect of the whole lookup table, line by line, on an existing map. Loading never
      removes a key or a tag, and keeps every tag set non-empty. */
  function LoadAll(m: TagMap, lines: seq<string>): (r: TagMap)
    ensures m.Keys <= r.Keys && forall k :: k in m ==> m[k] <= r[k]
    ensures NonEmptyTagSets(m) ==> NonEmptyTagSets(r)
    decreases |lines|
  {
    if lines == [] then m else LoadLine(LoadAll(m, lines[..|lines| - 1]), lines[|lines| - 1])
  }

  /** `getAssociatedTags`: the tags stored under the record's (destination port, protocol
      name) key, or `None` when no rule names that key. */
  function Lookup(m: TagMap, e: LogEntry): (r: Option<set<string>>)
    ensures r.Some? <==> KeyOf(e) in m
    ensures r.Some? ==> r.value == m[KeyOf(e)]
    ensures NonEmptyTagSets(m) && r.Some? ==> r.value != {}
  {
    var key := KeyOf(e);
    if key in m then Some(m[key]) else None
  }

  // ---------------------------------------------------------------------------
  // What a loaded map holds

  /** Some line of the table is a rule giving `tag` to `key`. */
  ghost predicate HasRule(lines: seq<string>, key: PortProtocolKey, tag: string) {
    exists i :: 0 <= i < |lines| && ParseRule(lines[i]) == Success(Rule(key, tag))
  }

  /** Some line of the table is a rule for `key`. */
  ghost predicate HasRuleFor(lines: seq<string>, key: PortProtocolKey) {
    exists i :: 0 <= i < |lines| && ParseRule(lines[i]).Success? && ParseRule(lines[i]).value.key == key
  }

  lemma HasRuleSnoc(init: seq<string>, last: string, key: PortProtocolKey, tag: string)
    ensures HasRule(init + [last], key, tag) <==> HasRule(init, key, tag) || ParseRule(last) == Success(Rule(key, tag))
  {
    var lines := init + [last];
    if HasRule(init, key, tag) {
      var i :| 0 <= i < |init| && ParseRule(init[i]) == Success(Rule(key, tag));
      assert lines[i] == init[i];
    }
    if HasRule(lines, key, tag) {
      var i :| 0 <= i < |lines| && ParseRule(lines[i]) == Success(Rule(key, tag));
      if i < |init| { assert lines[i] == init[i]; }
    }
    if ParseRule(last) == Success(Rule(key, tag)) {
      assert lines[|init|] == last;
    }
  }

  lemma HasRuleForSnoc(init: seq<string>, last: string, key: PortProtocolKey)
    ensures HasRuleFor(init + [last], key) <==>
      HasRuleFor(init, key) || (ParseRule(last).Success? && ParseRule(last).value.key == key)
  {
    var lines := init + [last];
    if HasRuleFor(init, key) {
      var i :| 0 <= i < |init| && ParseRule(init[i]).Success? && ParseRule(init[i]).value.key == key;
      assert lines[i] == init[i];
    }
    if HasRuleFor(lines, key) {
      var i :| 0 <= i < |lines| && ParseRule(lines[i]).Success? && ParseRule(lines[i]).value.key == key;
      if i < |init| { assert lines[i] == init[i]; }
    }
    if ParseRule(last).Success? && ParseRule(last).value.key == key {
      assert lines[|init|] == last;
    }
  }

  /** A key is in the loaded map exactly when it was there before or some rule names it. */
  lemma {:induction false} LoadAllKeys(m: TagMap, lines: seq<string>, key: PortProtocolKey)
    ensures key in LoadAll(m, lines) <==> key in m || HasRuleFor(lines, key)
    decreases |lines|
  {
    if lines != [] {
      var init, last := lines[..|lines| - 1], lines[|lines| - 1];
      assert init + [last] == lines;
      LoadAllKeys(m, init, key);
      HasRuleForSnoc(init, last, key);
    }
  }

  /** A tag is stored under a key of the loaded map exactly when it was stored there before
      or some rule of the table gives it to that key: loading is the union of the old map
      with the table's rules, whatever their order. */
  lemma {:induction false} LoadAllTags(m: TagMap, lines: seq<string>, key: PortProtocolKey, tag: string)
    ensures var r := LoadAll(m, lines);
      key in r && tag in r[key] <==> (key in m && tag in m[key]) || HasRule(lines, key, tag)
    decreases |lines|
  {
    if lines != [] {
      var init, last := lines[..|lines| - 1], lines[|lines| - 1];
      assert init + [last] == lines;
      LoadAllTags(m, init, key, tag);
      HasRuleSnoc(init, last, key, tag);
    }
  }

  /** Loading two tables one after the other is loading their concatenation. */
  lemma {:induction false} LoadAllAppend(m: TagMap, a: seq<string>, b: seq<string>)
    ensures LoadAll(m, a + b) == LoadAll(LoadAll(m, a), b)
    decreases |b|
  {
    if b == [] {
      assert a + b == a;
    } else {
      var init := b[..|b| - 1];
      assert (a + b)[..|a + b| - 1] == a + init;
      assert (a + b)[|a + b| - 1] == b[|b| - 1];
      LoadAllAppend(m, a, init);
    }
  }

  /** Loading the same table again changes nothing, so repeated runs over the same inputs
      see the same map. */
  lemma LoadAllTwice(m: TagMap, lines: seq<string>)
    ensures LoadAll(LoadAll(m, lines), lines) == LoadAll(m, lines)
  {
    var once := LoadAll(m, lines);
    var twice := LoadAll(once, lines);
    forall k | true
      ensures k in twice <==> k in once
    {
      LoadAllKeys(once, lines, k);
      LoadAllKeys(m, lines, k);
    }
    forall k | k in once
      ensures twice[k] == once[k]
    {
      forall t | true
        ensures t in twice[k] <==> t in once[k]
      {
        LoadAllTags(once, lines, k, t);
        LoadAllTags(m, lines, k, t);
      }
    }
  }

  /** What a query after loading answers: a record is mapped exactly when its key was mapped
      before or some rule names its (destination port, protocol name), and it then carries
      the old tags of that key together with the tags of all such rules. */
  lemma LookupAfterLoad(m: TagMap, lines: seq<string>, e: LogEntry, tag: string)
    ensures var r := Lookup(LoadAll(m, lines), e);
      && (r.Some? <==> KeyOf(e) in m || HasRuleFor(lines, KeyOf(e)))
      && (r.Some? && tag in r.value <==> (KeyOf(e) in m && tag in m[KeyOf(e)]) || HasRule(lines, KeyOf(e), tag))
  {
    LoadAllKeys(m, lines, KeyOf(e));
    LoadAllTags(m, lines, KeyOf(e), tag);
  }

  /** A line of three comma-free parts, the last non-empty, splits into those parts. */
  lemma SplitThree(a: string, b: string, c: string)
    requires ',' !in a && ',' !in b && ',' !in c && c != ""
    ensures Split(a + "," + b + "," + c, ',') == [a, b, c]
  {
    var line := a + "," + b + "," + c;
    CharPiecesPrefix(c, "", ',');
    assert c + "" == c;
    assert CharPieces(c, ',') == [c];
    CharPiecesCons(b, ',', c);
    CharPiecesCons(a, ',', b + [','] + c);
    assert line == a + [','] + (b + [','] + c);
    assert CharPieces(line, ',') == [a, b, c];
    assert line[|a|] == ',';
  }

  /** A well-formed rule line is read as the rule it spells, protocol and tag lowercased.
      The tag must be non-empty: an empty last part is dropped and the line has two parts. */
  lemma RuleLineRoundTrip(port: Int32, protocol: string, tag: string)
    requires ',' !in protocol && ',' !in tag && tag != ""
    ensures ParseRule(IntToString(port) + "," + protocol + "," + tag)
         == Success(Rule(PortProtocolKey(port, ToLower(protocol)), ToLower(tag)))
  {
    IntToStringPlain(port);
    ParseIntOfIntToString(port);
    SplitThree(IntToString(port), protocol, tag);
  }

  /** A line of three parts whose first part does not start like a number — the header
      line `dstport,protocol,tag` among them — is skipped and changes nothing. */
  lemma NonNumericPortSkipped(m: TagMap, port: string, protocol: string, tag: string)
    requires ',' !in port && ',' !in protocol && ',' !in tag && tag != ""
    requires port != [] && !IsDigit(port[0]) && port[0] != '-' && port[0] != '+'
    ensures ParseRule(port + "," + protocol + "," + tag) == Failure(BadPort(port))
    ensures LoadLine(m, port + "," + protocol + "," + tag) == m
  {
    SplitThree(port, protocol, tag);
  }

  /** Any three-part line whose port `parseInt` accepts, however it is written (a plus
      sign, leading zeros), is loaded as the rule for that port. */
  lemma WellFormedLineLoaded(m: TagMap, port: string, protocol: string, tag: string)
    requires ',' !in port && ',' !in protocol && ',' !in tag && tag != ""
    requires ParseInt(port).Some?
    ensures var rule := Rule(PortProtocolKey(ParseInt(port).value, ToLower(protocol)), ToLower(tag));
      && ParseRule(port + "," + protocol + "," + tag) == Success(rule)
      && LoadLine(m, port + "," + protocol + "," + tag) == AddRule(m, rule)
  {
    SplitThree(port, protocol, tag);
  }

  /** `Integer.parseInt` reads "+025" as 25. */
  lemma SignedPortParsed()
    ensures ParseInt("+025") == Some(25)
  {
    assert "+025"[1..] == "025" && "025"[..2] == "02" && "02"[..1] == "0" && "0"[..0] == "";
    assert AllDigits("025");
    assert DigitsValue("025") == 25;
  }

  /** A port with a plus sign and a leading zero is accepted, and the rule is lowercased. */
  lemma SignedPortLineLoaded()
    ensures ParseRule("+025,TCP,Web") == Success(Rule(PortProtocolKey(25, "tcp"), "web"))
  {
    assert "+025" + "," + "TCP" + "," + "Web" == "+025,TCP,Web";
    assert ToLower("TCP") == "tcp" && ToLower("Web") == "web";
    SignedPortParsed();
    WellFormedLineLoaded(map[], "+025", "TCP", "Web");
  }

  // ---------------------------------------------------------------------------
  // The resolver object

  class TagMapper {
    var tagMapping: TagMap

    ghost predicate Valid()
      reads this
    {
      NonEmptyTagSets(tagMapping)
    }

    constructor ()
      ensures Valid() && tagMapping == map[]
    {
      tagMapping := map[];
    }

    /** `loadTagMappings`, over the lines of the lookup table: extends the map in place;
        it is never cleared, so repeated loads accumulate. */
    method LoadTagMappings(lines: seq<string>)
      requires Valid()
      modifies this
      ensures Valid()
      ensures tagMapping == LoadAll(old(tagMapping), lines)
    {
      ghost var start := tagMapping;
      var i := 0;
      while i < |lines|
        invariant 0 <= i <= |lines|
        invariant tagMapping == LoadAll(start, lines[..i])
      {
        assert lines[..i + 1][..i] == lines[..i];
        match ParseRule(lines[i]) {
          case Failure(_) =>
          case Success(rule) =>
            var associated := if rule.key in tagMapping then tagMapping[rule.key] else {};
            associated := associated + {rule.tag};
            tagMapping := tagMapping[rule.key := associated];
        }
        i := i + 1;
      }
      assert lines[..i] == lines;
    }

    /** `getAssociatedTags`. */
    function AssociatedTags(e: LogEntry): (r: Option<set<string>>)
      reads this
      requires Valid()
      ensures r.Some? <==> KeyOf(e) in tagMapping
      ensures r.Some? ==> r.value == tagMapping[KeyOf(e)] && r.value != {}
    {
      Lookup(tagMapping, e)
    }
  }
}

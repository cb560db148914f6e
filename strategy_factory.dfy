/**
 * The line-format strategies and the factory that picks one by format name. The strategy
 * interface has one implementation, so it is a datatype with one variant whose `Parse`
 * dispatches to that implementation.
 */
module StrategyFactory {
  import opened Wrappers
  import opened JavaLang
  import opened LogEntries
  import VpcStrategy

  const DefaultFormat: string := "default"

  datatype LogParsingStrategy = DefaultVpcFlowLog {
    /** `LogParsingStrategy.parse`, as implemented by the selected strategy. */
    function Parse(line: string): (r: Result<LogEntry, VpcStrategy.ParseError>)
      ensures this == DefaultVpcFlowLog ==> r == VpcStrategy.Parse(line)
    {
      match this
      case DefaultVpcFlowLog => VpcStrategy.Parse(line)
    }
  }

  datatype FactoryError = UnsupportedFormat(format: string)

  /** `createStrategy`: the format name is compared after ASCII lowercasing. */
  function CreateStrategy(format: string): (r: Result<LogParsingStrategy, FactoryError>)
    ensures r.Success? ==> r.value == DefaultVpcFlowLog
    ensures r.Failure? ==> r.error == UnsupportedFormat(format)
  {
    if ToLower(format) == DefaultFormat then Success(DefaultVpcFlowLog)
    else Failure(UnsupportedFormat(format))
  }

  /** The accepted names are exactly the seven-letter spellings of "default" in which each
      letter is either lower or upper case. */
  lemma AcceptedFormats(format: string)
    ensures CreateStrategy(format).Success? <==>
      |format| == 7 && forall i :: 0 <= i < 7 ==> format[i] == "default"[i] || format[i] == "DEFAULT"[i]
  {
    if |format| == 7 {
      if ToLower(format) == DefaultFormat {
        forall i | 0 <= i < 7 ensures format[i] == "default"[i] || format[i] == "DEFAULT"[i] {
          assert LowerChar(format[i]) == "default"[i];
        }
      }
      if forall i :: 0 <= i < 7 ==> format[i] == "default"[i] || format[i] == "DEFAULT"[i] {
        assert forall i :: 0 <= i < 7 ==> ToLower(format)[i] == DefaultFormat[i];
      }
    } else {
      assert |ToLower(format)| != |DefaultFormat|;
    }
  }

  /** Names that differ only in letter case select the same strategy. */
  lemma CaseInsensitive(a: string, b: string)
    requires ToLower(a) == ToLower(b)
    ensures CreateStrategy(a).Success? <==> CreateStrategy(b).Success?
  {
  }

  lemma FactoryExamples()
    ensures CreateStrategy("default") == Success(DefaultVpcFlowLog)
    ensures CreateStrategy("DEFAULT") == Success(DefaultVpcFlowLog)
    ensures CreateStrategy("Default") == Success(DefaultVpcFlowLog)
    ensures CreateStrategy("csv") == Failure(UnsupportedFormat("csv"))
  {
    AcceptedFormats("DEFAULT");
    AcceptedFormats("Default");
    AcceptedFormats("default");
  }
}

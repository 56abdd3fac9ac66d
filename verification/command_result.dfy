/** The device's application-level reply to every mutating call: a JSON body
    `{result: n}` whose integer `n` is one of a sparse set of return codes. */
module CommandResults {
  import opened Wrappers

  /** The return codes the firmware documents, with their wire values. */
  datatype ReturnCode =
    | Success
    | Unauthorized
    | Mismatch
    | DataMissing
    | OutOfRange
    | DataFormatError
    | RFCodeError
    | PageNotFound
    | NotPermitted
  {
    /** The integer sent on the wire. */
    function Value(): (v: int)
      ensures v in {1, 2, 3, 16, 17, 18, 19, 32, 48}
    {
      match this
      case Success => 1
      case Unauthorized => 2
      case Mismatch => 3
      case DataMissing => 16
      case OutOfRange => 17
      case DataFormatError => 18
      case RFCodeError => 19
      case PageNotFound => 32
      case NotPermitted => 48
    }

    /** The entry of `ReturnCodeMessages` for this code. */
    function Message(): (m: string)
    {
      match this
      case Success => "Success"
      case Unauthorized => "Unauthorized (missing password or password is incorrect)"
      case Mismatch => "Mismatch (new password and confirmation password do not match)"
      case DataMissing => "Data Missing (missing required parameters)"
      case OutOfRange => "Out of Range (value exceeds the acceptable range)"
      case DataFormatError => "Data Format Error (provided data does not match required format)"
      case RFCodeError => "RF code error (RF code does not match required format)"
      case PageNotFound => "Page Not Found (page not found or requested file missing)"
      case NotPermitted => "Not Permitted (cannot operate on the requested station)"
    }
  }

  const UnknownError: string := "Unknown error"

  /** The code with wire value `n`, if any: the lookup `ReturnCodeMessages[n]`
      performs. */
  function CodeOf(n: int): (r: Option<ReturnCode>)
    ensures r.Some? ==> r.value.Value() == n
    ensures r.None? ==> n !in {1, 2, 3, 16, 17, 18, 19, 32, 48}
  {
    if n == 1 then Some(Success)
    else if n == 2 then Some(Unauthorized)
    else if n == 3 then Some(Mismatch)
    else if n == 16 then Some(DataMissing)
    else if n == 17 then Some(OutOfRange)
    else if n == 18 then Some(DataFormatError)
    else if n == 19 then Some(RFCodeError)
    else if n == 32 then Some(PageNotFound)
    else if n == 48 then Some(NotPermitted)
    else None
  }

  /** Every code is found again from its wire value, so the wire values are
      pairwise distinct. */
  lemma CodeOfValue(c: ReturnCode)
    ensures CodeOf(c.Value()) == Some(c)
  {
  }

  /** The JSON body of a command reply. */
  datatype CommandResultJson = CommandResultJson(result: int)

  /** A command reply; `result` is kept as received, recognised or not. */
  datatype CommandResult = CommandResult(result: int)
  {
    /** `isSuccess()`. */
    function IsSuccess(): (b: bool)
      ensures b <==> CodeOf(result) == Some(Success)
    {
      result == Success.Value()
    }

    /** `message`: the table entry, or "Unknown error" when there is none. */
    function Message(): (m: string)
      ensures CodeOf(result).Some? ==> m == CodeOf(result).value.Message()
      ensures CodeOf(result).None? ==> m == UnknownError
    {
      match CodeOf(result)
      case Some(c) => c.Message()
      case None => UnknownError
    }
  }

  /** `CommandResult.fromJson`: the raw integer is stored unchanged. */
  function FromJson(json: CommandResultJson): (r: CommandResult)
    ensures r.result == json.result
  {
    CommandResult(json.result)
  }

  /** Success is exactly the code 1, and a successful reply says "Success". */
  lemma SuccessIffOne(n: int)
    ensures FromJson(CommandResultJson(n)).IsSuccess() <==> n == 1
    ensures n == 1 ==> FromJson(CommandResultJson(n)).Message() == "Success"
  {
  }

  /** Each documented code reads back its own table entry. */
  lemma KnownMessage(c: ReturnCode)
    ensures CommandResult(c.Value()).Message() == c.Message()
    ensures CommandResult(c.Value()).IsSuccess() <==> c == Success
  {
    var r := CommandResult(c.Value());
    CodeOfValue(c);
    assert CodeOf(r.result) == Some(c);
    assert r.IsSuccess() <==> c == Success by {
      CodeOfValue(Success);
    }
  }

  /** The `|| "Unknown error"` fallback never leaves the message empty:
      every table entry has at least one character. */
  lemma MessageNeverEmpty(n: int)
    ensures |CommandResult(n).Message()| > 0
  {
    match CodeOf(n)
    case Some(c) => MessageLength(c);
    case None =>
  }

  /** Any other integer is an unknown error and not a success. */
  lemma UnknownCode(n: int)
    requires n !in {1, 2, 3, 16, 17, 18, 19, 32, 48}
    ensures CommandResult(n).Message() == UnknownError
    ensures !CommandResult(n).IsSuccess()
  {
  }

  /** Distinct codes have distinct messages, and none of them reads
      "Unknown error"; so the message tells which code was received, or that
      it was not a documented one. */
  lemma MessagesDistinguishCodes(a: int, b: int)
    ensures CommandResult(a).Message() == UnknownError <==> CodeOf(a).None?
    ensures CodeOf(a).Some? && CodeOf(b).Some? ==>
              (CommandResult(a).Message() == CommandResult(b).Message() <==> a == b)
  {
    if CodeOf(a).Some? {
      MessageIsNotUnknown(CodeOf(a).value);
    }
    if CodeOf(a).Some? && CodeOf(b).Some? && a != b {
      MessagesInjective(CodeOf(a).value, CodeOf(b).value);
    }
  }

  /** The length of each table entry; the ten messages (with "Unknown
      error") have pairwise different lengths. */
  function MessageLengthOf(c: ReturnCode): nat
  {
    match c
    case Success => 7
    case Unauthorized => 56
    case Mismatch => 62
    case DataMissing => 42
    case OutOfRange => 49
    case DataFormatError => 64
    case RFCodeError => 54
    case PageNotFound => 57
    case NotPermitted => 55
  }

  lemma MessageLength(c: ReturnCode)
    ensures |c.Message()| == MessageLengthOf(c)
  {
    match c
    case Success => SuccessLength();
    case Unauthorized => UnauthorizedLength();
    case Mismatch => MismatchLength();
    case DataMissing => DataMissingLength();
    case OutOfRange => OutOfRangeLength();
    case DataFormatError => DataFormatErrorLength();
    case RFCodeError => RFCodeErrorLength();
    case PageNotFound => PageNotFoundLength();
    case NotPermitted => NotPermittedLength();
  }

  lemma SuccessLength()
    ensures |Success.Message()| == 7
  {
  }

  lemma UnauthorizedLength()
    ensures |Unauthorized.Message()| == 56
  {
  }

  lemma MismatchLength()
    ensures |Mismatch.Message()| == 62
  {
  }

  lemma DataMissingLength()
    ensures |DataMissing.Message()| == 42
  {
  }

  lemma OutOfRangeLength()
    ensures |OutOfRange.Message()| == 49
  {
  }

  lemma DataFormatErrorLength()
    ensures |DataFormatError.Message()| == 64
  {
  }

  lemma RFCodeErrorLength()
    ensures |RFCodeError.Message()| == 54
  {
  }

  lemma PageNotFoundLength()
    ensures |PageNotFound.Message()| == 57
  {
  }

  lemma NotPermittedLength()
    ensures |NotPermitted.Message()| == 55
  {
  }

  lemma MessageIsNotUnknown(c: ReturnCode)
    ensures c.Message() != UnknownError
  {
    MessageLength(c);
    assert |UnknownError| == 13;
  }

  lemma MessagesInjective(c: ReturnCode, d: ReturnCode)
    requires c != d
    ensures c.Message() != d.Message()
  {
    MessageLength(c);
    MessageLength(d);
    LengthsDiffer(c, d);
  }

  lemma LengthsDiffer(c: ReturnCode, d: ReturnCode)
    requires c != d
    ensures MessageLengthOf(c) != MessageLengthOf(d)
  {
  }
}

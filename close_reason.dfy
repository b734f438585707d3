/**
 * The WebSocket close reason of the Jakarta WebSocket API: the status codes of
 * section 7.4.1 of RFC 6455 (plus the IANA-registered 1012 and 1013), the
 * application range 3000-4999 of section 7.4.2, and the reason value object.
 */
module CloseReason {
  import opened Wrappers
  import Decimal

  /** The constants of the `CloseCodes` enum. */
  datatype CloseCodes =
    | NormalClosure | GoingAway | ProtocolError | CannotAccept | Reserved
    | NoStatusCode | ClosedAbnormally | NotConsistent | ViolatedPolicy | TooBig
    | NoExtension | UnexpectedCondition | ServiceRestart | TryAgainLater
    | TlsHandshakeFailure

  /** The code each enum constant is declared with. */
  function Code(k: CloseCodes): (c: int)
    ensures 1000 <= c <= 1015 && c != 1014
  {
    match k
    case NormalClosure => 1000
    case GoingAway => 1001
    case ProtocolError => 1002
    case CannotAccept => 1003
    case Reserved => 1004
    case NoStatusCode => 1005
    case ClosedAbnormally => 1006
    case NotConsistent => 1007
    case ViolatedPolicy => 1008
    case TooBig => 1009
    case NoExtension => 1010
    case UnexpectedCondition => 1011
    case ServiceRestart => 1012
    case TryAgainLater => 1013
    case TlsHandshakeFailure => 1015
  }

  /**
   * A value of the `CloseCode` interface: either an enum constant or the
   * lambda `() -> code` that `getCloseCode` builds for the application range.
   */
  datatype CloseCode = Standard(constant: CloseCodes) | Application(code: int)

  /** `CloseCode.getCode`. */
  function GetCode(c: CloseCode): int {
    match c
    case Standard(k) => Code(k)
    case Application(code) => code
  }

  /** The `IllegalArgumentException` thrown for an unknown code. */
  datatype Error = InvalidCloseCode(code: int)

  /** The codes `getCloseCode` accepts, stated independently of its switch. */
  predicate IsAcceptedCode(code: int) {
    (1000 <= code <= 1013) || code == 1015 || (3000 <= code <= 4999)
  }

  /** `CloseCodes.getCloseCode`: whatever it returns reports the code it was given. */
  function GetCloseCode(code: int): (r: Result<CloseCode, Error>)
    ensures r.Success? ==> GetCode(r.value) == code
    ensures r.Failure? ==> r.error == InvalidCloseCode(code)
  {
    if code > 2999 && code < 5000 then Success(Application(code))
    else if code == 1000 then Success(Standard(NormalClosure))
    else if code == 1001 then Success(Standard(GoingAway))
    else if code == 1002 then Success(Standard(ProtocolError))
    else if code == 1003 then Success(Standard(CannotAccept))
    else if code == 1004 then Success(Standard(Reserved))
    else if code == 1005 then Success(Standard(NoStatusCode))
    else if code == 1006 then Success(Standard(ClosedAbnormally))
    else if code == 1007 then Success(Standard(NotConsistent))
    else if code == 1008 then Success(Standard(ViolatedPolicy))
    else if code == 1009 then Success(Standard(TooBig))
    else if code == 1010 then Success(Standard(NoExtension))
    else if code == 1011 then Success(Standard(UnexpectedCondition))
    else if code == 1012 then Success(Standard(ServiceRestart))
    else if code == 1013 then Success(Standard(TryAgainLater))
    else if code == 1015 then Success(Standard(TlsHandshakeFailure))
    else Failure(InvalidCloseCode(code))
  }

  /** `getCloseCode` succeeds exactly on the registered codes and the application range. */
  lemma GetCloseCodeSucceedsIff(code: int)
    ensures GetCloseCode(code).Success? <==> IsAcceptedCode(code)
  {
  }

  /** Every code of the application range 3000-4999 is accepted as itself. */
  lemma ApplicationRangeAccepted(code: int)
    requires 3000 <= code <= 4999
    ensures GetCloseCode(code) == Success(Application(code))
    ensures GetCode(GetCloseCode(code).value) == code
  {
  }

  /** Looking up an enum constant's own code gives back that constant. */
  lemma {:induction false} ConstantRoundTrip(k: CloseCodes)
    ensures GetCloseCode(Code(k)) == Success(Standard(k))
  {
    match k
    case NormalClosure =>
    case GoingAway =>
    case ProtocolError =>
    case CannotAccept =>
    case Reserved =>
    case NoStatusCode =>
    case ClosedAbnormally =>
    case NotConsistent =>
    case ViolatedPolicy =>
    case TooBig =>
    case NoExtension =>
    case UnexpectedCondition =>
    case ServiceRestart =>
    case TryAgainLater =>
    case TlsHandshakeFailure =>
  }

  /** The gaps: below 1000, the unassigned 1014, 1016-2999 and from 5000 on. */
  lemma RejectedCodes(code: int)
    requires code < 1000 || code == 1014 || (1016 <= code <= 2999) || code >= 5000
    ensures GetCloseCode(code) == Failure(InvalidCloseCode(code))
  {
  }

  /** No two enum constants share a code. */
  lemma CodeInjective(k1: CloseCodes, k2: CloseCodes)
    requires Code(k1) == Code(k2)
    ensures k1 == k2
  {
    ConstantRoundTrip(k1);
    ConstantRoundTrip(k2);
  }

  /**
   * The `CloseReason` object: its constructor stores both arguments and its two
   * getters are the fields. A `null` reason phrase is `None`.
   */
  datatype CloseReason = CloseReason(closeCode: CloseCode, reasonPhrase: Option<string>)
  {
    /** `toString`; string concatenation renders a `null` phrase as "null". */
    function ToString(): string {
      "CloseReason: code [" + Decimal.IntToString(GetCode(closeCode)) + "], reason ["
        + PhraseText(reasonPhrase) + "]"
    }
  }

  function PhraseText(p: Option<string>): string {
    match p
    case None => "null"
    case Some(s) => s
  }

  /** The getters return what the constructor was given. */
  lemma ConstructorStores(c: CloseCode, p: Option<string>)
    ensures CloseReason(c, p).closeCode == c
    ensures CloseReason(c, p).reasonPhrase == p
  {
  }

  const CodePrefix := "CloseReason: code ["
  const ReasonInfix := "], reason ["

  /** Reads the code and the reason text back out of a `toString` result. */
  function ParseToString(s: string): Option<(int, string)> {
    if |s| < |CodePrefix| || s[..|CodePrefix|] != CodePrefix then None
    else
      var (ok, code, rest) := Decimal.ParseInt(s[|CodePrefix|..]);
      if !ok || |rest| < |ReasonInfix| + 1 || rest[..|ReasonInfix|] != ReasonInfix
        || rest[|rest| - 1] != ']'
      then None
      else Some((code, rest[|ReasonInfix|..|rest| - 1]))
  }

  /** `toString` loses nothing: the code and the reason text can be read back from it. */
  lemma ToStringRoundTrip(r: CloseReason)
    ensures ParseToString(r.ToString()) == Some((GetCode(r.closeCode), PhraseText(r.reasonPhrase)))
  {
    var digits := Decimal.IntToString(GetCode(r.closeCode));
    var tail := ReasonInfix + PhraseText(r.reasonPhrase) + "]";
    var s := r.ToString();
    assert s == CodePrefix + (digits + tail);
    assert s[..|CodePrefix|] == CodePrefix;
    assert s[|CodePrefix|..] == digits + tail;
    Decimal.IntRoundTrip(GetCode(r.closeCode), tail);
    assert tail[..|ReasonInfix|] == ReasonInfix;
    assert tail[|ReasonInfix|..|tail| - 1] == PhraseText(r.reasonPhrase);
  }
}

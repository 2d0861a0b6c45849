/** Lists the unix half gets from the host by two calls, the first for the count. */
module Enumeration {

  /** The result codes of the two calls (0 is XR_SUCCESS), the count the first reports, and the list the
      second delivers. */
  datatype HostList<T> = HostList(countCode: int, count: nat, fillCode: int, list: seq<T>)

  datatype Outcome = Success | SizeInsufficient | OutOfMemory | FunctionUnsupported | HostError(code: int)

  /** What the application is answered. `asks` says whether the second call is made, for which there must
      be memory; `fits`, whether the buffer is long enough, or only the count is wanted. */
  function OutcomeOf<T>(host: HostList<T>, asks: bool, memory: bool, fits: bool): (o: Outcome)
    ensures o.Success? || o.SizeInsufficient? <==>
              host.countCode == 0 && (asks ==> memory && host.fillCode == 0)
    ensures o.Success? ==> fits
    ensures o.SizeInsufficient? ==> !fits
    ensures o.OutOfMemory? <==> host.countCode == 0 && asks && !memory
    ensures o.HostError? ==> o.code == (if host.countCode != 0 then host.countCode else host.fillCode) != 0
    ensures !o.FunctionUnsupported?
  {
    if host.countCode != 0 then HostError(host.countCode)
    else if asks && !memory then OutOfMemory
    else if asks && host.fillCode != 0 then HostError(host.fillCode)
    else if fits then Success
    else SizeInsufficient
  }

  /** An outcome that reports a count. */
  predicate Counts(o: Outcome) {
    o.Success? || o.SizeInsufficient?
  }
}

/**
 * The submission workflow: build the payload from the request and the
 * shipped defaults, hand it to the remote ImportQuote operation, and classify
 * what comes back.  The remote operation is a parameter: the model sees only
 * what it returns.
 */
module Submission {
  import opened Wrappers
  import opened Dom
  import opened Amounts
  import opened Defaults
  import opened Payload
  import opened Response

  /** What invoking ImportQuote with a payload yields. */
  datatype Invocation =
    | Responded(response: QuoteServiceResponse, trace: Trace)
      // the client was created and the call raised: the trace is available
    | CallFailed(description: string, trace: Trace)
      // the client constructor itself raised (for instance the WSDL could not be loaded)
    | ClientNotCreated(description: string)

  /** How a PHP call ends: it returns an outcome, or an uncaught error stops the script. */
  datatype Completion = Returned(outcome: Outcome) | Aborted(error: string)

  const TransportFailureMessage := "A communication issue happened while generating the invoice"

  /** What PHP raises when the diagnostics read the trace of a client that was never created. */
  const NullClientError := "Call to a member function __getLastRequest() on null"

  /**
   * The catch block of lines 94-103 as written: the diagnostics read the
   * client's trace, so a failure in the client's constructor ends in a second,
   * uncaught error instead of a CommunicationFailure.
   */
  function TransportFailureAsWritten(inv: Invocation): (c: Completion)
    requires !inv.Responded?
    ensures inv.CallFailed? ==>
      c == Returned(CommunicationFailure(TransportFailureMessage, TraceLines(inv.trace) + [inv.description]))
    ensures inv.ClientNotCreated? ==> c.Aborted?
  {
    match inv
    case CallFailed(description, trace) =>
      Returned(CommunicationFailure(TransportFailureMessage, TraceLines(trace) + [description]))
    case ClientNotCreated(_) => Aborted(NullClientError)
  }

  /** A constructor failure, as written, never reaches the caller as a CommunicationFailure. */
  lemma ClientNotCreatedAborts(description: string)
    ensures TransportFailureAsWritten(ClientNotCreated(description)) == Aborted(NullClientError)
  {
  }

  /**
   * The outcome of one invocation: a reply goes through the validator; a
   * transport failure becomes a CommunicationFailure whose diagnostics are
   * whatever trace exists followed by the failure's description.
   */
  function Classify(inv: Invocation, requested: Amount): (r: Outcome)
    ensures inv.Responded? ==> r == Validate(inv.response, requested, inv.trace)
    ensures !inv.Responded? ==>
      r.CommunicationFailure? && r.message == TransportFailureMessage &&
      |r.diagnostics| >= 1 && r.diagnostics[|r.diagnostics| - 1] == inv.description
    ensures inv.CallFailed? ==> Returned(r) == TransportFailureAsWritten(inv)
    ensures inv.ClientNotCreated? ==> r.diagnostics == [inv.description]
    ensures r.Success? ==> r.quoteNumber >= 1
  {
    match inv
    case Responded(response, trace) => Validate(response, requested, trace)
    case CallFailed(description, trace) =>
      CommunicationFailure(TransportFailureMessage, TraceLines(trace) + [description])
    case ClientNotCreated(description) =>
      CommunicationFailure(TransportFailureMessage, [description])
  }

  /**
   * submit_quote as written: a reply goes through the validator and a
   * transport failure through the catch block of lines 94-103.  It agrees
   * with the corrected Classify everywhere except a failure of the client
   * constructor, where it aborts.
   */
  function Complete(inv: Invocation, requested: Amount): (c: Completion)
    ensures c.Aborted? <==> inv.ClientNotCreated?
    ensures c.Returned? ==> c.outcome == Classify(inv, requested)
  {
    if inv.Responded? then Returned(Validate(inv.response, requested, inv.trace))
    else TransportFailureAsWritten(inv)
  }

  /**
   * Submits one quote: the payload sent is the expected document built from
   * the shipped defaults (the build never stops on leftover defaults), and
   * the completion is what submit_quote as written makes of the invocation's
   * result.
   */
  method Submit(req: QuoteRequest, invoke: Document -> Invocation) returns (c: Completion)
    ensures c == Complete(invoke(ExpectedPayload(req, LoadDefaults())), req.premium)
    ensures c.Returned? && c.outcome.Success? ==> c.outcome.quoteNumber >= 1
  {
    ShippedDefaultsExhausted();
    var built := BuildPayload(req, LoadDefaults());
    var inv := invoke(built.doc);
    if inv.Responded? {
      c := Returned(Validate(inv.response, req.premium, inv.trace));
    } else {
      c := TransportFailureAsWritten(inv);
    }
  }

}

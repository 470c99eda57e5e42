/**
 * The response validator: three checks on the service's reply, each of
 * which ends the submission with a typed outcome when it fails.
 */
module Response {
  import opened Wrappers
  import opened Amounts
  import opened PhpValues

  /** The 'string' member of the reply's Errors: one message, or a list of them. */
  datatype ErrorMember = Single(text: string) | Many(texts: seq<string>)

  /** The reply's Errors: empty, or holding a 'string' member. */
  datatype ErrorField = Absent | StringMember(member: ErrorMember)

  /** The parts of the ImportQuote reply the validator reads. */
  datatype QuoteServiceResponse = QuoteServiceResponse(
    errors: ErrorField, quoteNumber: Option<int>, totalPremium: Amount)

  /** The raw exchange the SOAP client keeps for diagnostics. */
  datatype Trace = Trace(lastRequest: string, lastResponseHeaders: string, lastResponse: string)

  /** The two exception classes of the source, and the normal return of a quote number. */
  datatype Outcome =
    | Success(quoteNumber: int)
    | CommunicationFailure(message: string, diagnostics: seq<string>)
    | QuoteGenerationFailure(errors: seq<string>)

  const NoQuoteNumberMessage := "Odd! The generated quote has no quote number!"
  const PremiumMismatchMessage := "Very Odd! The generated quote does not agree with the price we asked!"
  const AskedPrefix := "What we asked for: "
  const GotPrefix := "What we got back: "

  /** Last request, last response headers, last response, in that order. */
  function TraceLines(t: Trace): seq<string>
  {
    [t.lastRequest, t.lastResponseHeaders, t.lastResponse]
  }

  /** The two lines that report a premium mismatch. */
  function MismatchLines(requested: Amount, acknowledged: Amount): seq<string>
  {
    [AskedPrefix + FormatAmount(requested), GotPrefix + FormatAmount(acknowledged)]
  }

  /**
   * The error list to report, or None when the reply reported no errors.  A
   * single message becomes a one-element list; a list is kept as it is.
   */
  function NormaliseErrors(f: ErrorField): Option<seq<string>>
  {
    match f
    case Absent => None
    case StringMember(Single(s)) => Some([s])
    case StringMember(Many(l)) => Some(l)
  }

  /** The quote number is present and at least 1 (PHP: neither falsy nor below 1). */
  predicate QuoteNumberSane(q: Option<int>)
  {
    q.Some? && q.value >= 1
  }

  /**
   * The three checks in order: reported errors, then the quote number, then
   * the acknowledged premium against the requested one.
   */
  function Validate(resp: QuoteServiceResponse, requested: Amount, trace: Trace): (r: Outcome)
    ensures r.QuoteGenerationFailure? <==> resp.errors.StringMember?
    ensures r.QuoteGenerationFailure? ==> NormaliseErrors(resp.errors) == Some(r.errors)
    ensures r.Success? <==>
      resp.errors.Absent? && QuoteNumberSane(resp.quoteNumber) && resp.totalPremium == requested
    ensures r.Success? ==> r.quoteNumber >= 1 && resp.quoteNumber == Some(r.quoteNumber)
    ensures r.CommunicationFailure? ==>
      |r.diagnostics| >= 3 && r.diagnostics[|r.diagnostics| - 3..] == TraceLines(trace)
    ensures r.CommunicationFailure? && !QuoteNumberSane(resp.quoteNumber) ==>
      r == CommunicationFailure(NoQuoteNumberMessage, TraceLines(trace))
    ensures r.CommunicationFailure? && QuoteNumberSane(resp.quoteNumber) ==>
      r == CommunicationFailure(PremiumMismatchMessage,
                                MismatchLines(requested, resp.totalPremium) + TraceLines(trace))
  {
    match NormaliseErrors(resp.errors)
    case Some(errors) => QuoteGenerationFailure(errors)
    case None =>
      if !QuoteNumberSane(resp.quoteNumber) then
        CommunicationFailure(NoQuoteNumberMessage, TraceLines(trace))
      else if resp.totalPremium != requested then
        CommunicationFailure(PremiumMismatchMessage,
                             MismatchLines(requested, resp.totalPremium) + TraceLines(trace))
      else
        Success(resp.quoteNumber.value)
  }

  /**
   * The amounts the mismatch lines show are equal exactly when the two
   * premiums are: with amounts held exactly in cents, a mismatch report
   * always shows two different figures.
   */
  lemma MismatchLinesTellApart(requested: Amount, acknowledged: Amount)
    ensures MismatchLines(requested, acknowledged)[0][|AskedPrefix|..] == FormatAmount(requested)
    ensures MismatchLines(requested, acknowledged)[1][|GotPrefix|..] == FormatAmount(acknowledged)
    ensures FormatAmount(requested) == FormatAmount(acknowledged) <==> requested == acknowledged
  {
    if FormatAmount(requested) == FormatAmount(acknowledged) {
      FormatAmountInjective(requested, acknowledged);
    }
  }

  /** Asking for 1275 and being acknowledged 1275.01 is a mismatch that shows both figures. */
  lemma PremiumMismatchExample(quoteNumber: int, trace: Trace)
    requires quoteNumber >= 1
    ensures Validate(QuoteServiceResponse(Absent, Some(quoteNumber), Amount(127501)), Amount(127500), trace)
         == CommunicationFailure(PremiumMismatchMessage,
              [AskedPrefix + "1275", GotPrefix + "1275.01"] + TraceLines(trace))
  {
    FormatExamples();
  }

  lemma FormatExamples()
    ensures FormatAmount(Amount(127500)) == "1275"
    ensures FormatAmount(Amount(127501)) == "1275.01"
  {
    WholeExample();
    CentExample();
  }

  lemma WholeExample()
    ensures FormatAmount(Amount(127500)) == "1275"
  {
    UnitsText();
    assert Magnitude(Amount(127500)) / 100 == 1275 && Magnitude(Amount(127500)) % 100 == 0;
    assert FractionText(0) == "";
  }

  lemma CentExample()
    ensures FormatAmount(Amount(127501)) == "1275.01"
  {
    UnitsText();
    CentText();
    assert Magnitude(Amount(127501)) / 100 == 1275 && Magnitude(Amount(127501)) % 100 == 1;
  }

  lemma UnitsText()
    ensures NatToString(1275) == "1275"
  {
    assert NatToString(1) == "1";
    assert NatToString(12) == NatToString(1) + "2";
    assert NatToString(127) == NatToString(12) + "7";
    assert NatToString(1275) == NatToString(127) + "5";
  }

  lemma CentText()
    ensures FractionText(1) == ".01"
  {
    assert DigitChar(0) == '0' && DigitChar(1) == '1';
  }

  /**
   * Lines 112-126 over the value the SOAP layer decodes Errors to: convert
   * objects to arrays; an empty result means no errors; otherwise take the
   * 'string' member and wrap a bare string in a one-element list.
   */
  function ReportedErrors(errors: Value): Option<Value>
  {
    var a := ObjToArray(errors);
    if PhpEmpty(a) then None
    else
      var s := Index(a, StrKey("string"));
      if s.Str? then Some(Arr([Entry(IntKey(0), s)])) else Some(s)
  }

  /** The object the SOAP layer decodes each shape of Errors to. */
  function ErrorsObject(f: ErrorField): Value
  {
    match f
    case Absent => Obj([])
    case StringMember(Single(s)) => Obj([Prop("string", Str(s))])
    case StringMember(Many(l)) => Obj([Prop("string", StringList(l))])
  }

  /**
   * On every shape of Errors, the source's handling of the decoded object
   * reports exactly the list NormaliseErrors gives, in the same order.
   */
  lemma ReportedErrorsAgree(f: ErrorField)
    ensures ReportedErrors(ErrorsObject(f)) ==
      match NormaliseErrors(f)
      case None => None
      case Some(l) => Some(StringList(l))
  {
    match f
    case Absent =>
    case StringMember(Single(s)) =>
      assert ObjToArray(ErrorsObject(f)) == Arr([Entry(StrKey("string"), Str(s))]);
      assert StringList([s]) == Arr([Entry(IntKey(0), Str(s))]);
    case StringMember(Many(l)) =>
      ObjToArrayOfPlain(StringList(l));
      assert ObjToArray(ErrorsObject(f)) == Arr([Entry(StrKey("string"), StringList(l))]);
  }

}

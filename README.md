# Quote submission: a verified model

This project models the core of a PHP client that submits an insurance quote
request to a remote SOAP quoting service (`submit_quote.php`). It covers three parts:

- **The payload builder** (`__load_defaults`, `__build_xml`). It takes a fixed
  catalog of thirteen default attributes and builds the `QuoteInfo` document.
  `CustomerInfo` gets seven caller attributes, then five defaults. `PolicyInfo`
  holds `Policy_Count` with text "1" and one `Policy` element. `Policy` gets the
  effective date and the premium, then eight defaults. Each default is removed
  from a working copy of the catalog when it is copied. Anything left over
  stops the build.
- **The response validator** (lines 106-163 of `submit_quote`). It runs three
  checks in order. First, reported errors give a `QuoteGenerationFailure`.
  Second, a missing or non-positive quote number gives a
  `CommunicationFailure`. Third, an acknowledged premium that differs from the
  requested one gives a `CommunicationFailure`. If all three pass, the result
  is the quote number.
- **`__objToArray`**: turns decoded SOAP objects into arrays, recursively.

Modules, one per component:

| file | module | contents |
|---|---|---|
| wrappers.dfy | Wrappers | `Option` |
| sequences.dfy | Sequences | `Distinct`, `Elements` and small facts about them |
| dom.dfy | Dom | elements with ordered attributes and children; `setAttribute`, `getAttribute`, `appendChild` |
| amounts.dfy | Amounts | premiums held exactly in cents; `strval`-style printing and reading back |
| defaults.dfy | Defaults | the defaults catalog and the two lists that consume it |
| payload.dfy | Payload | the builder (`BuildPayload`, with its two loops as `SetAttributes` and `CopyDefaults`) and the document it must produce |
| php_values.dfy | PhpValues | PHP values, `empty()`, array indexing, `ObjToArray` |
| response.dfy | Response | the reply, the `Outcome` type (the two exception classes plus success), `Validate` |
| submission.dfy | Submission | the transport-failure handling and `Submit` |

Modelling choices:

- The builder is imperative, as in the source. `BuildPayload` keeps the working
  catalog in a `map<string, string>` and removes keys from it inside loops.
  Attribute lists are `seq<Attr>` values that grow with `SetAttribute`.
- DOM nodes are values. In the source every element is complete before it is
  appended to its parent, so appending a finished value gives the same tree.
- A catalog key that is missing reads as PHP `null`, and `setAttribute` stores
  that as "" (`DefaultValue`). With the shipped catalog no key is missing
  (`Payload.ShippedPayload`).
- The premium is an `Amount` in cents. The source's loose `!=` becomes exact
  equality, and `strval` becomes `FormatAmount`: no decimals for whole amounts,
  otherwise one or two decimals with no trailing zero.
- The reply has a fixed shape. `Errors` is absent, or has a `'string'` member
  holding either one message or a list. The quote number is optional.
  `Response.ReportedErrorsAgree` shows that for each such shape, the source's
  own steps over the decoded object (`ObjToArray`, `empty`, `['string']`,
  wrap a bare string) report the same list as `NormaliseErrors`.
- `ImportQuote` is a parameter of `Submit` (`invoke: Document -> Invocation`).
  It returns either a reply with its trace, a call failure with its trace, or a
  failure of the client constructor.
- Where the code departs from its own comments, the model follows the code:
  - Lines 255-259 add `Address_Line_2` as an optional parameter, but only
    after the attributes have been set, so it is never emitted (see Findings).
  - A `'string'` member that holds an empty list still gives
    `QuoteGenerationFailure([])`. The code tests whether the `Errors`
    container is empty, not whether the list is.
  - The header comment (lines 36-38) promises only a `SOAPCallException` or a
    `QuoteGenerationException`, but the catch block reads the client's trace
    unconditionally, so a failure of the client constructor ends in an
    uncaught error (see Findings). `Submit` keeps that behaviour.

## Model

| member | source | states |
|---|---|---|
| Defaults.LoadDefaults | submit_quote.php:206-224 | the catalog has 13 entries, and its keys are exactly those of the customer and policy default lists |
| Defaults.DefaultKeysDistinct | submit_quote.php:265-288 | the customer list (5 keys) and the policy list (8 keys) repeat no key and share none |
| Defaults.ShippedDefaultsExhausted | submit_quote.php:265-303 | every key of both lists is in the shipped catalog, and removing both lists leaves it empty |
| Dom.SetAttribute | submit_quote.php:250-253 | after setAttribute the name reads back the new value |
| Dom.SetAttributeNames | submit_quote.php:250-253 | a name already set keeps its place; a new name goes after all existing ones |
| Dom.SetAttributeFresh | submit_quote.php:250-253 | setting a name that is not yet set appends exactly that one attribute |
| Dom.SetAttributeKeepsOthers | submit_quote.php:250-253 | setAttribute leaves every other attribute's value unchanged |
| Dom.AppendChild | submit_quote.php:273-297 | appendChild puts the child after the existing children and changes nothing else |
| Payload.SetAttributes | submit_quote.php:250-253 | setting a list of new, distinct attributes one by one appends exactly that list, in order |
| Payload.CopyDefaults | submit_quote.php:265-271 | copying a list of defaults appends each key with its catalog value, in list order, and the working catalog loses exactly those keys |
| Payload.BuildPayload | submit_quote.php:229-309 | the build succeeds if and only if the catalog holds no key outside the two lists; on success the document is exactly ExpectedPayload |
| Payload.LeftoverDefaults | submit_quote.php:299-303 | what the two loops leave is empty if and only if every catalog key is on one of the lists |
| Payload.CustomerInfoContents | submit_quote.php:239-271 | CustomerInfo has exactly 12 distinct attributes in source order: the 7 caller values, then the 5 defaults with catalog values; Address_Line_2 is absent |
| Payload.PolicyContents | submit_quote.php:280-293 | Policy has exactly 10 distinct attributes: Effective_Date and Premium from the caller, then the 8 defaults with catalog values |
| Payload.ShippedPayload | submit_quote.php:208-292 | with the shipped catalog the build never stops, and each default attribute carries the catalog's own value |
| Payload.IntendedAddressLineTwo | submit_quote.php:255-259 | the intended CustomerInfo has Address_Line_2 exactly when address_two is non-empty, and no name repeats |
| Payload.DemonstrationAddressLineTwoDropped | submit_quote.php:5-17 | for the demonstration request ("Apt. D-22") the built CustomerInfo has no Address_Line_2, though the intended one has it |
| Amounts.NatToStringRoundTrip | submit_quote.php:153-154 | the decimal text of a natural number reads back as that number |
| Amounts.FormatParseRoundTrip | submit_quote.php:153-154 | reading back a printed amount gives the amount |
| Amounts.FormatAmountInjective | submit_quote.php:148-154 | two amounts that print the same are equal |
| PhpValues.ObjToArray | submit_quote.php:311-319 | the result holds no object at any depth; an object becomes an array keyed by its property names; an array keeps its keys; scalars are unchanged |
| PhpValues.ObjToArrayOfPlain | submit_quote.php:311-319 | a value without objects comes back unchanged |
| PhpValues.ObjToArrayIdempotent | submit_quote.php:311-319 | converting twice is the same as converting once |
| PhpValues.PropertyConverted | submit_quote.php:311-319 | reading a key from a converted object gives the converted value of the object's first property of that name (null when there is none) |
| PhpValues.EntryConverted | submit_quote.php:311-319 | reading a key from a converted array gives the converted value stored under that key |
| Response.Validate | submit_quote.php:106-163 | QuoteGenerationFailure exactly when errors are reported, with the normalised list, whatever the quote number or premium; Success exactly when there are no errors, the quote number is at least 1 and the premiums agree, and then it is that number; a missing, zero or negative number gives the "no quote number" failure with [request, headers, response]; otherwise a mismatch gives the two "What we ..." lines followed by the same three |
| Response.MismatchLinesTellApart | submit_quote.php:146-159 | the two figures in the mismatch lines are equal if and only if the premiums are |
| Response.PremiumMismatchExample | submit_quote.php:147-159 | asking for 1275 and getting back 1275.01 reports "What we asked for: 1275" and "What we got back: 1275.01", then the trace |
| Response.ReportedErrorsAgree | submit_quote.php:112-129 | for absent errors, one message, or a list, the source's steps over the decoded object give the same list as NormaliseErrors: nothing, a one-element list, or the list in order |
| Submission.TransportFailureAsWritten | submit_quote.php:94-103 | a call failure gives a CommunicationFailure whose diagnostics are the trace followed by the error text; a constructor failure ends in an uncaught error |
| Submission.ClientNotCreatedAborts | submit_quote.php:94-103 | a constructor failure never reaches the caller as an outcome, as written |
| Submission.Classify | submit_quote.php:92-163 | a reply goes through Validate; a transport failure gives a CommunicationFailure with the fixed message and the error text last; a success carries a number of at least 1 |
| Submission.Complete | submit_quote.php:92-163 | as written, the call aborts exactly when the client constructor failed; whenever it returns, the outcome is the corrected Classify's |
| Submission.Submit | submit_quote.php:39-164 | the document sent is ExpectedPayload over the shipped catalog, and the completion is Complete of what the invocation returned; a returned success carries a number of at least 1 |

## Findings

| source | as written | input that shows it | evidently intended | confidence | as-written member | corrected member |
|---|---|---|---|---|---|---|
| submit_quote.php:250-259 | `Address_Line_2` is added to `$cust_info_attributes` after the loop that sets that list on `CustomerInfo`, so it is never set | `address_two = "Apt. D-22"` (the demonstration call) | `CustomerInfo` carries `Address_Line_2` whenever `address_two` is non-empty | high; not executed | Payload.DemonstrationAddressLineTwoDropped | Payload.IntendedAddressLineTwo |
| submit_quote.php:94-103 | the catch block reads `$client`'s trace even when `new SoapClient` itself raised, so `$client` is unset and PHP stops with an error on null | the WSDL at the service URL cannot be loaded | a `CommunicationFailure` whose diagnostics leave out the unavailable trace and end with the error text | high; not executed | Submission.ClientNotCreatedAborts | Submission.Classify |

`Submit` follows the code as written on both halves: `BuildPayload` builds the
document without `Address_Line_2`, and `Complete` aborts when the client
constructor fails. The corrected behaviours are
`Payload.IntendedCustomerInfoAttributes` and `Submission.Classify`;
`Submission.Complete` proves that the as-written handling agrees with
`Classify` in every other case.

## Left out

- SoapClient construction and its options (timeout 10, compression, WSDL cache, tracing), and the `ImportQuote` call with its `authInfo` and `qiRequest` arrays (lines 57-92). These are network I/O through a library, so the invocation is an abstract parameter of `Submit`.
- `__get_soap_url_and_credentials` (lines 195-204). It only returns configuration constants.
- The demonstration call and its printing (lines 1-31). This is console I/O. Its request only serves as the input of `DemonstrationAddressLineTwoDropped`.
- DOMDocument serialisation (`saveXML`, `formatOutput`, rendering of the `tq:` prefix). This is library behaviour. The document is a tree whose root records the namespace URI `TemporaryQuote`.
- PHP float semantics. Premiums are exact amounts in cents. An amount with more than two decimals, and `strval`'s exponent notation for very large floats, are not modelled.
- A reply without `TotalPremium`. PHP would compare `null` loosely; the model always has an amount.
- Error members of other shapes, such as a list holding non-strings or an `Errors` object without a `'string'` member. `Validate` takes only the two shapes the service's string-array schema yields. `ReportedErrors` still accepts any value.
- `get_object_vars` reflection. An object is its ordered list of properties.
- Validation of the effective date and of required caller fields. The source does not check them either.

/**
 * The payload builder: the QuoteInfo document sent to the quoting service,
 * built from the caller's request and the defaults catalog, consuming each
 * default as it is copied in.
 */
module Payload {
  import opened Wrappers
  import opened Sequences
  import opened Dom
  import opened Amounts
  import opened Defaults

  /** What the caller of the submission supplies. */
  datatype QuoteRequest = QuoteRequest(
    name: string, email: string, phone: string,
    addressOne: string, addressTwo: string,
    city: string, state: string, zip: string,
    effectiveDate: string, premium: Amount)

  /** The builder either returns the document or stops because defaults were left over. */
  datatype BuildResult = Built(doc: Document) | DefaultsNotEmptied

  const QuoteNamespace := "TemporaryQuote"

  /** The seven caller-supplied CustomerInfo attributes, in the order they are set. */
  function CallerAttributes(req: QuoteRequest): seq<Attr>
  {
    [Attr("Name_1", req.name), Attr("Main_Phone", req.phone), Attr("E-Mail", req.email),
     Attr("Address_Line_1", req.addressOne), Attr("City", req.city),
     Attr("Region", req.state), Attr("Postal_Code", req.zip)]
  }

  /** The caller attribute list once the optional second address line has been added to it. */
  function CallerAttributeList(req: QuoteRequest): seq<Attr>
  {
    CallerAttributes(req) + if req.addressTwo != "" then [Attr("Address_Line_2", req.addressTwo)] else []
  }

  /** The value read for a default: a missing key reads as null, which setAttribute stores as "". */
  function DefaultValue(defaults: map<string, string>, key: string): string
  {
    if key in defaults then defaults[key] else ""
  }

  /** The attributes the keys produce, each with its catalog value. */
  function DefaultAttributes(keys: seq<string>, catalog: map<string, string>): (r: seq<Attr>)
    ensures Names(r) == keys
  {
    seq(|keys|, i requires 0 <= i < |keys| => Attr(keys[i], DefaultValue(catalog, keys[i])))
  }

  function PolicyCallerAttributes(req: QuoteRequest): seq<Attr>
  {
    [Attr("Effective_Date", req.effectiveDate), Attr("Premium", FormatAmount(req.premium))]
  }

  function CustomerInfoAttributes(req: QuoteRequest, catalog: map<string, string>): seq<Attr>
  {
    CallerAttributes(req) + DefaultAttributes(CustomerDefaultKeys, catalog)
  }

  function PolicyAttributes(req: QuoteRequest, catalog: map<string, string>): seq<Attr>
  {
    PolicyCallerAttributes(req) + DefaultAttributes(PolicyDefaultKeys, catalog)
  }

  /** The document shape: QuoteInfo holding CustomerInfo, then PolicyInfo with Policy_Count "1" and Policy. */
  function QuoteDocument(customer: seq<Attr>, policy: seq<Attr>): Document
  {
    Document(QuoteNamespace,
      Element("tq:QuoteInfo", [], [
        Element("tq:CustomerInfo", customer, []),
        Element("tq:PolicyInfo", [], [
          Element("tq:Policy_Count", [], [Text("1")]),
          Element("tq:Policy", policy, [])])]))
  }

  /** The document the builder produces. */
  function ExpectedPayload(req: QuoteRequest, catalog: map<string, string>): Document
  {
    QuoteDocument(CustomerInfoAttributes(req, catalog), PolicyAttributes(req, catalog))
  }

  /** The CustomerInfo attributes the optional second address line was meant to join. */
  function IntendedCustomerInfoAttributes(req: QuoteRequest, catalog: map<string, string>): seq<Attr>
  {
    CallerAttributeList(req) + DefaultAttributes(CustomerDefaultKeys, catalog)
  }

  /** The expected CustomerInfo attribute names, in order. */
  const CustomerAttributeNames: seq<string> :=
    ["Name_1", "Main_Phone", "E-Mail", "Address_Line_1", "City", "Region", "Postal_Code",
     "Quoting_For", "Agent_Code", "Quote_Profile", "Country", "Agent_Name"]

  /** The expected Policy attribute names, in order. */
  const PolicyAttributeNames: seq<string> :=
    ["Effective_Date", "Premium",
     "Policy_Number", "Policy_Term", "Coverage_Code", "Earned_Taxes_Fees",
     "Financed_Taxes_Fees", "Carrier_Code", "Carrier_Name", "GA_code"]

  /**
   * Builds the payload.  Each default is removed from the working copy of the
   * catalog as it is copied onto an element; anything left over at the end
   * stops the build.
   */
  method BuildPayload(req: QuoteRequest, catalog: map<string, string>) returns (r: BuildResult)
    ensures r.Built? <==> catalog.Keys <= DefaultKeys()
    ensures r.Built? ==> r.doc == ExpectedPayload(req, catalog)
  {
    var defaults := catalog;

    var custInfoAttributes := CallerAttributes(req);
    CustomerAttributeNamesDistinct(req);
    var custAttrs := SetAttributes([], custInfoAttributes);
    assert custAttrs == CallerAttributes(req);

    // The optional attribute joins the list only after the list's attributes have been set.
    if req.addressTwo != "" {
      custInfoAttributes := custInfoAttributes + [Attr("Address_Line_2", req.addressTwo)];
    }

    custAttrs, defaults := CopyDefaults(custAttrs, defaults, CustomerDefaultKeys);
    assert custAttrs == CustomerInfoAttributes(req, catalog);

    var root := Element("tq:QuoteInfo", [], []);
    var custInfo := Element("tq:CustomerInfo", custAttrs, []);
    root := AppendChild(root, custInfo);

    var policyInfo := Element("tq:PolicyInfo", [], []);
    var policyCount := Element("tq:Policy_Count", [], [Text("1")]);
    policyInfo := AppendChild(policyInfo, policyCount);

    var policyAttrs := SetAttribute([], "Effective_Date", req.effectiveDate);
    policyAttrs := SetAttribute(policyAttrs, "Premium", FormatAmount(req.premium));
    PolicyAttributeNamesDistinct(req);
    assert policyAttrs == PolicyCallerAttributes(req);
    policyAttrs, defaults := CopyDefaults(policyAttrs, defaults, PolicyDefaultKeys);
    PolicyDefaultsUntouched(catalog);
    assert policyAttrs == PolicyAttributes(req, catalog);

    var policy := Element("tq:Policy", policyAttrs, []);
    policyInfo := AppendChild(policyInfo, policy);
    assert policyInfo.children == [policyCount, policy];
    root := AppendChild(root, policyInfo);
    assert root.children == [custInfo, policyInfo];
    assert Document(QuoteNamespace, root) == ExpectedPayload(req, catalog);

    LeftoverDefaults(catalog, defaults);
    if defaults != map[] {
      r := DefaultsNotEmptied;
    } else {
      r := Built(Document(QuoteNamespace, root));
    }
  }

  /** Sets each attribute of the list in turn on an element holding none of their names. */
  method SetAttributes(attrs: seq<Attr>, list: seq<Attr>) returns (r: seq<Attr>)
    requires Distinct(Names(attrs) + Names(list))
    ensures r == attrs + list
  {
    r := attrs;
    for i := 0 to |list|
      invariant r == attrs + list[..i]
    {
      NextAttributeFresh(attrs, list, i);
      SetStep(attrs, list, i);
      r := SetAttribute(r, list[i].name, list[i].value);
    }
    assert list[..|list|] == list;
  }

  /** One step of SetAttributes: the next attribute is new and goes last. */
  lemma SetStep(attrs: seq<Attr>, list: seq<Attr>, i: nat)
    requires i < |list| && list[i].name !in Names(attrs + list[..i])
    ensures SetAttribute(attrs + list[..i], list[i].name, list[i].value) == attrs + list[..i + 1]
  {
    SetAttributeFresh(attrs + list[..i], list[i].name, list[i].value);
    assert list[..i + 1] == list[..i] + [list[i]];
  }

  /** The next attribute of the list is not among those already set. */
  lemma NextAttributeFresh(attrs: seq<Attr>, list: seq<Attr>, i: nat)
    requires Distinct(Names(attrs) + Names(list)) && i < |list|
    ensures list[i].name !in Names(attrs + list[..i])
  {
    var names := Names(attrs) + Names(list);
    assert names[..|attrs|] == Names(attrs);
    assert names[|attrs| + i] == list[i].name;
    FreshAt(attrs, list[..i], names, list[i].name);
  }

  /**
   * Copies the defaults named by keys onto an element holding none of those
   * names, removing each from the working catalog as it goes.
   */
  method CopyDefaults(attrs: seq<Attr>, defaults: map<string, string>, keys: seq<string>)
    returns (r: seq<Attr>, rest: map<string, string>)
    requires Distinct(Names(attrs) + keys)
    ensures r == attrs + DefaultAttributes(keys, defaults)
    ensures rest == defaults - Elements(keys)
  {
    r, rest := attrs, defaults;
    for j := 0 to |keys|
      invariant r == attrs + DefaultAttributes(keys[..j], defaults)
      invariant rest == defaults - Elements(keys[..j])
    {
      var name := keys[j];
      CopyStep(attrs, defaults, keys, j);
      var value := DefaultValue(rest, name);
      r := SetAttribute(r, name, value);
      rest := rest - {name};
    }
    assert keys[..|keys|] == keys;
  }

  /** One step of CopyDefaults: the next key is new to the element and still unconsumed in the catalog. */
  lemma CopyStep(attrs: seq<Attr>, defaults: map<string, string>, keys: seq<string>, j: nat)
    requires Distinct(Names(attrs) + keys) && j < |keys|
    ensures SetAttribute(attrs + DefaultAttributes(keys[..j], defaults), keys[j],
                         DefaultValue(defaults - Elements(keys[..j]), keys[j]))
         == attrs + DefaultAttributes(keys[..j + 1], defaults)
    ensures defaults - Elements(keys[..j]) - {keys[j]} == defaults - Elements(keys[..j + 1])
  {
    NextKeyFresh(attrs, defaults, keys, j);
    ConsumeOne(defaults, keys, j);
    AppendStep(attrs, defaults, keys, j);
  }

  /** The next key is neither among the element's attributes nor among the keys already consumed. */
  lemma NextKeyFresh(attrs: seq<Attr>, defaults: map<string, string>, keys: seq<string>, j: nat)
    requires Distinct(Names(attrs) + keys) && j < |keys|
    ensures keys[j] !in Names(attrs + DefaultAttributes(keys[..j], defaults))
    ensures keys[j] !in Elements(keys[..j])
  {
    var names := Names(attrs) + keys;
    DefaultNamesFollow(attrs, defaults, keys, j);
    FreshAt(attrs, DefaultAttributes(keys[..j], defaults), names, keys[j]);
    UnconsumedKey(names, |attrs|, keys, j);
  }

  /** The attributes copied so far are named by the keys that follow the element's own names. */
  lemma DefaultNamesFollow(attrs: seq<Attr>, defaults: map<string, string>, keys: seq<string>, j: nat)
    requires j < |keys|
    ensures (Names(attrs) + keys)[..|attrs|] == Names(attrs)
    ensures (Names(attrs) + keys)[|attrs| + j] == keys[j]
    ensures (Names(attrs) + keys)[|attrs|..] == keys
    ensures forall m :: 0 <= m < j ==>
      DefaultAttributes(keys[..j], defaults)[m].name == (Names(attrs) + keys)[|attrs| + m]
  {
  }

  /** Setting the next default on the element appends it. */
  lemma AppendStep(attrs: seq<Attr>, defaults: map<string, string>, keys: seq<string>, j: nat)
    requires j < |keys|
    requires keys[j] !in Names(attrs + DefaultAttributes(keys[..j], defaults))
    ensures SetAttribute(attrs + DefaultAttributes(keys[..j], defaults), keys[j], DefaultValue(defaults, keys[j]))
         == attrs + DefaultAttributes(keys[..j + 1], defaults)
  {
    SetAttributeFresh(attrs + DefaultAttributes(keys[..j], defaults), keys[j], DefaultValue(defaults, keys[j]));
    DefaultAttributesStep(keys, defaults, j);
  }

  /** Removing the next key from the working catalog leaves the catalog without the longer prefix. */
  lemma ConsumeOne(defaults: map<string, string>, keys: seq<string>, j: nat)
    requires j < |keys| && keys[j] !in Elements(keys[..j])
    ensures DefaultValue(defaults - Elements(keys[..j]), keys[j]) == DefaultValue(defaults, keys[j])
    ensures defaults - Elements(keys[..j]) - {keys[j]} == defaults - Elements(keys[..j + 1])
  {
    ElementsOfLongerPrefix(keys, j);
    RemoveInTurn(defaults, Elements(keys[..j]), {keys[j]});
  }

  /** Removing two sets of keys one after the other removes their union. */
  lemma RemoveInTurn(m: map<string, string>, a: set<string>, b: set<string>)
    ensures m - a - b == m - (a + b)
  {
    var left, right := m - a - b, m - (a + b);
    assert left.Keys == right.Keys;
    forall k | k in left.Keys ensures left[k] == right[k] { }
  }

  /** A key of a repeat-free list is not among the keys listed before it. */
  lemma UnconsumedKey(names: seq<string>, n: nat, keys: seq<string>, j: nat)
    requires Distinct(names) && n <= |names| && names[n..] == keys && j < |keys|
    ensures keys[j] !in Elements(keys[..j])
  {
    assert names[n + j] == keys[j];
    forall i | 0 <= i < j ensures keys[i] != keys[j] {
      assert names[n + i] == keys[i];
    }
  }

  /** The caller attributes and the customer defaults name the twelve CustomerInfo attributes, once each. */
  lemma CustomerAttributeNamesDistinct(req: QuoteRequest)
    ensures Names(CallerAttributes(req)) + CustomerDefaultKeys == CustomerAttributeNames
    ensures Distinct(Names([]) + Names(CallerAttributes(req)))
    ensures Distinct(Names(CallerAttributes(req)) + CustomerDefaultKeys)
  {
    CustomerAttributeNamesListed(req);
    CustomerAttributeNamesUnique();
    DistinctPrefix(CustomerAttributeNames, 7);
    assert Names([]) + Names(CallerAttributes(req)) == CustomerAttributeNames[..7];
  }

  lemma CustomerAttributeNamesListed(req: QuoteRequest)
    ensures Names(CallerAttributes(req)) + CustomerDefaultKeys == CustomerAttributeNames
  {
  }

  lemma CustomerAttributeNamesUnique()
    ensures Distinct(CustomerAttributeNames)
  {
  }

  /** The policy's own attributes and the policy defaults name the ten Policy attributes, once each. */
  lemma PolicyAttributeNamesDistinct(req: QuoteRequest)
    ensures SetAttribute(SetAttribute([], "Effective_Date", req.effectiveDate), "Premium", FormatAmount(req.premium))
         == PolicyCallerAttributes(req)
    ensures Names(PolicyCallerAttributes(req)) + PolicyDefaultKeys == PolicyAttributeNames
    ensures Distinct(PolicyAttributeNames)
    ensures Distinct(Names(PolicyCallerAttributes(req)) + PolicyDefaultKeys)
  {
    PolicyCallerAttributesSet(req);
    PolicyAttributeNamesListed(req);
    PolicyAttributeNamesUnique();
  }

  /** Setting the effective date and then the premium on an empty element gives the two in that order. */
  lemma PolicyCallerAttributesSet(req: QuoteRequest)
    ensures SetAttribute(SetAttribute([], "Effective_Date", req.effectiveDate), "Premium", FormatAmount(req.premium))
         == PolicyCallerAttributes(req)
  {
    var once := SetAttribute([], "Effective_Date", req.effectiveDate);
    SetAttributeFresh([], "Effective_Date", req.effectiveDate);
    assert Names(once) == ["Effective_Date"];
    SetAttributeFresh(once, "Premium", FormatAmount(req.premium));
  }

  lemma PolicyAttributeNamesListed(req: QuoteRequest)
    ensures Names(PolicyCallerAttributes(req)) + PolicyDefaultKeys == PolicyAttributeNames
  {
  }

  lemma PolicyAttributeNamesUnique()
    ensures Distinct(PolicyAttributeNames)
  {
  }

  /**
   * Within a repeat-free name list that starts with the names of attrs and
   * continues with those of more, the next name is not among attrs + more.
   */
  lemma FreshAt(attrs: seq<Attr>, more: seq<Attr>, names: seq<string>, name: string)
    requires Distinct(names) && |attrs| + |more| < |names|
    requires names[..|attrs|] == Names(attrs)
    requires forall m :: 0 <= m < |more| ==> more[m].name == names[|attrs| + m]
    requires name == names[|attrs| + |more|]
    ensures name !in Names(attrs + more)
  {
  }

  /** Removing the customer defaults from the catalog does not change what the policy defaults read. */
  lemma PolicyDefaultsUntouched(catalog: map<string, string>)
    ensures DefaultAttributes(PolicyDefaultKeys, catalog - Elements(CustomerDefaultKeys))
         == DefaultAttributes(PolicyDefaultKeys, catalog)
    ensures catalog - Elements(CustomerDefaultKeys) - Elements(PolicyDefaultKeys)
         == catalog - DefaultKeys()
  {
    DefaultKeysDistinct();
  }

  /** Adding one more key to the default list adds one attribute at the end. */
  lemma DefaultAttributesStep(keys: seq<string>, catalog: map<string, string>, j: nat)
    requires j < |keys|
    ensures DefaultAttributes(keys[..j + 1], catalog)
         == DefaultAttributes(keys[..j], catalog) + [Attr(keys[j], DefaultValue(catalog, keys[j]))]
  {
  }

  /** What the two loops leave of the catalog is empty exactly when the catalog holds no other key. */
  lemma LeftoverDefaults(catalog: map<string, string>, defaults: map<string, string>)
    requires defaults == catalog - Elements(CustomerDefaultKeys) - Elements(PolicyDefaultKeys)
    ensures defaults == map[] <==> catalog.Keys <= DefaultKeys()
  {
    assert defaults.Keys == catalog.Keys - DefaultKeys();
    if catalog.Keys <= DefaultKeys() {
      assert defaults.Keys == {};
    } else {
      var k :| k in catalog.Keys && k !in DefaultKeys();
      assert k in defaults;
    }
  }

  /** With distinct names, every attribute of the list reads back its own value. */
  lemma {:induction false} ValuesReadBack(attrs: seq<Attr>)
    requires Distinct(Names(attrs))
    ensures forall i :: 0 <= i < |attrs| ==> GetAttribute(attrs, attrs[i].name) == Some(attrs[i].value)
  {
    forall i | 0 <= i < |attrs| ensures GetAttribute(attrs, attrs[i].name) == Some(attrs[i].value) {
      GetAttributeAt(attrs, i);
    }
  }

  /**
   * CustomerInfo carries exactly twelve distinct attributes: the seven caller
   * values, then the five customer defaults with their catalog values.  The
   * second address line is never among them.
   */
  lemma CustomerInfoContents(req: QuoteRequest, catalog: map<string, string>)
    ensures Names(CustomerInfoAttributes(req, catalog)) == CustomerAttributeNames
    ensures Distinct(Names(CustomerInfoAttributes(req, catalog)))
    ensures GetAttribute(CustomerInfoAttributes(req, catalog), "Name_1") == Some(req.name)
    ensures GetAttribute(CustomerInfoAttributes(req, catalog), "Main_Phone") == Some(req.phone)
    ensures GetAttribute(CustomerInfoAttributes(req, catalog), "E-Mail") == Some(req.email)
    ensures GetAttribute(CustomerInfoAttributes(req, catalog), "Address_Line_1") == Some(req.addressOne)
    ensures GetAttribute(CustomerInfoAttributes(req, catalog), "City") == Some(req.city)
    ensures GetAttribute(CustomerInfoAttributes(req, catalog), "Region") == Some(req.state)
    ensures GetAttribute(CustomerInfoAttributes(req, catalog), "Postal_Code") == Some(req.zip)
    ensures forall k :: k in CustomerDefaultKeys ==>
      GetAttribute(CustomerInfoAttributes(req, catalog), k) == Some(DefaultValue(catalog, k))
    ensures GetAttribute(CustomerInfoAttributes(req, catalog), "Address_Line_2") == None
  {
    var attrs := CustomerInfoAttributes(req, catalog);
    CustomerInfoNames(req, catalog);
    CustomerAttributeNamesUnique();
    ValuesReadBack(attrs);
    assert attrs[0].name == "Name_1" && attrs[1].name == "Main_Phone" && attrs[2].name == "E-Mail";
    assert attrs[3].name == "Address_Line_1" && attrs[4].name == "City";
    assert attrs[5].name == "Region" && attrs[6].name == "Postal_Code";
    forall k | k in CustomerDefaultKeys
      ensures GetAttribute(attrs, k) == Some(DefaultValue(catalog, k))
    {
      var i :| 0 <= i < 5 && CustomerDefaultKeys[i] == k;
      assert attrs[7 + i] == Attr(k, DefaultValue(catalog, k));
    }
    GetAttributeAbsent(attrs, "Address_Line_2");
  }

  lemma CustomerInfoNames(req: QuoteRequest, catalog: map<string, string>)
    ensures Names(CustomerInfoAttributes(req, catalog)) == CustomerAttributeNames
  {
    var attrs := CustomerInfoAttributes(req, catalog);
    CustomerAttributeNamesListed(req);
    forall i | 0 <= i < 12 ensures Names(attrs)[i] == CustomerAttributeNames[i] {
      if i >= 7 {
        assert attrs[i] == DefaultAttributes(CustomerDefaultKeys, catalog)[i - 7];
      }
    }
  }

  /**
   * Policy carries exactly ten distinct attributes: the effective date and
   * the premium as the caller gave them, then the eight policy defaults with
   * their catalog values.
   */
  lemma PolicyContents(req: QuoteRequest, catalog: map<string, string>)
    ensures Names(PolicyAttributes(req, catalog)) == PolicyAttributeNames
    ensures Distinct(Names(PolicyAttributes(req, catalog)))
    ensures GetAttribute(PolicyAttributes(req, catalog), "Effective_Date") == Some(req.effectiveDate)
    ensures GetAttribute(PolicyAttributes(req, catalog), "Premium") == Some(FormatAmount(req.premium))
    ensures forall k :: k in PolicyDefaultKeys ==>
      GetAttribute(PolicyAttributes(req, catalog), k) == Some(DefaultValue(catalog, k))
  {
    var attrs := PolicyAttributes(req, catalog);
    PolicyAttributeNamesDistinct(req);
    assert Names(attrs) == PolicyAttributeNames by {
      forall i | 0 <= i < 10 ensures Names(attrs)[i] == PolicyAttributeNames[i] {
        if i >= 2 {
          assert attrs[i] == DefaultAttributes(PolicyDefaultKeys, catalog)[i - 2];
        }
      }
    }
    ValuesReadBack(attrs);
    assert attrs[0].name == "Effective_Date" && attrs[1].name == "Premium";
    forall k | k in PolicyDefaultKeys
      ensures GetAttribute(attrs, k) == Some(DefaultValue(catalog, k))
    {
      var i :| 0 <= i < 8 && PolicyDefaultKeys[i] == k;
      assert attrs[2 + i] == Attr(k, DefaultValue(catalog, k));
    }
  }

  /**
   * With the shipped catalog the build never stops, and every default
   * attribute carries the catalog's own value.
   */
  lemma ShippedPayload(req: QuoteRequest)
    ensures LoadDefaults().Keys <= DefaultKeys()
    ensures forall k :: k in CustomerDefaultKeys ==>
      k in LoadDefaults() && GetAttribute(CustomerInfoAttributes(req, LoadDefaults()), k) == Some(LoadDefaults()[k])
    ensures forall k :: k in PolicyDefaultKeys ==>
      k in LoadDefaults() && GetAttribute(PolicyAttributes(req, LoadDefaults()), k) == Some(LoadDefaults()[k])
  {
    ShippedDefaultsExhausted();
    CustomerInfoContents(req, LoadDefaults());
    PolicyContents(req, LoadDefaults());
  }

  /** The CustomerInfo attribute names as intended when a second address line is given. */
  const IntendedCustomerAttributeNames: seq<string> :=
    ["Name_1", "Main_Phone", "E-Mail", "Address_Line_1", "City", "Region", "Postal_Code",
     "Address_Line_2", "Quoting_For", "Agent_Code", "Quote_Profile", "Country", "Agent_Name"]

  /**
   * The CustomerInfo attributes as intended: the second address line is
   * present exactly when the caller gave a non-empty one, and no name repeats.
   */
  lemma IntendedAddressLineTwo(req: QuoteRequest, catalog: map<string, string>)
    ensures Distinct(Names(IntendedCustomerInfoAttributes(req, catalog)))
    ensures GetAttribute(IntendedCustomerInfoAttributes(req, catalog), "Address_Line_2")
         == if req.addressTwo != "" then Some(req.addressTwo) else None
  {
    CustomerInfoContents(req, catalog);
    if req.addressTwo == "" {
      assert IntendedCustomerInfoAttributes(req, catalog) == CustomerInfoAttributes(req, catalog);
    } else {
      IntendedNames(req, catalog);
      IntendedNamesDistinct();
      GetAttributeAt(IntendedCustomerInfoAttributes(req, catalog), 7);
    }
  }

  lemma IntendedNames(req: QuoteRequest, catalog: map<string, string>)
    requires req.addressTwo != ""
    ensures Names(IntendedCustomerInfoAttributes(req, catalog)) == IntendedCustomerAttributeNames
    ensures IntendedCustomerInfoAttributes(req, catalog)[7] == Attr("Address_Line_2", req.addressTwo)
  {
    IntendedLeadingNames(req, catalog);
    IntendedTrailingNames(req, catalog);
  }

  /** The caller's seven names and the second address line come first. */
  lemma IntendedLeadingNames(req: QuoteRequest, catalog: map<string, string>)
    requires req.addressTwo != ""
    ensures |IntendedCustomerInfoAttributes(req, catalog)| == 13
    ensures forall i :: 0 <= i < 8 ==>
      IntendedCustomerInfoAttributes(req, catalog)[i].name == IntendedCustomerAttributeNames[i]
    ensures IntendedCustomerInfoAttributes(req, catalog)[7] == Attr("Address_Line_2", req.addressTwo)
  {
  }

  /** The five customer defaults follow. */
  lemma IntendedTrailingNames(req: QuoteRequest, catalog: map<string, string>)
    requires req.addressTwo != ""
    ensures forall i :: 8 <= i < |IntendedCustomerInfoAttributes(req, catalog)| ==>
      IntendedCustomerInfoAttributes(req, catalog)[i].name == IntendedCustomerAttributeNames[i]
  {
    var attrs := IntendedCustomerInfoAttributes(req, catalog);
    var defaults := DefaultAttributes(CustomerDefaultKeys, catalog);
    assert attrs == CallerAttributes(req) + [Attr("Address_Line_2", req.addressTwo)] + defaults;
    IntendedDefaultNames();
    forall i | 8 <= i < |attrs| ensures attrs[i].name == IntendedCustomerAttributeNames[i] {
      assert attrs[i] == defaults[i - 8];
    }
  }

  lemma IntendedNamesDistinct()
    ensures Distinct(IntendedCustomerAttributeNames)
  {
  }

  lemma IntendedDefaultNames()
    ensures IntendedCustomerAttributeNames[8..] == CustomerDefaultKeys
  {
  }

  /** The demonstration request: a non-empty second address line. */
  const DemonstrationRequest := QuoteRequest(
    "Molly Terrier", "foo@bar.com", "888.555.1212", "123 Main St.", "Apt. D-22",
    "Foo", "TX", "01234", "2019-03-05", Amount(127500))

  /**
   * As written, the demonstration request's second address line does not
   * reach the document, although the intended attributes carry it.
   */
  lemma DemonstrationAddressLineTwoDropped()
    ensures GetAttribute(CustomerInfoAttributes(DemonstrationRequest, LoadDefaults()), "Address_Line_2") == None
    ensures GetAttribute(IntendedCustomerInfoAttributes(DemonstrationRequest, LoadDefaults()), "Address_Line_2")
         == Some("Apt. D-22")
  {
    CustomerInfoContents(DemonstrationRequest, LoadDefaults());
    IntendedAddressLineTwo(DemonstrationRequest, LoadDefaults());
  }

}

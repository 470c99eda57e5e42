/**
 * The defaults catalog: the thirteen fixed attribute values the caller does
 * not supply, and the two lists in which the payload builder consumes them.
 */
module Defaults {
  import opened Sequences

  /** The catalog as the source loads it. */
  function LoadDefaults(): (m: map<string, string>)
    ensures |m| == 13
    ensures m.Keys == Elements(CustomerDefaultKeys) + Elements(PolicyDefaultKeys)
  {
    var m := map[
      "Quoting_For" := "G00119",
      "Carrier_Code" := "C00006",
      "GA_code" := "G00119",
      "Agent_Code" := "A00191",
      "Coverage_Code" := "LIAB CYBER",
      "Quote_Profile" := "Commercial",
      "Country" := "USA",
      "Earned_Taxes_Fees" := "0",
      "Financed_Taxes_Fees" := "0",
      "Policy_Term" := "12",
      "Agent_Name" := "Anonymous Agent",
      "Carrier_Name" := "Carrier Name Here",
      "Policy_Number" := "999999"
    ];
    DefaultKeysDistinct();
    DistinctCardinality(CustomerDefaultKeys + PolicyDefaultKeys);
    assert m.Keys == Elements(CustomerDefaultKeys + PolicyDefaultKeys);
    m
  }

  /** The defaults copied onto CustomerInfo, in order. */
  const CustomerDefaultKeys: seq<string> :=
    ["Quoting_For", "Agent_Code", "Quote_Profile", "Country", "Agent_Name"]

  /** The defaults copied onto Policy, in order. */
  const PolicyDefaultKeys: seq<string> :=
    ["Policy_Number", "Policy_Term", "Coverage_Code", "Earned_Taxes_Fees",
     "Financed_Taxes_Fees", "Carrier_Code", "Carrier_Name", "GA_code"]

  /** Every key the builder consumes. */
  function DefaultKeys(): set<string>
  {
    Elements(CustomerDefaultKeys) + Elements(PolicyDefaultKeys)
  }

  /** Neither list repeats a key and no key is in both lists. */
  lemma DefaultKeysDistinct()
    ensures Distinct(CustomerDefaultKeys + PolicyDefaultKeys)
    ensures Elements(CustomerDefaultKeys) !! Elements(PolicyDefaultKeys)
  {
  }

  lemma {:induction false} DistinctCardinality<T>(s: seq<T>)
    requires Distinct(s)
    ensures |Elements(s)| == |s|
  {
    if s != [] {
      var t := s[..|s| - 1];
      assert Elements(s) == Elements(t) + {s[|s| - 1]};
      assert s[|s| - 1] !in Elements(t);
      DistinctCardinality(t);
    }
  }

  /**
   * With the shipped catalog every lookup of either list finds its key, and
   * consuming both lists leaves nothing behind.
   */
  lemma ShippedDefaultsExhausted()
    ensures forall k :: k in CustomerDefaultKeys ==> k in LoadDefaults()
    ensures forall k :: k in PolicyDefaultKeys ==> k in LoadDefaults()
    ensures LoadDefaults().Keys <= DefaultKeys()
    ensures LoadDefaults() - DefaultKeys() == map[]
  {
    var m := LoadDefaults();
    assert (m - DefaultKeys()).Keys == {};
  }

}

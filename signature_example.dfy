/** A worked example of the signature generator's canonical string. */
module SignatureExample {
  import opened Wrappers
  import opened Strings
  import opened UriEncoding
  import opened SignatureGeneration

  /** A checkout's fields; keys are signed as they are, only values go through the encoder. */
  function ExampleFields(): map<string, string> {
    map["item_name" := "A B", "amount" := "5.00"]
  }

  /** The fields the example reads, as facts about any map holding them. */
  predicate HasExampleFields(data: map<string, string>) {
    && "amount" in data && data["amount"] == "5.00"
    && "item_name" in data && data["item_name"] == "A B"
  }

  lemma ExampleLookups()
    ensures HasExampleFields(ExampleFields())
  {
    assert |"amount"| == 6 && |"item_name"| == 9;
  }

  /** The fields, listed item name first, sort to `amount, item_name`, and neither is skipped. */
  lemma ExampleKeys()
    ensures IncludedKeys(["item_name", "amount"]) == ["amount", "item_name"]
  {
    ExampleSort();
    ExampleFilter(Sort(["item_name", "amount"]));
  }

  lemma ExampleSort()
    ensures Sort(["item_name", "amount"]) == ["amount", "item_name"]
  {
    var o := ["item_name", "amount"];
    assert o[1..] == ["amount"];
    assert Sort(["amount"]) == ["amount"] by { assert ["amount"][1..] == []; }
    assert !Le("item_name", "amount");
    assert Insert("item_name", ["amount"]) == ["amount", "item_name"] by {
      assert ["amount"][1..] == [];
    }
  }

  lemma ExampleFilter(sorted: seq<string>)
    requires sorted == ["amount", "item_name"]
    ensures Without(sorted, Skipped) == sorted
  {
    assert sorted[1..] == ["item_name"] && sorted[1..][1..] == [];
    assert "amount" !in Skipped && "item_name" !in Skipped;
  }


  lemma EncodesAmount() ensures FormEncode("5.00") == "5.00" { UnreservedUnchanged("5.00"); }

  lemma EncodesPassphrase() ensures EncodeURIComponent("pw") == "pw" { UnreservedUnchanged("pw"); }

  /** The space in the item name becomes `+`. */
  lemma EncodesItemName() ensures FormEncode("A B") == "A+B" {
    assert "A B" == "A" + (" " + "B");
    EncodeConcat("A", " " + "B");
    EncodeConcat(" ", "B");
    UnreservedUnchanged("A");
    UnreservedUnchanged("B");
  }

  /** Two pairs, in order. */
  lemma TwoPairs(a: string, b: string, data: map<string, string>)
    requires a in data && b in data
    ensures KeysIn([a, b], data)
    ensures Pairs([a, b], data) == Pair(a, data[a]) + Pair(b, data[b])
  {
    var ks := [a, b];
    assert ks[1..] == [b] && ks[1..][1..] == [];
    assert Pairs([b], data) == Pair(b, data[b]) + "";
    assert Pair(b, data[b]) + "" == Pair(b, data[b]);
  }

  lemma AmountPair(data: map<string, string>)
    requires HasExampleFields(data)
    ensures Pair("amount", data["amount"]) == "amount=5.00&"
  {
    var v := data["amount"];
    assert v == "5.00";
    EncodesAmount();
    assert FormEncode(v) == "5.00";
  }

  lemma ItemNamePair(data: map<string, string>)
    requires HasExampleFields(data)
    ensures Pair("item_name", data["item_name"]) == "item_name=A+B&"
  {
    EncodesItemName();
  }

  lemma ExamplePairs(data: map<string, string>)
    requires HasExampleFields(data)
    ensures KeysIn(["amount", "item_name"], data)
    ensures Pairs(["amount", "item_name"], data) == "amount=5.00&item_name=A+B&"
  {
    TwoPairs("amount", "item_name", data);
    AmountPair(data);
    ItemNamePair(data);
    JoinPairs(Pairs(["amount", "item_name"], data), Pair("amount", data["amount"]), Pair("item_name", data["item_name"]));
  }

  /** Proof helper: the literal concatenation of the example pairs. */
  lemma JoinPairs(whole: string, first: string, second: string)
    requires whole == first + second && first == "amount=5.00&" && second == "item_name=A+B&"
    ensures whole == "amount=5.00&item_name=A+B&"
  {
  }

  lemma ExamplePassphraseTerm()
    ensures PassphraseTerm(Some("pw")) == "passphrase=pw"
  {
    EncodesPassphrase();
    assert ConfiguredPassphrase(Some("pw")) == "pw";
  }

  /** The worked example: the space becomes `+`, `.` is left alone, and the passphrase closes the string. */
  lemma ExampleStringToHash()
    ensures KeysIn(["item_name", "amount"], ExampleFields())
    ensures StringToHash(ExampleFields(), ["item_name", "amount"], Some("pw"))
         == "amount=5.00&item_name=A+B&passphrase=pw"
  {
    ExampleLookups();
    ExampleKeys();
    ExamplePairs(ExampleFields());
    ExamplePassphraseTerm();
    StringToHashParts(ExampleFields(), ["item_name", "amount"], Some("pw"));
    ExampleConcat(StringToHash(ExampleFields(), ["item_name", "amount"], Some("pw")),
                  Pairs(IncludedKeys(["item_name", "amount"]), ExampleFields()), PassphraseTerm(Some("pw")));
  }

  /** Proof helper: the literal concatenation of pairs and passphrase term. */
  lemma ExampleConcat(whole: string, pairs: string, term: string)
    requires whole == pairs + term
    requires pairs == "amount=5.00&item_name=A+B&" && term == "passphrase=pw"
    ensures whole == "amount=5.00&item_name=A+B&passphrase=pw"
  {
  }
}

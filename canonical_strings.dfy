/**
  When the string the signature generator hashes and the string the notification
  verifier hashes coincide. The generator writes `key=value&` per field with spaces
  as `+` and always ends with `passphrase=…`; the verifier joins `key=value` with
  `&`, keeps spaces as `%20`, signs a posted `passphrase` field, and adds
  `&passphrase=…` only for a non-empty passphrase.
*/
module CanonicalStrings {
  import opened Wrappers
  import opened Strings
  import opened UriEncoding
  import opened SignatureGeneration
  import opened PaymentNotification

  /** Some field other than `signature` is present. */
  predicate HasSignedField(data: map<string, string>) {
    exists k :: k in data && k != "signature"
  }

  /** No signed value contains a space. */
  predicate NoSpaceInValues(data: map<string, string>) {
    forall k :: k in data && k != "signature" ==> ' ' !in data[k]
  }

  /**
    For notifications without a `passphrase` field, the two canonical strings are
    equal exactly when the passphrase is non-empty, some field besides `signature`
    is present and no signed value contains a space.
  */
  lemma CanonicalStringsCoincide(data: map<string, string>, keyOrder: seq<string>, env: Option<string>)
    requires IsKeyOrder(data, keyOrder)
    requires "passphrase" !in data
    ensures KeysIn(keyOrder, data)
    ensures StringToHash(data, keyOrder, env) == VerificationString(data, keyOrder, env)
        <==> HasPassphrase(env) && HasSignedField(data) && NoSpaceInValues(data)
  {
    KeyOrderKeysIn(data, keyOrder);
    KeyedStrings(data, keyOrder, env);
    KeyedConditions(data, keyOrder);
    var keys := SignedKeys(keyOrder);
    CoincideOnKeys(keys, data, EncodeURIComponent(ConfiguredPassphrase(env)), HasPassphrase(env));
  }

  /** Both strings written over the signed keys and the encoded passphrase. */
  lemma KeyedStrings(data: map<string, string>, keyOrder: seq<string>, env: Option<string>)
    requires IsKeyOrder(data, keyOrder)
    requires "passphrase" !in data
    ensures KeysIn(keyOrder, data) && KeysIn(SignedKeys(keyOrder), data)
    ensures var e := EncodeURIComponent(ConfiguredPassphrase(env));
      && StringToHash(data, keyOrder, env) == Pairs(SignedKeys(keyOrder), data) + ("passphrase=" + e)
      && VerificationString(data, keyOrder, env)
         == Join(Fields(SignedKeys(keyOrder), data), "&") + (if HasPassphrase(env) then "&passphrase=" + e else "")
  {
    KeyOrderKeysIn(data, keyOrder);
    SameKeys(data, keyOrder);
    var keys := SignedKeys(keyOrder);
    assert KeysIn(keys, data);
    StringToHashParts(data, keyOrder, env);
    var joined := Join(Fields(keys, data), "&");
    var e := EncodeURIComponent(ConfiguredPassphrase(env));
    assert DataString(data, keyOrder) == joined;
    if HasPassphrase(env) {
      assert e == EncodeURIComponent(env.value);
      assert joined + "&passphrase=" + e == joined + ("&passphrase=" + e);
    } else {
      assert joined + "" == joined;
    }
  }

  /** The two conditions on the notification, as conditions on its signed keys. */
  lemma KeyedConditions(data: map<string, string>, keyOrder: seq<string>)
    requires IsKeyOrder(data, keyOrder)
    ensures KeysIn(SignedKeys(keyOrder), data)
    ensures HasSignedField(data) <==> SignedKeys(keyOrder) != []
    ensures NoSpaceInValues(data) <==> forall k :: k in SignedKeys(keyOrder) ==> ' ' !in data[k]
  {
    var keys := SignedKeys(keyOrder);
    SignedKeysAreFields(data, keyOrder);
    if keys != [] {
      assert keys[0] in keys;
    }
  }

  /** The comparison once the signed keys and the encoded passphrase are fixed. */
  lemma CoincideOnKeys(keys: seq<string>, data: map<string, string>, e: string, hasPassphrase: bool)
    requires KeysIn(keys, data)
    requires !hasPassphrase ==> e == []
    ensures Pairs(keys, data) + ("passphrase=" + e)
              == Join(Fields(keys, data), "&") + (if hasPassphrase then "&passphrase=" + e else "")
        <==> hasPassphrase && keys != [] && forall k :: k in keys ==> ' ' !in data[k]
  {
    var joined := Join(Fields(keys, data), "&");
    if hasPassphrase {
      if keys == [] {
        assert Pairs(keys, data) == [] && joined == [];
        BareTermsDiffer(e);
      } else if forall k :: k in keys ==> ' ' !in data[k] {
        AgreeWithoutSpace(keys, data, e);
      } else {
        DifferWithSpace(keys, data, e);
      }
    } else {
      assert joined + "" == joined;
      DifferWithoutPassphrase(keys, data);
    }
  }

  lemma AgreeWithoutSpace(keys: seq<string>, data: map<string, string>, e: string)
    requires keys != [] && KeysIn(keys, data)
    requires forall k :: k in keys ==> ' ' !in data[k]
    ensures Pairs(keys, data) + ("passphrase=" + e) == Join(Fields(keys, data), "&") + ("&passphrase=" + e)
  {
    PairsJoin(keys, data);
    AmpersandPassphrase();
    Regroup(Join(Fields(keys, data), "&"), "&", "passphrase=", "&passphrase=", e);
  }

  /** Proof helper: the literal `"&passphrase="` split at its first character. */
  lemma AmpersandPassphrase()
    ensures "&" + "passphrase=" == "&passphrase="
  {
  }

  /** Proof helper: regrouping the concatenations of the two canonical strings. */
  lemma Regroup(j: string, amp: string, key: string, ampKey: string, e: string)
    requires ampKey == amp + key
    ensures (j + amp) + (key + e) == j + (ampKey + e)
  {
  }

  /** Without a passphrase the generator has one `&` more than the verifier. */
  lemma DifferWithoutPassphrase(keys: seq<string>, data: map<string, string>)
    requires KeysIn(keys, data)
    ensures Pairs(keys, data) + ("passphrase=" + "") != Join(Fields(keys, data), "&")
  {
    var pairs := Pairs(keys, data);
    var joined := Join(Fields(keys, data), "&");
    assert "passphrase=" + "" == "passphrase=";
    if keys == [] {
      assert |pairs + "passphrase="| != |joined|;
    } else {
      AmpersandCounts(keys, data);
      KeyCounts();
      CountConcat(pairs, "passphrase=", '&');
    }
  }

  /** Proof helper: neither spelling of the passphrase key holds `%`, and the generator's holds no `&`. */
  lemma KeyCounts()
    ensures Count("passphrase=", '%') == 0 && Count("&passphrase=", '%') == 0
    ensures Count("passphrase=", '&') == 0
  {
    KeyPercents();
    AmpersandKeyPercents();
    KeyAmpersands();
  }

  /** Proof helper: a literal fact used by `KeyCounts`. */
  lemma KeyPercents() ensures Count("passphrase=", '%') == 0 { }

  /** Proof helper: a literal fact used by `KeyCounts`. */
  lemma AmpersandKeyPercents() ensures Count("&passphrase=", '%') == 0 { }

  /** Proof helper: a literal fact used by `KeyCounts`. */
  lemma KeyAmpersands() ensures Count("passphrase=", '&') == 0 { }

  /** With no signed field the two strings start with different characters. */
  lemma BareTermsDiffer(e: string)
    ensures "passphrase=" + e != "&passphrase=" + e
  {
    assert ("passphrase=" + e)[0] == 'p';
    assert ("&passphrase=" + e)[0] == '&';
  }

  /** A space in a signed value gives the verifier one `%` more than the generator. */
  lemma DifferWithSpace(keys: seq<string>, data: map<string, string>, e: string)
    requires KeysIn(keys, data)
    requires exists k :: k in keys && ' ' in data[k]
    ensures Pairs(keys, data) + ("passphrase=" + e) != Join(Fields(keys, data), "&") + ("&passphrase=" + e)
  {
    var k :| k in keys && ' ' in data[k];
    PercentCounts(keys, data);
    SpacesFound(keys, data, k);
    SuffixPercents(e);
    FewerPercents(Pairs(keys, data), Join(Fields(keys, data), "&"), "passphrase=" + e, "&passphrase=" + e);
  }

  /** Both passphrase suffixes carry the `%` signs of the encoded passphrase only. */
  lemma SuffixPercents(e: string)
    ensures Count("passphrase=" + e, '%') == Count("&passphrase=" + e, '%')
  {
    KeyCounts();
    CountConcat("passphrase=", e, '%');
    CountConcat("&passphrase=", e, '%');
  }

  /** Appending suffixes with equally many `%` keeps a smaller `%` count smaller. */
  lemma FewerPercents(x: string, y: string, t: string, u: string)
    requires Count(x, '%') < Count(y, '%') && Count(t, '%') == Count(u, '%')
    ensures x + t != y + u
  {
    CountConcat(x, t, '%');
    CountConcat(y, u, '%');
  }

  /** The verifier signs exactly the posted fields other than `signature`. */
  lemma SignedKeysAreFields(data: map<string, string>, keyOrder: seq<string>)
    requires IsKeyOrder(data, keyOrder)
    ensures forall k :: k in SignedKeys(keyOrder) <==> k in data && k != "signature"
  {
    forall k ensures k in keyOrder <==> k in data {
      assert k in keyOrder <==> k in multiset(keyOrder);
      assert k in data <==> k in multiset(data.Keys);
    }
  }

  /** Without a posted `passphrase` field both routes sign the same keys, in the same order. */
  lemma SameKeys(data: map<string, string>, keyOrder: seq<string>)
    requires IsKeyOrder(data, keyOrder)
    requires "passphrase" !in data
    ensures IncludedKeys(keyOrder) == SignedKeys(keyOrder)
  {
    var sorted := Sort(keyOrder);
    assert "passphrase" !in sorted by {
      assert "passphrase" !in multiset(data.Keys);
      assert "passphrase" !in multiset(keyOrder);
      assert "passphrase" !in multiset(sorted);
    }
    WithoutAbsent(sorted, Unsigned, {"passphrase"});
    assert Unsigned + {"passphrase"} == Skipped;
    WithoutSort(keyOrder, Unsigned);
  }

  /** With no space in any value, the generator's pairs are the verifier's fields joined, plus a last `&`. */
  lemma {:induction false} PairsJoin(keys: seq<string>, data: map<string, string>)
    requires keys != [] && KeysIn(keys, data)
    requires forall k :: k in keys ==> ' ' !in data[k]
    ensures Pairs(keys, data) == Join(Fields(keys, data), "&") + "&"
  {
    var k := keys[0];
    FormEncodeWithoutSpace(data[k]);
    assert Pair(k, data[k]) == Field(k, data[k]) + "&";
    var fs := Fields(keys, data);
    if |keys| == 1 {
      assert keys[1..] == [];
    } else {
      PairsJoin(keys[1..], data);
      assert fs[1..] == Fields(keys[1..], data);
      assert Join(fs, "&") == fs[0] + "&" + Join(fs[1..], "&");
    }
  }

  // ----- counting characters -----

  /** Occurrences of `c` in the key names. */
  function KeyChars(keys: seq<string>, c: char): nat {
    if keys == [] then 0 else Count(keys[0], c) + KeyChars(keys[1..], c)
  }

  /** Spaces in the values of `keys`. */
  function Spaces(keys: seq<string>, data: map<string, string>): nat
    requires KeysIn(keys, data)
  {
    if keys == [] then 0 else Count(data[keys[0]], ' ') + Spaces(keys[1..], data)
  }

  /** `%` signs the generator writes for the values of `keys`. */
  function FormPercents(keys: seq<string>, data: map<string, string>): nat
    requires KeysIn(keys, data)
  {
    if keys == [] then 0 else Count(FormEncode(data[keys[0]]), '%') + FormPercents(keys[1..], data)
  }

  lemma {:induction false} SpacesFound(keys: seq<string>, data: map<string, string>, k: string)
    requires KeysIn(keys, data) && k in keys && ' ' in data[k]
    ensures Spaces(keys, data) > 0
  {
    if keys[0] == k {
      CountPositive(data[k], ' ');
    } else {
      SpacesFound(keys[1..], data, k);
    }
  }

  lemma FieldCounts(k: string, v: string)
    ensures Count(Field(k, v), '&') == Count(k, '&')
    ensures Count(Field(k, v), '%') == Count(k, '%') + Count(FormEncode(v), '%') + Count(v, ' ')
  {
    CountConcat(k, "=", '&');
    CountConcat(k + "=", EncodeURIComponent(v), '&');
    CountConcat(k, "=", '%');
    CountConcat(k + "=", EncodeURIComponent(v), '%');
    EncodedShape(v);
    EncodedCharsCount(EncodeURIComponent(v), '&');
    PercentCount(v);
  }

  lemma PairCounts(k: string, v: string)
    ensures Count(Pair(k, v), '&') == Count(k, '&') + 1
    ensures Count(Pair(k, v), '%') == Count(k, '%') + Count(FormEncode(v), '%')
  {
    var a := k + "=" + FormEncode(v);
    assert Pair(k, v) == a + "&";
    CountConcat(a, "&", '&');
    CountConcat(a, "&", '%');
    CountConcat(k, "=", '&');
    CountConcat(k + "=", FormEncode(v), '&');
    CountConcat(k, "=", '%');
    CountConcat(k + "=", FormEncode(v), '%');
    EncodedShape(v);
    EncodedCharsCount(FormEncode(v), '&');
  }

  /** The generator terminates every pair with `&`; the verifier puts one between fields. */
  lemma {:induction false} AmpersandCounts(keys: seq<string>, data: map<string, string>)
    requires keys != [] && KeysIn(keys, data)
    ensures Count(Pairs(keys, data), '&') == KeyChars(keys, '&') + |keys|
    ensures Count(Join(Fields(keys, data), "&"), '&') == KeyChars(keys, '&') + |keys| - 1
  {
    var k := keys[0];
    var rest := keys[1..];
    PairCounts(k, data[k]);
    FieldCounts(k, data[k]);
    CountConcat(Pair(k, data[k]), Pairs(rest, data), '&');
    var fs := Fields(keys, data);
    if rest == [] {
      assert Pairs(rest, data) == [];
      assert Join(fs, "&") == fs[0];
    } else {
      AmpersandCounts(rest, data);
      assert fs[1..] == Fields(rest, data);
      var j := Join(fs[1..], "&");
      assert Join(fs, "&") == fs[0] + "&" + j;
      CountConcat(fs[0], "&", '&');
      CountConcat(fs[0] + "&", j, '&');
    }
  }

  /** Each space costs the verifier one `%` more than the generator. */
  lemma {:induction false} PercentCounts(keys: seq<string>, data: map<string, string>)
    requires KeysIn(keys, data)
    ensures Count(Pairs(keys, data), '%') == KeyChars(keys, '%') + FormPercents(keys, data)
    ensures Count(Join(Fields(keys, data), "&"), '%') == KeyChars(keys, '%') + FormPercents(keys, data) + Spaces(keys, data)
  {
    if keys != [] {
      var k := keys[0];
      var rest := keys[1..];
      PairCounts(k, data[k]);
      FieldCounts(k, data[k]);
      CountConcat(Pair(k, data[k]), Pairs(rest, data), '%');
      PercentCounts(rest, data);
      var fs := Fields(keys, data);
      if rest == [] {
        assert Join(fs, "&") == fs[0];
      } else {
        assert fs[1..] == Fields(rest, data);
        var j := Join(fs[1..], "&");
        assert Join(fs, "&") == fs[0] + "&" + j;
        CountConcat(fs[0], "&", '%');
        CountConcat(fs[0] + "&", j, '%');
      }
    }
  }

  /**
    A posted `passphrase` field can make the strings agree without a passphrase: with
    the field empty and none configured, both routes hash `passphrase=`.
  */
  lemma PostedPassphraseCollision()
    ensures KeysIn(["passphrase"], map["passphrase" := ""])
    ensures StringToHash(map["passphrase" := ""], ["passphrase"], None) == "passphrase="
    ensures VerificationString(map["passphrase" := ""], ["passphrase"], None) == "passphrase="
  {
    var keys := ["passphrase"];
    var data := map["passphrase" := ""];
    assert keys[1..] == [];
    assert Sort(keys) == keys;
    assert Without(keys, Skipped) == [] by {
      WithoutCons("passphrase", [], Skipped);
    }
    assert Without(keys, Unsigned) == keys by {
      WithoutCons("passphrase", [], Unsigned);
    }
    assert IncludedKeys(keys) == [];
    assert SignedKeys(keys) == keys;
    assert EncodeURIComponent("") == "";
    assert data["passphrase"] == "";
    assert Field("passphrase", "") == "passphrase=" + "";
    assert Fields(keys, data) == [Field("passphrase", "")] + Fields(keys[1..], data);
    assert Join(["passphrase="], "&") == "passphrase=";
    assert DataString(data, keys) == "passphrase=";
    assert Pairs([], data) == "";
    assert PassphraseTerm(None) == "passphrase=";
  }
}

/**
  The payment-gateway signature generator (`POST /api/generate-payfast-signature`).

  The request body is a JSON object, modelled as the map of its fields together
  with `keyOrder`, the order in which `Object.keys` lists them. The MD5 digest
  (RFC 1321) is the parameter `md5`: nothing here depends on what it computes.
*/
module SignatureGeneration {
  import opened Wrappers
  import opened Strings
  import opened UriEncoding

  /** The field names the generator never signs. */
  const Skipped: set<string> := {"signature", "passphrase"}

  /** `keys` lists every field of `data` exactly once, as `Object.keys(data)` does. */
  predicate IsKeyOrder(data: map<string, string>, keys: seq<string>) {
    multiset(keys) == multiset(data.Keys)
  }

  predicate KeysIn(keys: seq<string>, data: map<string, string>) {
    forall k :: k in keys ==> k in data
  }

  lemma KeyOrderKeysIn(data: map<string, string>, keys: seq<string>)
    requires IsKeyOrder(data, keys)
    ensures KeysIn(keys, data)
  {
    forall k | k in keys ensures k in data {
      assert k in multiset(keys);
    }
  }

  /** One signed field: `key=value&`, the key as it is and the value form-encoded. */
  function Pair(key: string, value: string): (r: string)
    ensures |r| >= |key| + 2 && r[..|key| + 1] == key + "=" && r[|r| - 1] == '&'
  {
    key + "=" + FormEncode(value) + "&"
  }

  /** The pairs of `keys`, in that order. */
  function Pairs(keys: seq<string>, data: map<string, string>): (r: string)
    requires KeysIn(keys, data)
    ensures keys != [] ==> |r| > 0 && r[|r| - 1] == '&'
  {
    if keys == [] then "" else Pair(keys[0], data[keys[0]]) + Pairs(keys[1..], data)
  }

  /** The signed field names: the sorted keys, less `signature` and `passphrase`. */
  function IncludedKeys(keyOrder: seq<string>): (r: seq<string>)
    ensures Sorted(r)
    ensures forall k :: k in r <==> k in keyOrder && k !in Skipped
  {
    var sorted := Sort(keyOrder);
    assert forall k :: k in sorted <==> k in keyOrder by {
      forall k ensures k in sorted <==> k in keyOrder {
        assert k in sorted <==> k in multiset(sorted);
        assert k in keyOrder <==> k in multiset(keyOrder);
      }
    }
    WithoutSorted(sorted, Skipped);
    Without(sorted, Skipped)
  }

  /** `process.env.PAYFAST_PASSPHRASE || ''`. */
  function ConfiguredPassphrase(env: Option<string>): (p: string)
    ensures env.None? ==> p == ""
    ensures env.Some? ==> p == env.value
  {
    match env
    case Some(v) => v
    case None => ""
  }

  /** The closing term, present even when the passphrase is empty or unset. */
  function PassphraseTerm(env: Option<string>): (r: string)
    ensures |r| >= 11 && r[..11] == "passphrase="
    ensures ConfiguredPassphrase(env) == "" ==> r == "passphrase="
  {
    "passphrase=" + EncodeURIComponent(ConfiguredPassphrase(env))
  }

  /** The string the generator hashes. */
  function StringToHash(data: map<string, string>, keyOrder: seq<string>, env: Option<string>): (r: string)
    requires KeysIn(keyOrder, data)
    ensures |PassphraseTerm(env)| <= |r| && r[|r| - |PassphraseTerm(env)|..] == PassphraseTerm(env)
  {
    var r := Pairs(IncludedKeys(keyOrder), data) + PassphraseTerm(env);
    assert r[|r| - |PassphraseTerm(env)|..] == PassphraseTerm(env);
    r
  }

  /**
    The handler: sort the keys, append `key=value&` for each signed key with the value
    `encodeURIComponent`-encoded and `%20` rewritten to `+`, append the passphrase
    term, and return the digest of the result.
  */
  method GenerateSignature(data: map<string, string>, keyOrder: seq<string>, env: Option<string>, md5: string -> string)
    returns (signature: string)
    requires IsKeyOrder(data, keyOrder)
    ensures KeysIn(keyOrder, data)
    ensures signature == md5(StringToHash(data, keyOrder, env))
  {
    KeyOrderKeysIn(data, keyOrder);
    var sortedKeys := Sort(keyOrder);
    SortedKeysIn(data, keyOrder);
    var stringToHash := SignedPairs(sortedKeys, data);
    var passphrase := if env.Some? && env.value != "" then env.value else "";
    ClosingTerm(data, keyOrder, env, stringToHash, passphrase);
    stringToHash := stringToHash + ("passphrase=" + EncodeURIComponent(passphrase));
    signature := md5(stringToHash);
  }

  /** The handler's `for … of` loop over the sorted keys: `key=value&` for each key not skipped. */
  method SignedPairs(sortedKeys: seq<string>, data: map<string, string>) returns (stringToHash: string)
    requires KeysIn(sortedKeys, data)
    ensures KeysIn(Without(sortedKeys, Skipped), data)
    ensures stringToHash == Pairs(Without(sortedKeys, Skipped), data)
  {
    stringToHash := "";
    for i := 0 to |sortedKeys|
      invariant KeysIn(Without(sortedKeys[..i], Skipped), data)
      invariant stringToHash == Pairs(Without(sortedKeys[..i], Skipped), data)
    {
      var key := sortedKeys[i];
      assert sortedKeys[..i + 1] == sortedKeys[..i] + [key];
      PairsStep(sortedKeys[..i], key, data);
      if key !in Skipped {
        var pair := SignedPair(key, data[key]);
        stringToHash := stringToHash + pair;
      }
    }
    assert sortedKeys[..|sortedKeys|] == sortedKeys;
  }

  // ----- helpers -----

  /** `${key}=${encodeURIComponent(value).replace(/%20/g, '+')}&`: the value with its spaces as `+`. */
  method SignedPair(key: string, value: string) returns (pair: string)
    ensures pair == Pair(key, value)
  {
    pair := key + "=" + ReplacePercent20(EncodeURIComponent(value)) + "&";
    ReplaceOfEncode(value);
  }

  lemma SortedKeysIn(data: map<string, string>, keyOrder: seq<string>)
    requires KeysIn(keyOrder, data)
    ensures KeysIn(Sort(keyOrder), data)
  {
    var sortedKeys := Sort(keyOrder);
    forall k | k in sortedKeys ensures k in data {
      assert k in multiset(sortedKeys);
      assert k in keyOrder;
    }
  }

  /** The handler's last step: the signed pairs followed by the passphrase term are the hashed string. */
  lemma ClosingTerm(data: map<string, string>, keyOrder: seq<string>, env: Option<string>, pairs: string, passphrase: string)
    requires KeysIn(keyOrder, data) && KeysIn(Sort(keyOrder), data)
    requires pairs == Pairs(Without(Sort(keyOrder), Skipped), data)
    requires passphrase == (if env.Some? && env.value != "" then env.value else "")
    ensures pairs + ("passphrase=" + EncodeURIComponent(passphrase)) == StringToHash(data, keyOrder, env)
  {
    StringToHashParts(data, keyOrder, env);
    assert passphrase == ConfiguredPassphrase(env);
  }

  /** The hashed string is the pairs followed by the passphrase term. */
  lemma StringToHashParts(data: map<string, string>, keyOrder: seq<string>, env: Option<string>)
    requires KeysIn(keyOrder, data)
    ensures StringToHash(data, keyOrder, env) == Pairs(IncludedKeys(keyOrder), data) + PassphraseTerm(env)
  {
  }

  /** One turn of the handler's loop. */
  lemma PairsStep(done: seq<string>, key: string, data: map<string, string>)
    requires KeysIn(done + [key], data)
    ensures KeysIn(Without(done + [key], Skipped), data) && KeysIn(Without(done, Skipped), data)
    ensures Pairs(Without(done + [key], Skipped), data)
         == Pairs(Without(done, Skipped), data)
            + (if key in Skipped then "" else Pair(key, data[key]))
  {
    WithoutSnoc(done, key, Skipped);
    var w := Without(done, Skipped);
    assert KeysIn(w, data) by {
      forall k | k in w ensures k in data {
        assert k in done + [key];
      }
    }
    assert key in done + [key];
    if key in Skipped {
      assert w + [] == w;
    } else {
      PairsSnoc(w, key, data);
    }
  }

  lemma PairsSnoc(keys: seq<string>, key: string, data: map<string, string>)
    requires KeysIn(keys, data) && key in data
    ensures KeysIn(keys + [key], data)
    ensures Pairs(keys + [key], data) == Pairs(keys, data) + Pair(key, data[key])
  {
    PairsConcat(keys, [key], data);
    assert [key][1..] == [];
    assert Pairs([key], data) == Pair(key, data[key]) + "";
  }

  lemma {:induction false} WithoutSnoc(s: seq<string>, x: string, drop: set<string>)
    ensures Without(s + [x], drop) == Without(s, drop) + (if x in drop then [] else [x])
  {
    if s == [] {
      assert [] + [x] == [x];
      WithoutCons(x, [], drop);
    } else {
      var y, t := s[0], s[1..];
      assert s == [y] + t && s + [x] == [y] + (t + [x]);
      WithoutCons(y, t + [x], drop);
      WithoutCons(y, t, drop);
      WithoutSnoc(t, x, drop);
      RegroupKeys(Without(s + [x], drop), if y in drop then [] else [y], Without(t + [x], drop),
                  Without(t, drop), if x in drop then [] else [x]);
    }
  }

  /** Proof helper: sequence associativity for splitting a key list. */
  lemma RegroupKeys(whole: seq<string>, head: seq<string>, rest: seq<string>, mid: seq<string>, last: seq<string>)
    requires whole == head + rest && rest == mid + last
    ensures whole == (head + mid) + last
  {
  }

  lemma {:induction false} PairsConcat(a: seq<string>, b: seq<string>, data: map<string, string>)
    requires KeysIn(a, data) && KeysIn(b, data)
    ensures KeysIn(a + b, data)
    ensures Pairs(a + b, data) == Pairs(a, data) + Pairs(b, data)
  {
    if a == [] {
      assert a + b == b;
    } else {
      assert (a + b)[1..] == a[1..] + b;
      PairsConcat(a[1..], b, data);
    }
  }

  /** Pairs only read the fields they name. */
  lemma {:induction false} PairsAgree(keys: seq<string>, data: map<string, string>, other: map<string, string>)
    requires KeysIn(keys, data) && KeysIn(keys, other)
    requires forall k :: k in keys ==> data[k] == other[k]
    ensures Pairs(keys, data) == Pairs(keys, other)
  {
    if keys != [] {
      PairsAgree(keys[1..], data, other);
    }
  }

  lemma {:induction false} WithoutTwice(s: seq<string>, drop: set<string>)
    ensures Without(Without(s, drop), drop) == Without(s, drop)
  {
    if s != [] {
      var w1 := Without(s[1..], drop);
      WithoutTwice(s[1..], drop);
      WithoutCons(s[0], s[1..], drop);
      assert s == [s[0]] + s[1..];
      if s[0] !in drop {
        assert Without(s, drop) == [s[0]] + w1;
        WithoutCons(s[0], w1, drop);
        assert Without([s[0]] + w1, drop) == [s[0]] + Without(w1, drop);
      } else {
        assert Without(s, drop) == w1;
      }
    }
  }

  // ----- properties -----

  /**
    Fields named `signature` or `passphrase` never contribute: removing them (whatever
    their values) leaves the string to hash unchanged.
  */
  lemma SkippedFieldsIgnored(data: map<string, string>, keyOrder: seq<string>, env: Option<string>)
    requires KeysIn(keyOrder, data)
    ensures KeysIn(Without(keyOrder, Skipped), data - Skipped)
    ensures StringToHash(data - Skipped, Without(keyOrder, Skipped), env) == StringToHash(data, keyOrder, env)
  {
    var o := Without(keyOrder, Skipped);
    WithoutSort(keyOrder, Skipped);
    WithoutTwice(Sort(keyOrder), Skipped);
    assert IncludedKeys(o) == IncludedKeys(keyOrder);
    PairsAgree(IncludedKeys(keyOrder), data, data - Skipped);
  }

  /** The signature does not depend on the order of the fields in the request body. */
  lemma KeyOrderIrrelevant(data: map<string, string>, order1: seq<string>, order2: seq<string>, env: Option<string>)
    requires IsKeyOrder(data, order1) && IsKeyOrder(data, order2)
    ensures KeysIn(order1, data) && KeysIn(order2, data)
    ensures StringToHash(data, order1, env) == StringToHash(data, order2, env)
  {
    KeyOrderKeysIn(data, order1);
    KeyOrderKeysIn(data, order2);
    SortOrderIndependent(order1, order2);
  }
}

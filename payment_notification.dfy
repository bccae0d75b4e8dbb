/**
  The payment-gateway notification handler (`POST /api/payment-notification`).

  The posted form is modelled as the map of its fields together with `keyOrder`,
  the order in which `Object.keys` lists them. The handler rebuilds the signed
  string, hashes it with `md5` (a parameter, as in the generator) and accepts the
  notification only when the digest matches the posted `signature` field.
*/
module PaymentNotification {
  import opened Wrappers
  import opened Strings
  import opened UriEncoding
  import opened SignatureGeneration

  /** The only field the verifier leaves out. */
  const Unsigned: set<string> := {"signature"}

  /** `Object.keys(pfData).filter(key => key !== 'signature').sort()`. */
  function SignedKeys(keyOrder: seq<string>): (r: seq<string>)
    ensures Sorted(r)
    ensures forall k :: k in r <==> k in keyOrder && k != "signature"
  {
    var kept := Without(keyOrder, Unsigned);
    var r := Sort(kept);
    assert forall k :: k in r <==> k in kept by {
      forall k ensures k in r <==> k in kept {
        assert k in r <==> k in multiset(r);
        assert k in kept <==> k in multiset(kept);
      }
    }
    r
  }

  /** One field as the verifier writes it: `key=` and the value under plain `encodeURIComponent`. */
  function Field(key: string, value: string): string {
    key + "=" + EncodeURIComponent(value)
  }

  function Fields(keys: seq<string>, data: map<string, string>): (r: seq<string>)
    requires KeysIn(keys, data)
    ensures |r| == |keys|
    ensures forall i :: 0 <= i < |keys| ==> r[i] == Field(keys[i], data[keys[i]])
  {
    if keys == [] then [] else [Field(keys[0], data[keys[0]])] + Fields(keys[1..], data)
  }

  /** The fields of the signed keys joined by single `&`. */
  function DataString(data: map<string, string>, keyOrder: seq<string>): (r: string)
    requires KeysIn(keyOrder, data)
    ensures |r| == 0 <==> |SignedKeys(keyOrder)| == 0
  {
    assert KeysIn(SignedKeys(keyOrder), data);
    var fields := Fields(SignedKeys(keyOrder), data);
    if fields != [] then
      assert |fields[0]| > 0;
      JoinFirstPart(fields, "&");
      Join(fields, "&")
    else
      Join(fields, "&")
  }

  /** `passphrase ? … : ''`: an unset or empty passphrase is falsy. */
  predicate HasPassphrase(env: Option<string>) {
    env.Some? && env.value != ""
  }

  /** The string the verifier hashes. */
  function VerificationString(data: map<string, string>, keyOrder: seq<string>, env: Option<string>): (r: string)
    requires KeysIn(keyOrder, data)
    ensures HasPassphrase(env) ==> r == DataString(data, keyOrder) + "&passphrase=" + EncodeURIComponent(env.value)
    ensures !HasPassphrase(env) ==> r == DataString(data, keyOrder)
  {
    if HasPassphrase(env) then DataString(data, keyOrder) + "&passphrase=" + EncodeURIComponent(env.value)
    else DataString(data, keyOrder)
  }

  /** What the handler concluded: the `payment_status` branch only logs. */
  datatype Verdict = InvalidSignature | Verified(complete: bool)

  datatype Body = ErrorBody(error: string) | MessageBody(message: string)

  datatype Response = Response(status: int, body: Body)

  /** The signature check, then the `payment_status === 'COMPLETE'` branch. */
  function Verify(data: map<string, string>, keyOrder: seq<string>, env: Option<string>, md5: string -> string): (v: Verdict)
    requires IsKeyOrder(data, keyOrder)
    ensures KeysIn(keyOrder, data)
    ensures v.InvalidSignature? <==>
      "signature" !in data || data["signature"] != md5(VerificationString(data, keyOrder, env))
    ensures v.Verified? ==> (v.complete <==> "payment_status" in data && data["payment_status"] == "COMPLETE")
  {
    KeyOrderKeysIn(data, keyOrder);
    var calculated := md5(VerificationString(data, keyOrder, env));
    if "signature" !in data || calculated != data["signature"] then InvalidSignature
    else Verified("payment_status" in data && data["payment_status"] == "COMPLETE")
  }

  const Acknowledgement := "Payment notification received and verified"

  function Respond(v: Verdict): (r: Response)
    ensures r.status == 400 <==> v.InvalidSignature?
    ensures r.status == 400 ==> r.body == ErrorBody("Invalid signature")
    ensures r.status != 400 ==> r == Response(200, MessageBody(Acknowledgement))
  {
    match v
    case InvalidSignature => Response(400, ErrorBody("Invalid signature"))
    case Verified(_) => Response(200, MessageBody(Acknowledgement))
  }

  /** The whole handler. */
  function HandleNotification(data: map<string, string>, keyOrder: seq<string>, env: Option<string>, md5: string -> string): (r: Response)
    requires IsKeyOrder(data, keyOrder)
    ensures KeysIn(keyOrder, data)
    ensures r.status == 400 <==>
      "signature" !in data || data["signature"] != md5(VerificationString(data, keyOrder, env))
    ensures r.status != 400 ==> r == Response(200, MessageBody(Acknowledgement))
  {
    Respond(Verify(data, keyOrder, env, md5))
  }

  // ----- properties -----

  /** A notification without a `signature` field is always rejected. */
  lemma MissingSignatureRejected(data: map<string, string>, keyOrder: seq<string>, env: Option<string>, md5: string -> string)
    requires IsKeyOrder(data, keyOrder)
    requires "signature" !in data
    ensures HandleNotification(data, keyOrder, env, md5) == Response(400, ErrorBody("Invalid signature"))
  {
  }

  /** A completed and a pending payment get the same acknowledgement. */
  lemma AcknowledgementIgnoresStatus()
    ensures Respond(Verified(true)) == Respond(Verified(false))
    ensures Respond(Verified(true)).status == 200
  {
  }

  /** The last element's last character ends the joined string. */
  lemma {:induction false} JoinLast(parts: seq<string>, sep: string)
    requires parts != [] && parts[|parts| - 1] != []
    ensures var j := Join(parts, sep); j != [] && j[|j| - 1] == parts[|parts| - 1][|parts[|parts| - 1]| - 1]
  {
    if |parts| > 1 {
      JoinLast(parts[1..], sep);
    }
  }

  /** A field ends with `=` or with the last character of the encoded value, never with `&`. */
  lemma FieldEnd(key: string, value: string)
    ensures var f := Field(key, value); f != [] && f[|f| - 1] != '&'
  {
    var e := EncodeURIComponent(value);
    var f := key + "=" + e;
    if e == [] {
      assert f[|f| - 1] == '=';
    } else {
      EncodedShape(value);
      assert f[|f| - 1] == e[|e| - 1];
      assert IsUnreserved(e[|e| - 1]) || e[|e| - 1] == '%';
    }
  }

  /** The data string never ends with `&`: fields are joined, not terminated. */
  lemma NoTrailingAmpersand(data: map<string, string>, keyOrder: seq<string>)
    requires KeysIn(keyOrder, data)
    ensures var d := DataString(data, keyOrder); d == [] || d[|d| - 1] != '&'
  {
    var keys := SignedKeys(keyOrder);
    assert KeysIn(keys, data);
    var fs := Fields(keys, data);
    if fs != [] {
      var k := keys[|keys| - 1];
      FieldEnd(k, data[k]);
      assert fs[|fs| - 1] == Field(k, data[k]);
      JoinLast(fs, "&");
    }
  }

  /**
    In the verifier a value keeps its spaces as `%20` and never gains a `+`, unlike
    the generator's spelling.
  */
  lemma FieldKeepsSpaceEscape(key: string, value: string)
    requires ' ' in value
    ensures exists i :: SpaceEscapeAt(Field(key, value), i)
    ensures exists i :: SpaceEscapeAt(EncodeURIComponent(value), i)
    ensures forall i :: 0 <= i < |EncodeURIComponent(value)| ==> EncodeURIComponent(value)[i] != '+'
  {
    EncodeKeepsSpaceEscape(value);
    var e := EncodeURIComponent(value);
    var i :| SpaceEscapeAt(e, i);
    assert Field(key, value) == (key + "=") + e;
    assert SpaceEscapeAt(Field(key, value), |key + "="| + i);
  }
}

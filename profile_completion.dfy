/**
  The profile-completion prompt: how complete the signed-in user's profile
  document is, and whether the prompt asking them to finish it is shown.

  The stored document is modelled as a map from field names to string values; a
  field counts when it is present and non-empty, as a JavaScript truthiness test
  does for strings. Sums of 12.5 are exact in binary floating point, so the running
  percentage is a `real`.
*/
module ProfileCompletion {
  import opened Wrappers

  const ProfileFields: seq<string> := ["firstName", "lastName", "email", "phone", "address", "city", "province", "postalCode"]

  const Step: real := 12.5

  /** `if (userData[field])`. */
  predicate IsSet(data: map<string, string>, field: string) {
    field in data && data[field] != ""
  }

  /** How many of `fields` are set, counted from the end. */
  function SetCount(fields: seq<string>, data: map<string, string>): (n: nat)
    ensures n <= |fields|
  {
    if fields == [] then 0
    else SetCount(fields[..|fields| - 1], data) + (if IsSet(data, fields[|fields| - 1]) then 1 else 0)
  }

  /** The `forEach` of `checkProfileCompletion`: 12.5 for each listed field that is set. */
  method CompletionPercentage(data: map<string, string>) returns (percentage: real)
    ensures percentage == Step * (SetCount(ProfileFields, data) as real)
    ensures 0.0 <= percentage <= 100.0
  {
    percentage := 0.0;
    for i := 0 to |ProfileFields|
      invariant percentage == Step * (SetCount(ProfileFields[..i], data) as real)
    {
      assert ProfileFields[..i + 1][..i] == ProfileFields[..i];
      if IsSet(data, ProfileFields[i]) {
        percentage := percentage + 12.5;
      }
    }
    assert ProfileFields[..|ProfileFields|] == ProfileFields;
  }

  /** `Math.round`: the nearest integer, halves rounded up. */
  function Round(x: real): (r: int)
    ensures r as real - 0.5 <= x < r as real + 0.5
  {
    (x + 0.5).Floor
  }

  /** The prompt's state. */
  class CompletionPrompt {
    var profileCompletion: int
    var showPrompt: bool

    constructor()
      ensures profileCompletion == 0 && !showPrompt
    {
      profileCompletion := 0;
      showPrompt := false;
    }

    /**
      `checkProfileCompletion` once the document has been read. Without a signed-in
      user nothing happens; a missing document shows the prompt and leaves the
      completion as it was.
    */
    method CheckProfileCompletion(signedIn: bool, document: Option<map<string, string>>)
      modifies this
      ensures !signedIn ==> profileCompletion == old(profileCompletion) && showPrompt == old(showPrompt)
      ensures signedIn && document.None? ==> showPrompt && profileCompletion == old(profileCompletion)
      ensures signedIn && document.Some? ==>
        && profileCompletion == Round(Step * (SetCount(ProfileFields, document.value) as real))
        && (Rendered() <==> SetCount(ProfileFields, document.value) < |ProfileFields|)
    {
      if signedIn {
        if document.Some? {
          var percentage := CompletionPercentage(document.value);
          profileCompletion := Round(percentage);
          showPrompt := percentage < 100.0;
        } else {
          showPrompt := true;
        }
      }
    }

    /** `handleDismiss`. */
    method HandleDismiss()
      modifies this
      ensures !Rendered() && profileCompletion == old(profileCompletion)
    {
      showPrompt := false;
    }

    /** The prompt renders nothing unless `showPrompt`. */
    predicate Rendered()
      reads this
    {
      showPrompt
    }
  }

  // ----- properties -----

  /** The stored completion is one of nine values. */
  lemma CompletionValues(n: nat)
    requires n <= 8
    ensures Round(Step * (n as real)) in {0, 13, 25, 38, 50, 63, 75, 88, 100}
    ensures Round(Step * (n as real)) == 100 <==> n == 8
  {
    var r := Round(Step * (n as real));
    if n == 0 { assert r == 0; }
    else if n == 1 { assert r == 13; }
    else if n == 2 { assert r == 25; }
    else if n == 3 { assert r == 38; }
    else if n == 4 { assert r == 50; }
    else if n == 5 { assert r == 63; }
    else if n == 6 { assert r == 75; }
    else if n == 7 { assert r == 88; }
    else { assert r == 100; }
  }

  /** More set fields never lower the stored completion. */
  lemma CompletionMonotone(m: nat, n: nat)
    requires m <= n
    ensures Round(Step * (m as real)) <= Round(Step * (n as real))
  {
    assert Step * (m as real) <= Step * (n as real);
  }

  /** Counting stops at the fields asked about: adding an unlisted key changes nothing. */
  lemma {:induction false} UnlistedIgnored(fields: seq<string>, data: map<string, string>, key: string, value: string)
    requires key !in fields
    ensures SetCount(fields, data[key := value]) == SetCount(fields, data)
  {
    if fields != [] {
      var init := fields[..|fields| - 1];
      assert fields == init + [fields[|fields| - 1]];
      UnlistedIgnored(init, data, key, value);
    }
  }

  /** Only the three name and email fields of the eight are set. */
  predicate OnlyNameAndEmail(data: map<string, string>) {
    && IsSet(data, "firstName") && IsSet(data, "lastName") && IsSet(data, "email")
    && "phone" !in data && "address" !in data && "city" !in data && "province" !in data && "postalCode" !in data
  }

  lemma NameAndEmailCount(data: map<string, string>)
    requires OnlyNameAndEmail(data)
    ensures SetCount(ProfileFields, data) == 3
  {
    var f := ProfileFields;
    assert f[..1] == ["firstName"] && f[..2] == f[..1] + ["lastName"] && f[..3] == f[..2] + ["email"];
    assert f[..4] == f[..3] + ["phone"] && f[..5] == f[..4] + ["address"] && f[..6] == f[..5] + ["city"];
    assert f[..7] == f[..6] + ["province"] && f == f[..7] + ["postalCode"];
    assert SetCount(f[..1], data) == 1;
    assert SetCount(f[..2], data) == 2;
    assert SetCount(f[..3], data) == 3;
    assert SetCount(f[..4], data) == 3;
    assert SetCount(f[..5], data) == 3;
    assert SetCount(f[..6], data) == 3;
    assert SetCount(f[..7], data) == 3;
  }

  /**
    The document written by email sign-up holds `phoneNumber`, which is not the
    listed `phone`, so a fresh account stands at 38% and is prompted.
  */
  lemma EmailSignUpCompletion(data: map<string, string>, phoneNumber: string, createdAt: string)
    requires OnlyNameAndEmail(data)
    ensures var doc := data["phoneNumber" := phoneNumber]["createdAt" := createdAt];
      && SetCount(ProfileFields, doc) == 3
      && Round(Step * (SetCount(ProfileFields, doc) as real)) == 38
      && SetCount(ProfileFields, doc) < |ProfileFields|
  {
    var withPhone := data["phoneNumber" := phoneNumber];
    assert "phoneNumber" !in ProfileFields;
    assert "createdAt" !in ProfileFields;
    UnlistedIgnored(ProfileFields, data, "phoneNumber", phoneNumber);
    UnlistedIgnored(ProfileFields, withPhone, "createdAt", createdAt);
    NameAndEmailCount(data);
    CompletionValues(3);
    assert Round(Step * 3.0) == 38;
  }
}

/**
  The password strength meter shown under the sign-up password field: a score
  from 0 to 5, its label and colour, and the five bar segments.
*/
module PasswordStrength {
  import opened Strings
  import opened Auth

  /** The class `[$@#&!]` of the meter, narrower than the sign-up rules' special set. */
  const MeterSpecials := "$@#&!"

  predicate HasMeterSpecial(s: string) {
    exists i :: 0 <= i < |s| && s[i] in MeterSpecials
  }

  /** One point per criterion met: length at least 8, a lowercase letter, an uppercase letter, a digit, a meter special. */
  function Strength(password: string): (score: int)
    ensures 0 <= score <= 5
    ensures score == 5 <==>
      |password| >= 8 && HasLower(password) && HasUpper(password) && HasDigit(password) && HasMeterSpecial(password)
  {
    (if |password| >= 8 then 1 else 0)
    + (if HasLower(password) then 1 else 0)
    + (if HasUpper(password) then 1 else 0)
    + (if HasDigit(password) then 1 else 0)
    + (if HasMeterSpecial(password) then 1 else 0)
  }

  /** `calculateStrength`: five tests, each adding one to the running score. */
  method CalculateStrength(password: string) returns (strength: int)
    ensures strength == Strength(password)
    ensures 0 <= strength <= 5
  {
    strength := 0;
    if |password| >= 8 {
      strength := strength + 1;
    }
    if HasLower(password) {
      strength := strength + 1;
    }
    if HasUpper(password) {
      strength := strength + 1;
    }
    if HasDigit(password) {
      strength := strength + 1;
    }
    if HasMeterSpecial(password) {
      strength := strength + 1;
    }
  }

  const Gray := "bg-gray-200"

  /** `getColor`: 0 and 1 red, then orange, yellow, blue, green; anything else gray. */
  function Color(strength: int): (c: string)
    ensures 0 <= strength <= 5 ==> c != Gray
    ensures !(0 <= strength <= 5) ==> c == Gray
  {
    if strength == 0 || strength == 1 then "bg-red-500"
    else if strength == 2 then "bg-orange-500"
    else if strength == 3 then "bg-yellow-500"
    else if strength == 4 then "bg-blue-500"
    else if strength == 5 then "bg-green-500"
    else "bg-gray-200"
  }

  /** `getLabel`: 0 and 1 "Very Weak", then "Weak", "Medium", "Strong", "Very Strong"; anything else empty. */
  function Label(strength: int): (l: string)
    ensures 0 <= strength <= 5 ==> l != []
    ensures !(0 <= strength <= 5) ==> l == []
  {
    if strength == 0 || strength == 1 then "Very Weak"
    else if strength == 2 then "Weak"
    else if strength == 3 then "Medium"
    else if strength == 4 then "Strong"
    else if strength == 5 then "Very Strong"
    else ""
  }

  /** The classes of the segments for indices `from` to 5: coloured up to `strength`, gray beyond. */
  function SegmentsFrom(from: nat, strength: int): (segs: seq<string>)
    requires 1 <= from <= 6
    ensures |segs| == 6 - from
    ensures forall k :: 0 <= k < |segs| ==> segs[k] == if from + k <= strength then Color(strength) else Gray
    decreases 6 - from
  {
    if from == 6 then [] else [if from <= strength then Color(strength) else Gray] + SegmentsFrom(from + 1, strength)
  }

  /** `[1, 2, 3, 4, 5].map(index => index <= strength ? getColor(strength) : 'bg-gray-200')`. */
  function Segments(strength: int): seq<string> {
    SegmentsFrom(1, strength)
  }

  function ColouredCount(segs: seq<string>): nat {
    if segs == [] then 0 else (if segs[0] != Gray then 1 else 0) + ColouredCount(segs[1..])
  }

  // ----- properties -----

  lemma StrengthRange(password: string)
    ensures 0 <= Strength(password) <= 5
    ensures password == [] ==> Strength(password) == 0
  {
  }

  /** Typing one more character never lowers the score. */
  lemma StrengthMonotone(password: string, c: char)
    ensures Strength(password + [c]) >= Strength(password)
  {
    var q := password + [c];
    assert forall i :: 0 <= i < |password| ==> q[i] == password[i];
    if HasLower(password) {
      var i :| 0 <= i < |password| && IsLower(password[i]);
      assert IsLower(q[i]);
    }
    if HasUpper(password) {
      var i :| 0 <= i < |password| && IsUpper(password[i]);
      assert IsUpper(q[i]);
    }
    if HasDigit(password) {
      var i :| 0 <= i < |password| && IsDigit(password[i]);
      assert IsDigit(q[i]);
    }
    if HasMeterSpecial(password) {
      var i :| 0 <= i < |password| && password[i] in MeterSpecials;
      assert q[i] in MeterSpecials;
    }
  }

  /** A password the sign-up rules accept scores at least "Medium". */
  lemma AcceptedIsAtLeastMedium(password: string)
    requires PasswordError(password).None?
    ensures Strength(password) >= 3
    ensures Label(Strength(password)) in {"Medium", "Strong", "Very Strong"}
  {
  }

  /** An accepted password can still score only "Medium": `%` satisfies the rules but not the meter. */
  lemma AcceptedYetMedium()
    ensures PasswordError("ABCDEFG1%").None?
    ensures Strength("ABCDEFG1%") == 3
  {
    var p := "ABCDEFG1%";
    assert IsUpper(p[0]) && IsDigit(p[7]) && p[8] in SpecialChars;
    assert !HasLower(p) by {
      assert forall i :: 0 <= i < |p| ==> !IsLower(p[i]);
    }
    assert !HasMeterSpecial(p) by {
      assert forall i :: 0 <= i < |p| ==> p[i] !in MeterSpecials;
    }
  }

  /** Colours and labels group the scores alike: 0 and 1 together, every other score alone. */
  lemma ColorFollowsLabel(s: int, t: int)
    requires 0 <= s <= 5 && 0 <= t <= 5
    ensures Color(s) == Color(t) <==> Label(s) == Label(t)
    ensures Label(s) == Label(t) <==> s == t || (s <= 1 && t <= 1)
  {
    assert "bg-red-500"[3] == 'r' && "bg-orange-500"[3] == 'o' && "bg-yellow-500"[3] == 'y';
    assert "bg-blue-500"[3] == 'b' && "bg-green-500"[3] == 'g';
    assert |"Very Weak"| == 9 && |"Weak"| == 4 && |"Medium"| == 6 && |"Strong"| == 6 && |"Very Strong"| == 11;
    assert "Medium"[0] != "Strong"[0];
  }

  /** Exactly `strength` of the five segments are coloured. */
  lemma {:induction false} ColouredFrom(from: nat, strength: int)
    requires 1 <= from <= 6 && 0 <= strength <= 5
    ensures ColouredCount(SegmentsFrom(from, strength)) == if strength >= from then strength - from + 1 else 0
    decreases 6 - from
  {
    if from < 6 {
      var segs := SegmentsFrom(from, strength);
      ColouredFrom(from + 1, strength);
      assert segs[1..] == SegmentsFrom(from + 1, strength);
    }
  }

  lemma SegmentsColoured(strength: int)
    requires 0 <= strength <= 5
    ensures |Segments(strength)| == 5
    ensures ColouredCount(Segments(strength)) == strength
  {
    ColouredFrom(1, strength);
  }
}

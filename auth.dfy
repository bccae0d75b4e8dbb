/**
  The sign-in and sign-up page's own logic: the password rules, the phone pattern
  and formatter, first-letter capitalisation, the order of the sign-up checks and
  the page to go to once signed in.
*/
module Auth {
  import opened Wrappers
  import opened Strings

  const MinPasswordLength := 8
  const MaxPasswordLength := 16

  const LengthError := "Password must be between 8 and 16 characters long."
  const UppercaseError := "Password must contain at least one uppercase letter."
  const NumberError := "Password must contain at least one number."
  const SpecialError := "Password must contain at least one special character."

  const NameRequired := "Please enter your first and last name."
  const InvalidPhone := "Please enter a valid phone number."
  const PasswordMismatch := "Passwords do not match."

  /** The class `[!@#$%^&*(),.?":{}|<>]`. */
  const SpecialChars := "!@#$%^&*(),.?\":{}|<>"

  predicate HasSpecial(s: string) {
    exists i :: 0 <= i < |s| && s[i] in SpecialChars
  }

  /** `validatePassword`: the first rule that fails, in the order length, uppercase, digit, special. */
  function PasswordError(password: string): (e: Option<string>)
    ensures e.None? <==>
      MinPasswordLength <= |password| <= MaxPasswordLength && HasUpper(password) && HasDigit(password) && HasSpecial(password)
    ensures !(MinPasswordLength <= |password| <= MaxPasswordLength) ==> e == Some(LengthError)
    ensures MinPasswordLength <= |password| <= MaxPasswordLength && !HasUpper(password) ==> e == Some(UppercaseError)
    ensures MinPasswordLength <= |password| <= MaxPasswordLength && HasUpper(password) && !HasDigit(password) ==> e == Some(NumberError)
    ensures MinPasswordLength <= |password| <= MaxPasswordLength && HasUpper(password) && HasDigit(password) && !HasSpecial(password)
      ==> e == Some(SpecialError)
  {
    if |password| < 8 || |password| > 16 then Some("Password must be between 8 and 16 characters long.")
    else if !HasUpper(password) then Some("Password must contain at least one uppercase letter.")
    else if !HasDigit(password) then Some("Password must contain at least one number.")
    else if !HasSpecial(password) then Some("Password must contain at least one special character.")
    else None
  }

  /** The class `[\d\s-]`. */
  predicate IsPhoneChar(c: char) {
    IsDigit(c) || IsJsWhitespace(c) || c == '-'
  }

  /**
    `/^\+?[\d\s-]{10,}$/.test(phone)`. A `+` is not in the class, so a leading `+`
    can only be the optional sign and the match is decided without backtracking.
  */
  predicate IsValidPhone(phone: string): (valid: bool)
    ensures valid ==> |phone| >= 10
    ensures valid ==> forall i :: 0 <= i < |phone| ==> IsPhoneChar(phone[i]) || (i == 0 && phone[0] == '+')
    ensures valid <==>
      || (|phone| >= 10 && forall i :: 0 <= i < |phone| ==> IsPhoneChar(phone[i]))
      || (|phone| >= 11 && phone[0] == '+' && forall i :: 1 <= i < |phone| ==> IsPhoneChar(phone[i]))
  {
    var body := if phone != [] && phone[0] == '+' then phone[1..] else phone;
    |body| >= 10 && forall i :: 0 <= i < |body| ==> IsPhoneChar(body[i])
  }

  /** `value.replace(/\D/g, '')`. */
  function Digits(s: string): (r: string)
    ensures |r| <= |s|
    ensures forall i :: 0 <= i < |r| ==> IsDigit(r[i])
  {
    if s == [] then [] else (if IsDigit(s[0]) then [s[0]] else []) + Digits(s[1..])
  }

  /** The digits grouped as `ddd`, `ddd-rest` or `ddd-ddd-dddd`; digits after the tenth are dropped. */
  function Grouped(cleaned: string): (r: string)
    ensures |cleaned| <= 3 ==> r == cleaned
    ensures |r| <= 12 || |cleaned| <= 3
    ensures forall i :: 0 <= i < |r| ==> r[i] == '-' || r[i] in cleaned
  {
    if |cleaned| <= 3 then cleaned
    else if |cleaned| <= 6 then cleaned[..3] + "-" + cleaned[3..]
    else cleaned[..3] + "-" + cleaned[3..6] + "-" + cleaned[6..if |cleaned| < 10 then |cleaned| else 10]
  }

  /** `formatPhoneNumber`, applied to the input on every keystroke. */
  function FormatPhoneNumber(value: string): (r: string)
    ensures forall i :: 0 <= i < |r| ==> IsDigit(r[i]) || r[i] == '-'
    ensures |r| <= 12
  {
    var cleaned := Digits(value);
    var r := Grouped(cleaned);
    assert forall i :: 0 <= i < |r| ==> IsDigit(r[i]) || r[i] == '-';
    r
  }

  /** `toUpperCase` on one character, over ASCII. */
  function UpperAscii(c: char): (u: char)
    ensures IsLower(c) ==> IsUpper(u)
    ensures !IsLower(c) ==> u == c
  {
    if 'a' <= c <= 'z' then (c as int - 32) as char else c
  }

  /** `s.charAt(0).toUpperCase() + s.slice(1)`. */
  function Capitalize(s: string): (r: string)
    ensures |r| == |s|
    ensures forall i :: 0 < i < |s| ==> r[i] == s[i]
    ensures s != [] ==> r[0] == UpperAscii(s[0])
  {
    if s == [] then [] else [UpperAscii(s[0])] + s[1..]
  }

  /** The checks of `handleEmailSignUp` before any account is created: the first one failing. */
  function SignUpError(firstName: string, lastName: string, phoneNumber: string,
                       password: string, confirmPassword: string): (e: Option<string>)
    ensures e.None? <==>
      Trim(firstName) != [] && Trim(lastName) != [] && IsValidPhone(phoneNumber)
      && PasswordError(password).None? && password == confirmPassword
    ensures Trim(firstName) == [] || Trim(lastName) == [] ==> e == Some(NameRequired)
    ensures Trim(firstName) != [] && Trim(lastName) != [] && !IsValidPhone(phoneNumber) ==> e == Some(InvalidPhone)
    ensures Trim(firstName) != [] && Trim(lastName) != [] && IsValidPhone(phoneNumber) && PasswordError(password).Some?
      ==> e == PasswordError(password)
    ensures (Trim(firstName) != [] && Trim(lastName) != [] && IsValidPhone(phoneNumber) && PasswordError(password).None?
             && password != confirmPassword) ==> e == Some(PasswordMismatch)
  {
    if Trim(firstName) == [] || Trim(lastName) == [] then Some("Please enter your first and last name.")
    else if !IsValidPhone(phoneNumber) then Some("Please enter a valid phone number.")
    else if PasswordError(password).Some? then PasswordError(password)
    else if password != confirmPassword then Some("Passwords do not match.")
    else None
  }

  /** Where a signed-in user is sent: `/${redirect}` for a non-empty parameter, else `/profile`. */
  function RedirectTarget(redirect: Option<string>): (path: string)
    ensures redirect.Some? && redirect.value != [] ==> path == "/" + redirect.value
    ensures redirect.None? || redirect.value == [] ==> path == "/profile"
  {
    if redirect.Some? && redirect.value != [] then "/" + redirect.value else "/profile"
  }

  // ----- properties -----

  lemma {:induction false} DigitsConcat(a: string, b: string)
    ensures Digits(a + b) == Digits(a) + Digits(b)
  {
    if a == [] {
      assert a + b == b;
    } else {
      assert (a + b)[1..] == a[1..] + b;
      DigitsConcat(a[1..], b);
    }
  }

  lemma {:induction false} DigitsOfDigits(s: string)
    requires forall i :: 0 <= i < |s| ==> IsDigit(s[i])
    ensures Digits(s) == s
  {
    if s != [] {
      DigitsOfDigits(s[1..]);
      assert [s[0]] + s[1..] == s;
    }
  }

  /** A dash after a run of digits is dropped. */
  lemma DigitsAfterDash(a: string, b: string)
    requires forall i :: 0 <= i < |a| ==> IsDigit(a[i])
    ensures Digits(a + "-" + b) == a + Digits(b)
  {
    var dash := "-";
    assert Digits(dash) == [] by {
      assert dash[1..] == [];
    }
    DigitsOfDigits(a);
    DigitsConcat(a, dash);
    assert Digits(a + dash) == a;
    DigitsConcat(a + dash, b);
  }

  lemma GroupedMiddleDigits(c: string)
    requires 3 < |c| <= 6 && forall i :: 0 <= i < |c| ==> IsDigit(c[i])
    ensures Digits(Grouped(c)) == c
  {
    DigitsAfterDash(c[..3], c[3..]);
    DigitsOfDigits(c[3..]);
    assert c[..3] + c[3..] == c;
  }

  lemma GroupedLongDigits(c: string)
    requires |c| > 6 && forall i :: 0 <= i < |c| ==> IsDigit(c[i])
    ensures Digits(Grouped(c)) == c[..if |c| < 10 then |c| else 10]
  {
    var n := if |c| < 10 then |c| else 10;
    var tail := c[3..6] + "-" + c[6..n];
    assert Grouped(c) == c[..3] + "-" + tail;
    DigitsAfterDash(c[..3], tail);
    DigitsAfterDash(c[3..6], c[6..n]);
    DigitsOfDigits(c[6..n]);
    assert c[..3] + (c[3..6] + c[6..n]) == c[..n];
  }

  /** Formatting keeps the digits, in order, up to the tenth. */
  lemma FormattedDigits(value: string)
    ensures var c := Digits(value);
      Digits(FormatPhoneNumber(value)) == c[..if |c| < 10 then |c| else 10]
  {
    var c := Digits(value);
    if |c| <= 3 {
      DigitsOfDigits(c);
      assert c[..|c|] == c;
    } else if |c| <= 6 {
      GroupedMiddleDigits(c);
      assert c[..|c|] == c;
    } else {
      GroupedLongDigits(c);
    }
  }

  /** Reformatting a formatted number changes nothing, so re-applying it on each keystroke is harmless. */
  lemma FormatIdempotent(value: string)
    ensures FormatPhoneNumber(FormatPhoneNumber(value)) == FormatPhoneNumber(value)
  {
    FormattedDigits(value);
    var c := Digits(value);
    var n := if |c| < 10 then |c| else 10;
    var t := c[..n];
    assert Digits(FormatPhoneNumber(value)) == t;
    if |c| > 6 {
      assert t[..3] == c[..3] && t[3..6] == c[3..6] && t[6..n] == c[6..n];
    } else {
      assert t == c;
    }
  }

  /** A formatted number passes the phone pattern exactly when it was typed with at least 8 digits. */
  lemma FormattedValidIffEightDigits(value: string)
    ensures IsValidPhone(FormatPhoneNumber(value)) <==> |Digits(value)| >= 8
  {
    var c := Digits(value);
    var r := FormatPhoneNumber(value);
    assert r != [] ==> r[0] != '+' by {
      if r != [] {
        assert r[0] == c[0];
      }
    }
    assert forall i :: 0 <= i < |r| ==> IsPhoneChar(r[i]);
    if |c| > 6 {
      assert |r| == 2 + (if |c| < 10 then |c| else 10);
    }
  }

  /** The ten characters are counted after the `+`: nine digits after it are too few, ten are enough. */
  lemma PhoneSignNotCounted()
    ensures !IsValidPhone("+123456789")
    ensures IsValidPhone("+1234567890")
  {
    assert !IsPhoneChar('+');
  }

  /** Capitalising twice is capitalising once; the empty string stays empty. */
  lemma CapitalizeIdempotent(s: string)
    ensures Capitalize(Capitalize(s)) == Capitalize(s)
    ensures Capitalize([]) == []
  {
    if s != [] {
      assert Capitalize(Capitalize(s))[0] == UpperAscii(UpperAscii(s[0]));
    }
  }

  /** The phone check comes before the password rules: a bad phone hides any password error. */
  lemma PhoneCheckedBeforePassword(firstName: string, lastName: string, phoneNumber: string,
                                   password: string, confirmPassword: string)
    requires Trim(firstName) != [] && Trim(lastName) != [] && !IsValidPhone(phoneNumber)
    ensures SignUpError(firstName, lastName, phoneNumber, password, confirmPassword) == Some(InvalidPhone)
    ensures SignUpError(firstName, lastName, phoneNumber, password, confirmPassword) != PasswordError(password)
  {
  }

  /** Surrounding spaces do not make a name: a blank first name is refused first. */
  lemma BlankNameRefused(lastName: string, phoneNumber: string, password: string, confirmPassword: string)
    ensures SignUpError("  ", lastName, phoneNumber, password, confirmPassword) == Some(NameRequired)
  {
    assert AllWhitespace("  ");
  }
}

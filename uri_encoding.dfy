/**
  ECMA-262 `encodeURIComponent`: every character outside the unreserved set of
  section 2.3 of RFC 2396 is replaced by the percent-encoding (section 2.1 of
  RFC 3986, upper-case hexadecimal) of each byte of its UTF-8 form. Also the
  `.replace(/%20/g, '+')` rewrite the signature generator applies to it, which
  gives the `application/x-www-form-urlencoded` spelling of a space.
*/
module UriEncoding {
  import opened Strings

  /** `A-Z a-z 0-9 - _ . ! ~ * ' ( )`: the characters left as they are. */
  predicate IsUnreserved(c: char) {
    IsUpper(c) || IsLower(c) || IsDigit(c)
    || c == '-' || c == '_' || c == '.' || c == '!' || c == '~' || c == '*' || c == '\'' || c == '(' || c == ')'
  }

  predicate IsByte(b: int) {
    0 <= b < 256
  }

  /** The UTF-8 encoding of one Unicode scalar value. */
  function Utf8(c: char): (bytes: seq<int>)
    ensures 1 <= |bytes| <= 4
    ensures forall k :: 0 <= k < |bytes| ==> IsByte(bytes[k])
    ensures |bytes| == 1 <==> c as int < 0x80
    ensures |bytes| == 1 ==> bytes[0] == c as int
    ensures |bytes| > 1 ==> forall k :: 0 <= k < |bytes| ==> bytes[k] >= 0x80
  {
    var n := c as int;
    if n < 0x80 then [n]
    else if n < 0x800 then [0xC0 + n / 0x40, 0x80 + n % 0x40]
    else if n < 0x10000 then [0xE0 + n / 0x1000, 0x80 + (n / 0x40) % 0x40, 0x80 + n % 0x40]
    else [0xF0 + n / 0x40000, 0x80 + (n / 0x1000) % 0x40, 0x80 + (n / 0x40) % 0x40, 0x80 + n % 0x40]
  }

  /** An upper-case hexadecimal digit. */
  function HexDigit(d: int): (c: char)
    requires 0 <= d < 16
    ensures IsUnreserved(c) && c != '%' && c != '+'
    ensures c == '0' <==> d == 0
    ensures c == '2' <==> d == 2
  {
    if d < 10 then ('0' as int + d) as char else ('A' as int + d - 10) as char
  }

  /** `%XY` for one byte. */
  function PercentByte(b: int): string
    requires IsByte(b)
  {
    ['%', HexDigit(b / 16), HexDigit(b % 16)]
  }

  function PercentBytes(bytes: seq<int>): string
    requires forall k :: 0 <= k < |bytes| ==> IsByte(bytes[k])
  {
    if bytes == [] then [] else PercentByte(bytes[0]) + PercentBytes(bytes[1..])
  }

  function EncodeChar(c: char): string {
    if IsUnreserved(c) then [c] else PercentBytes(Utf8(c))
  }

  /** `encodeURIComponent(s)`. */
  function EncodeURIComponent(s: string): string {
    if s == [] then [] else EncodeChar(s[0]) + EncodeURIComponent(s[1..])
  }

  /** The value encoding that the string replacement below produces: a space becomes `+`. */
  function FormEncode(s: string): string {
    if s == [] then [] else (if s[0] == ' ' then "+" else EncodeChar(s[0])) + FormEncode(s[1..])
  }

  /** `s.replace(/%20/g, '+')`: left to right, non-overlapping. */
  function ReplacePercent20(s: string): string {
    if |s| >= 3 && s[0] == '%' && s[1] == '2' && s[2] == '0' then "+" + ReplacePercent20(s[3..])
    else if s == [] then []
    else [s[0]] + ReplacePercent20(s[1..])
  }

  // ----- the replacement turns encodeURIComponent into FormEncode -----

  lemma ReplaceByte(b: int, rest: string)
    requires IsByte(b)
    ensures ReplacePercent20(PercentByte(b) + rest)
         == (if b == 0x20 then "+" else PercentByte(b)) + ReplacePercent20(rest)
  {
    var h1, h2 := HexDigit(b / 16), HexDigit(b % 16);
    var t := PercentByte(b) + rest;
    assert t == ['%', h1, h2] + rest;
    assert t[3..] == rest;
    if b != 0x20 {
      assert !(h1 == '2' && h2 == '0');
      assert t[1..] == [h1, h2] + rest;
      assert t[2..] == [h2] + rest;
      calc {
        ReplacePercent20(t);
        [t[0]] + ReplacePercent20(t[1..]);
        { assert t[1..][1..] == t[2..]; }
        ['%'] + ([h1] + ReplacePercent20(t[2..]));
        { assert t[2..][1..] == rest; }
        ['%'] + ([h1] + ([h2] + ReplacePercent20(rest)));
        PercentByte(b) + ReplacePercent20(rest);
      }
    }
  }

  lemma {:induction false} ReplaceBytes(bytes: seq<int>, rest: string)
    requires forall k :: 0 <= k < |bytes| ==> IsByte(bytes[k]) && bytes[k] != 0x20
    ensures ReplacePercent20(PercentBytes(bytes) + rest) == PercentBytes(bytes) + ReplacePercent20(rest)
  {
    if bytes != [] {
      var head, tail := PercentByte(bytes[0]), PercentBytes(bytes[1..]);
      assert PercentBytes(bytes) == head + tail;
      assert PercentBytes(bytes) + rest == head + (tail + rest);
      ReplaceByte(bytes[0], tail + rest);
      ReplaceBytes(bytes[1..], rest);
      Reassociate(ReplacePercent20(PercentBytes(bytes) + rest), head, ReplacePercent20(tail + rest),
                  tail, ReplacePercent20(rest));
    } else {
      assert PercentBytes(bytes) + rest == rest;
    }
  }

  lemma ReplaceChar(c: char, rest: string)
    ensures ReplacePercent20(EncodeChar(c) + rest)
         == (if c == ' ' then "+" else EncodeChar(c)) + ReplacePercent20(rest)
  {
    if IsUnreserved(c) {
      assert ([c] + rest)[1..] == rest;
    } else if c == ' ' {
      assert PercentBytes(Utf8(c)) == PercentByte(0x20);
      ReplaceByte(0x20, rest);
    } else {
      ReplaceBytes(Utf8(c), rest);
    }
  }

  /** `encodeURIComponent(v).replace(/%20/g, '+')` is exactly `FormEncode(v)`. */
  lemma {:induction false} ReplaceOfEncode(s: string)
    ensures ReplacePercent20(EncodeURIComponent(s)) == FormEncode(s)
  {
    if s != [] {
      ReplaceChar(s[0], EncodeURIComponent(s[1..]));
      ReplaceOfEncode(s[1..]);
    }
  }

  /** A string of unreserved characters is its own encoding, under both encoders. */
  lemma {:induction false} UnreservedUnchanged(s: string)
    requires forall i :: 0 <= i < |s| ==> IsUnreserved(s[i])
    ensures EncodeURIComponent(s) == s && FormEncode(s) == s
  {
    if s != [] {
      UnreservedUnchanged(s[1..]);
      assert s == [s[0]] + s[1..];
    }
  }

  lemma EncodeConcat(a: string, b: string)
    ensures EncodeURIComponent(a + b) == EncodeURIComponent(a) + EncodeURIComponent(b)
    ensures FormEncode(a + b) == FormEncode(a) + FormEncode(b)
  {
    PlainEncodeConcat(a, b);
    FormEncodeConcat(a, b);
  }

  /** The first character's encoding, then the rest's. */
  lemma EncodeStep(a: string, b: string)
    requires a != []
    ensures EncodeURIComponent(a + b) == EncodeChar(a[0]) + EncodeURIComponent(a[1..] + b)
    ensures FormEncode(a + b) == (if a[0] == ' ' then "+" else EncodeChar(a[0])) + FormEncode(a[1..] + b)
  {
    var ab := a + b;
    assert ab[0] == a[0] && ab[1..] == a[1..] + b;
  }

  /** Proof helper: string associativity for the encoder proofs. */
  lemma Reassociate(whole: string, head: string, rest: string, tail: string, last: string)
    requires whole == head + rest && rest == tail + last
    ensures whole == (head + tail) + last
  {
  }

  lemma {:induction false} PlainEncodeConcat(a: string, b: string)
    ensures EncodeURIComponent(a + b) == EncodeURIComponent(a) + EncodeURIComponent(b)
  {
    if a == [] {
      assert a + b == b;
    } else {
      EncodeStep(a, b);
      PlainEncodeConcat(a[1..], b);
      Reassociate(EncodeURIComponent(a + b), EncodeChar(a[0]), EncodeURIComponent(a[1..] + b),
                  EncodeURIComponent(a[1..]), EncodeURIComponent(b));
    }
  }

  lemma {:induction false} FormEncodeConcat(a: string, b: string)
    ensures FormEncode(a + b) == FormEncode(a) + FormEncode(b)
  {
    if a == [] {
      assert a + b == b;
    } else {
      EncodeStep(a, b);
      FormEncodeConcat(a[1..], b);
      Reassociate(FormEncode(a + b), if a[0] == ' ' then "+" else EncodeChar(a[0]), FormEncode(a[1..] + b),
                  FormEncode(a[1..]), FormEncode(b));
    }
  }

  // ----- what the encodings can contain -----

  /** A character an encoder may emit: unreserved, `%` or `+`. */
  predicate IsEncodedChar(c: char) {
    IsUnreserved(c) || c == '%' || c == '+'
  }

  predicate AllEncodedChars(t: string) {
    forall i :: 0 <= i < |t| ==> IsEncodedChar(t[i])
  }

  /** What `encodeURIComponent` alone may emit: no `+`. */
  predicate AllPlainChars(t: string) {
    forall i :: 0 <= i < |t| ==> IsUnreserved(t[i]) || t[i] == '%'
  }

  /** `t` reads `%20` at position `i`. */
  predicate SpaceEscapeAt(t: string, i: int) {
    0 <= i && i + 2 < |t| && t[i] == '%' && t[i + 1] == '2' && t[i + 2] == '0'
  }

  /** Every `%` starts a complete escape, and none of them reads `%20`. */
  predicate NoSpaceEscape(t: string) {
    forall i :: 0 <= i < |t| && t[i] == '%' ==> i + 2 < |t| && !(t[i + 1] == '2' && t[i + 2] == '0')
  }

  lemma NoSpaceEscapeConcat(a: string, b: string)
    requires NoSpaceEscape(a) && NoSpaceEscape(b)
    ensures NoSpaceEscape(a + b)
  {
    var t := a + b;
    forall i | 0 <= i < |t| && t[i] == '%'
      ensures i + 2 < |t| && !(t[i + 1] == '2' && t[i + 2] == '0')
    {
      if i < |a| {
        assert a[i] == '%';
      } else {
        assert b[i - |a|] == '%';
      }
    }
  }

  lemma {:induction false} PercentBytesShape(bytes: seq<int>)
    requires forall k :: 0 <= k < |bytes| ==> IsByte(bytes[k])
    ensures AllPlainChars(PercentBytes(bytes))
    ensures (forall k :: 0 <= k < |bytes| ==> bytes[k] != 0x20) ==> NoSpaceEscape(PercentBytes(bytes))
  {
    if bytes != [] {
      PercentBytesShape(bytes[1..]);
      var p := PercentByte(bytes[0]);
      if forall k :: 0 <= k < |bytes| ==> bytes[k] != 0x20 {
        assert NoSpaceEscape(p) by {
          assert bytes[0] != 0x20;
        }
        NoSpaceEscapeConcat(p, PercentBytes(bytes[1..]));
      }
    }
  }

  lemma EncodeCharShape(c: char)
    ensures AllPlainChars(EncodeChar(c)) && AllEncodedChars(EncodeChar(c))
    ensures c != ' ' ==> NoSpaceEscape(EncodeChar(c))
  {
    if !IsUnreserved(c) {
      PercentBytesShape(Utf8(c));
    }
  }

  /** The encoded form holds only unreserved characters, `%` and (for FormEncode) `+`. */
  lemma {:induction false} EncodedShape(s: string)
    ensures AllPlainChars(EncodeURIComponent(s)) && AllEncodedChars(EncodeURIComponent(s))
    ensures AllEncodedChars(FormEncode(s))
  {
    if s != [] {
      EncodeCharShape(s[0]);
      EncodedShape(s[1..]);
    }
  }

  lemma {:induction false} FormEncodeEscapes(s: string)
    ensures NoSpaceEscape(FormEncode(s))
  {
    if s != [] {
      FormEncodeEscapes(s[1..]);
      var head := if s[0] == ' ' then "+" else EncodeChar(s[0]);
      EncodeCharShape(s[0]);
      assert NoSpaceEscape(head);
      NoSpaceEscapeConcat(head, FormEncode(s[1..]));
    }
  }

  /**
    No literal space and no `%20` survives in a generator-encoded value: every space
    of the value shows up as `+`.
  */
  lemma FormEncodeHasNoSpace(s: string)
    ensures forall i :: 0 <= i < |FormEncode(s)| ==> FormEncode(s)[i] != ' '
    ensures forall i :: !SpaceEscapeAt(FormEncode(s), i)
  {
    EncodedShape(s);
    FormEncodeEscapes(s);
    var t := FormEncode(s);
    assert forall i :: 0 <= i < |t| ==> IsEncodedChar(t[i]);
  }

  /** Plain `encodeURIComponent` never emits `+`, and writes every space as `%20`. */
  lemma {:induction false} EncodeKeepsSpaceEscape(s: string)
    ensures forall i :: 0 <= i < |EncodeURIComponent(s)| ==> EncodeURIComponent(s)[i] != '+'
    ensures ' ' in s ==> exists i :: SpaceEscapeAt(EncodeURIComponent(s), i)
  {
    EncodedShape(s);
    if s != [] && ' ' in s {
      var head := EncodeChar(s[0]);
      var rest := EncodeURIComponent(s[1..]);
      if s[0] == ' ' {
        assert head == PercentByte(0x20);
        assert SpaceEscapeAt(head + rest, 0);
      } else {
        assert ' ' in s[1..];
        EncodeKeepsSpaceEscape(s[1..]);
        var i :| SpaceEscapeAt(rest, i);
        assert SpaceEscapeAt(head + rest, |head| + i);
      }
    }
  }

  /** Without a space, the two encodings agree. */
  lemma {:induction false} FormEncodeWithoutSpace(s: string)
    requires forall i :: 0 <= i < |s| ==> s[i] != ' '
    ensures FormEncode(s) == EncodeURIComponent(s)
  {
    if s != [] {
      FormEncodeWithoutSpace(s[1..]);
    }
  }

  lemma EncodedCharsCount(t: string, c: char)
    requires AllEncodedChars(t)
    requires !IsEncodedChar(c)
    ensures Count(t, c) == 0
  {
    CountAbsent(t, c);
  }

  lemma PercentByteCount(b: int)
    requires IsByte(b)
    ensures Count(PercentByte(b), '%') == 1
  {
    var p := PercentByte(b);
    assert Count(p[1..][1..], '%') == 0;
    assert Count(p[1..], '%') == 0;
  }

  lemma {:induction false} PercentBytesCount(bytes: seq<int>)
    requires forall k :: 0 <= k < |bytes| ==> IsByte(bytes[k])
    ensures Count(PercentBytes(bytes), '%') == |bytes|
  {
    if bytes != [] {
      CountConcat(PercentByte(bytes[0]), PercentBytes(bytes[1..]), '%');
      PercentByteCount(bytes[0]);
      PercentBytesCount(bytes[1..]);
    }
  }

  /** Each space costs `encodeURIComponent` one more `%` than FormEncode. */
  lemma {:induction false} PercentCount(s: string)
    ensures Count(EncodeURIComponent(s), '%') == Count(FormEncode(s), '%') + Count(s, ' ')
  {
    if s != [] {
      PercentCount(s[1..]);
      CountConcat(EncodeChar(s[0]), EncodeURIComponent(s[1..]), '%');
      var head := if s[0] == ' ' then "+" else EncodeChar(s[0]);
      CountConcat(head, FormEncode(s[1..]), '%');
      if s[0] == ' ' {
        PercentBytesCount(Utf8(' '));
      }
    }
  }
}

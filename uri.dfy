/**
 * `encodeURIComponent`: every character outside the unreserved set
 * `A-Z a-z 0-9 - _ . ! ~ * ' ( )` becomes the `%XX` escapes of its UTF-8
 * bytes, with upper-case hexadecimal digits.
 */
module Uri {

  predicate Unreserved(c: char) {
    ('A' <= c <= 'Z') || ('a' <= c <= 'z') || ('0' <= c <= '9')
    || c == '-' || c == '_' || c == '.' || c == '!' || c == '~' || c == '*' || c == '\'' || c == '(' || c == ')'
  }

  /** A character that may appear in an encoded component. */
  predicate Encoded(c: char) {
    Unreserved(c) || c == '%'
  }

  function HexDigit(d: nat): (c: char)
    requires d < 16
    ensures Unreserved(c)
  {
    if d < 10 then ('0' as int + d) as char else ('A' as int + d - 10) as char
  }

  /** The UTF-8 bytes of a Unicode scalar value. */
  function Utf8(c: char): (bytes: seq<nat>)
    ensures 1 <= |bytes| <= 4
    ensures forall k :: 0 <= k < |bytes| ==> bytes[k] < 256
    ensures c as int < 0x80 <==> |bytes| == 1
    ensures |bytes| == 1 ==> bytes[0] == c as int
  {
    var n := c as int;
    if n < 0x80 then [n]
    else if n < 0x800 then [0xC0 + n / 64, 0x80 + n % 64]
    else if n < 0x10000 then [0xE0 + n / 4096, 0x80 + (n / 64) % 64, 0x80 + n % 64]
    else [0xF0 + n / 262144, 0x80 + (n / 4096) % 64, 0x80 + (n / 64) % 64, 0x80 + n % 64]
  }

  /** `%XX` for each byte. */
  function Escapes(bytes: seq<nat>): (r: string)
    requires forall k :: 0 <= k < |bytes| ==> bytes[k] < 256
    ensures |r| == 3 * |bytes|
    ensures forall k :: 0 <= k < |r| ==> Encoded(r[k])
    ensures forall k :: 0 <= k < |bytes| ==> r[3 * k] == '%'
  {
    if bytes == [] then ""
    else
      var rest := Escapes(bytes[1..]);
      var r := ['%', HexDigit(bytes[0] / 16), HexDigit(bytes[0] % 16)] + rest;
      assert forall k :: 1 <= k < |bytes| ==> r[3 * k] == rest[3 * (k - 1)];
      r
  }

  function EncodeChar(c: char): (r: string)
    ensures Unreserved(c) ==> r == [c]
    ensures !Unreserved(c) ==> r != [] && r[0] == '%'
    ensures forall k :: 0 <= k < |r| ==> Encoded(r[k])
  {
    if Unreserved(c) then [c] else Escapes(Utf8(c))
  }

  /** `encodeURIComponent(s)`. */
  function EncodeUriComponent(s: string): (r: string)
    ensures |r| >= |s|
    ensures forall k :: 0 <= k < |r| ==> Encoded(r[k])
  {
    if s == [] then ""
    else EncodeChar(s[0]) + EncodeUriComponent(s[1..])
  }

  /** A component of unreserved characters only is left as it is. */
  lemma {:induction false} EncodeUnreserved(s: string)
    requires forall k :: 0 <= k < |s| ==> Unreserved(s[k])
    ensures EncodeUriComponent(s) == s
  {
    if s != [] {
      EncodeUnreserved(s[1..]);
      assert s == [s[0]] + s[1..];
    }
  }

  /** Encoding works character by character, so it distributes over concatenation. */
  lemma {:induction false} EncodeConcat(a: string, b: string)
    ensures EncodeUriComponent(a + b) == EncodeUriComponent(a) + EncodeUriComponent(b)
  {
    if a == [] {
      assert a + b == b;
    } else {
      assert (a + b)[1..] == a[1..] + b;
      assert (a + b)[0] == a[0];
      EncodeConcat(a[1..], b);
    }
  }

  /**
   * An encoded component holds none of the characters that delimit a URL's
   * parts, so it stays one query value.
   */
  lemma EncodedHasNoDelimiters(s: string)
    ensures var r := EncodeUriComponent(s);
      '&' !in r && '=' !in r && '?' !in r && '#' !in r && '/' !in r && ' ' !in r
  {
    var r := EncodeUriComponent(s);
    forall c | c in r
      ensures c != '&' && c != '=' && c != '?' && c != '#' && c != '/' && c != ' '
    {
      var k :| 0 <= k < |r| && r[k] == c;
      assert Encoded(r[k]);
    }
  }
}

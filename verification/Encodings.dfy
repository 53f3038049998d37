/** The encodings behind the sizes and checks of the file: UTF-8 (section 3 of RFC 3629) and Base64 (section 4 of
    RFC 4648). */
module Encodings {
  import opened Text
  import opened Rows

  // ---------- UTF-8 ----------

  function EncodeChar(c: char): (bytes: seq<int>) {
    var n := c as int;
    if n < 0x80 then [n]
    else if n < 0x800 then [0xC0 + n / 64, 0x80 + n % 64]
    else if n < 0x10000 then [0xE0 + n / 4096, 0x80 + n / 64 % 64, 0x80 + n % 64]
    else [0xF0 + n / 262144, 0x80 + n / 4096 % 64, 0x80 + n / 64 % 64, 0x80 + n % 64]
  }

  function Encode(s: string): seq<int> {
    if s == "" then [] else EncodeChar(s[0]) + Encode(s[1..])
  }

  /** The number a sequence of bytes stands for, by its lead byte. */
  function DecodeChar(bytes: seq<int>): int
    requires 1 <= |bytes| <= 4
  {
    if |bytes| == 1 then bytes[0]
    else if |bytes| == 2 then (bytes[0] - 0xC0) * 64 + (bytes[1] - 0x80)
    else if |bytes| == 3 then (bytes[0] - 0xE0) * 4096 + (bytes[1] - 0x80) * 64 + (bytes[2] - 0x80)
    else (bytes[0] - 0xF0) * 262144 + (bytes[1] - 0x80) * 4096 + (bytes[2] - 0x80) * 64 + (bytes[3] - 0x80)
  }

  /** Bytes of a lead byte's sequence. */
  function SequenceLength(lead: int): nat {
    if lead < 0x80 then 1 else if lead < 0xE0 then 2 else if lead < 0xF0 then 3 else 4
  }

  lemma CharDecodes(c: char)
    ensures var bytes := EncodeChar(c);
            1 <= |bytes| <= 4 && SequenceLength(bytes[0]) == |bytes| && DecodeChar(bytes) == c as int
  {
    var n := c as int;
    assert n == n / 64 * 64 + n % 64;
    assert n / 64 == n / 4096 * 64 + n / 64 % 64;
    assert n / 4096 == n / 262144 * 64 + n / 4096 % 64;
  }

  /** The size is that of the encoding, whose lead bytes tell the characters apart. */
  lemma {:induction false} Utf8SizeIsEncoded(s: string)
    ensures Utf8Size(s) == |Encode(s)|
  {
    if s != "" {
      Utf8SizeIsEncoded(s[1..]);
      CharDecodes(s[0]);
    }
  }

  // ---------- Base64 ----------

  function Symbol(n: nat): char
    requires n < 64
  {
    if n < 26 then ('A' as int + n) as char
    else if n < 52 then ('a' as int + (n - 26)) as char
    else if n < 62 then ('0' as int + (n - 52)) as char
    else if n == 62 then '+' else '/'
  }

  function Quartet(a: nat, b: nat, c: nat): (q: string)
    requires a < 256 && b < 256 && c < 256
    ensures |q| == 4
  {
    [Symbol(a / 4), Symbol(a % 4 * 16 + b / 16), Symbol(b % 16 * 4 + c / 64), Symbol(c % 64)]
  }

  function Base64(bytes: seq<nat>): string
    requires forall i :: 0 <= i < |bytes| ==> bytes[i] < 256
  {
    if bytes == [] then ""
    else if |bytes| == 1 then Quartet(bytes[0], 0, 0)[..2] + "=="
    else if |bytes| == 2 then Quartet(bytes[0], bytes[1], 0)[..3] + "="
    else Quartet(bytes[0], bytes[1], bytes[2]) + Base64(bytes[3..])
  }

  lemma SymbolIsBase64(n: nat)
    requires n < 64
    ensures IsBase64Char(Symbol(n)) && Symbol(n) != '='
  {
  }

  lemma QuartetIsBase64(a: nat, b: nat, c: nat)
    requires a < 256 && b < 256 && c < 256
    ensures forall i :: 0 <= i < 4 ==> IsBase64Char(Quartet(a, b, c)[i]) && Quartet(a, b, c)[i] != '='
  {
    hide Symbol;
    SymbolIsBase64(a / 4);
    SymbolIsBase64(a % 4 * 16 + b / 16);
    SymbolIsBase64(b % 16 * 4 + c / 64);
    SymbolIsBase64(c % 64);
  }

  lemma QuartetThenValid(q: string, rest: string)
    requires |q| == 4 && forall i :: 0 <= i < 4 ==> IsBase64Char(q[i]) && q[i] != '='
    requires rest == "" || ValidBase64(rest)
    ensures ValidBase64(q + rest)
  {
    hide IsBase64Char;
    var s := q + rest;
    assert forall i :: 0 <= i < |s| ==> s[i] == if i < 4 then q[i] else rest[i - 4];
  }

  /** The encoding of any bytes is a profile the program keeps. */
  lemma {:induction false} EncodedIsValid(bytes: seq<nat>)
    requires forall i :: 0 <= i < |bytes| ==> bytes[i] < 256
    ensures bytes != [] ==> ValidBase64(Base64(bytes))
    ensures bytes == [] ==> Base64(bytes) == ""
  {
    hide IsBase64Char, Symbol;
    if |bytes| >= 3 {
      EncodedIsValid(bytes[3..]);
      QuartetIsBase64(bytes[0], bytes[1], bytes[2]);
      QuartetThenValid(Quartet(bytes[0], bytes[1], bytes[2]), Base64(bytes[3..]));
    } else if bytes != [] {
      QuartetIsBase64(bytes[0], if |bytes| == 2 then bytes[1] else 0, 0);
    }
  }
}

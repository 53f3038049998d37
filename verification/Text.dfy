/** The text helpers of the emergency-feed publisher: whitespace cleaning, decimal numbers,
    IPv4 literals, host names and UTF-8 sizes. Letters and digits are the ASCII ones. */
module Text {

  datatype Option<+T> = None | Some(value: T)

  const ZERO_WIDTH_SPACE: char := '\U{200B}'
  const REPLACEMENT: char := '\U{FFFD}'
  const BYTE_ORDER_MARK: char := '\U{FEFF}'

  // ---------- whitespace ----------

  /** The characters that `str.isspace` and the regular expression `\s` accept. */
  predicate IsSpace(c: char) {
    || c == ' '
    || '\U{0009}' <= c <= '\U{000D}'
    || '\U{001C}' <= c <= '\U{001F}'
    || c == '\U{0085}' || c == '\U{00A0}' || c == '\U{1680}'
    || '\U{2000}' <= c <= '\U{200A}'
    || c == '\U{2028}' || c == '\U{2029}' || c == '\U{202F}' || c == '\U{205F}' || c == '\U{3000}'
  }

  /** The character replacements made before whitespace runs are collapsed. */
  function Substitute(s: string): string {
    if s == "" then ""
    else if s[0] == ZERO_WIDTH_SPACE then Substitute(s[1..])
    else if s[0] == '\U{00A0}' || s[0] == '\r' || s[0] == '\n' then " " + Substitute(s[1..])
    else [s[0]] + Substitute(s[1..])
  }

  function StripLeft(s: string): (r: string)
    ensures |r| <= |s|
  {
    if s != "" && IsSpace(s[0]) then StripLeft(s[1..]) else s
  }

  function StripRight(s: string): (r: string)
    ensures |r| <= |s|
  {
    if s != "" && IsSpace(s[|s| - 1]) then StripRight(s[..|s| - 1]) else s
  }

  function Strip(s: string): string {
    StripRight(StripLeft(s))
  }

  /** Every maximal run of whitespace becomes one blank. */
  function Collapse(s: string): string
    decreases |s|
  {
    if s == "" then ""
    else if IsSpace(s[0]) then " " + Collapse(StripLeft(s[1..]))
    else [s[0]] + Collapse(s[1..])
  }

  function CleanText(s: string): string {
    Strip(Collapse(Substitute(s)))
  }

  predicate NoZeroWidth(s: string) {
    forall i :: 0 <= i < |s| ==> s[i] != ZERO_WIDTH_SPACE
  }

  /** Blanks are the only whitespace, and no two of them are adjacent. */
  predicate Collapsed(s: string) {
    && (forall i :: 0 <= i < |s| && IsSpace(s[i]) ==> s[i] == ' ')
    && (forall i :: 0 < i < |s| && s[i] == ' ' ==> s[i - 1] != ' ')
  }

  predicate Trimmed(s: string) {
    s != "" ==> !IsSpace(s[0]) && !IsSpace(s[|s| - 1])
  }

  /** What cleaned text looks like, without saying how it was cleaned. */
  predicate IsClean(s: string) {
    NoZeroWidth(s) && Collapsed(s) && Trimmed(s)
  }

  lemma SubstituteShape(s: string)
    ensures NoZeroWidth(Substitute(s))
  {
  }

  lemma {:induction false} StripLeftShape(s: string)
    ensures var r := StripLeft(s); r == s[|s| - |r|..] && (r != "" ==> !IsSpace(r[0]))
  {
    if s != "" && IsSpace(s[0]) {
      StripLeftShape(s[1..]);
    }
  }

  lemma {:induction false} StripRightShape(s: string)
    ensures var r := StripRight(s); r == s[..|r|] && (r != "" ==> !IsSpace(r[|r| - 1]))
  {
    if s != "" && IsSpace(s[|s| - 1]) {
      StripRightShape(s[..|s| - 1]);
    }
  }

  lemma {:induction false} CollapseShape(s: string)
    requires NoZeroWidth(s)
    ensures var r := Collapse(s); NoZeroWidth(r) && Collapsed(r)
    ensures s != "" && !IsSpace(s[0]) ==> Collapse(s) != "" && Collapse(s)[0] == s[0]
    decreases |s|
  {
    if s == "" {
    } else if IsSpace(s[0]) {
      var rest := StripLeft(s[1..]);
      StripLeftShape(s[1..]);
      CollapseShape(rest);
    } else {
      CollapseShape(s[1..]);
    }
  }

  lemma CollapsedSlice(s: string, lo: nat, hi: nat)
    requires lo <= hi <= |s| && NoZeroWidth(s) && Collapsed(s)
    ensures NoZeroWidth(s[lo..hi]) && Collapsed(s[lo..hi])
  {
    var t := s[lo..hi];
    forall i | 0 < i < |t| && t[i] == ' ' ensures t[i - 1] != ' ' {
      assert s[lo + i] == ' ';
    }
  }

  lemma CleanTextIsClean(s: string)
    ensures IsClean(CleanText(s))
  {
    hide Substitute, Collapse, IsSpace;
    var a := Collapse(Substitute(s));
    SubstituteShape(s);
    CollapseShape(Substitute(s));
    var b := StripLeft(a);
    StripLeftShape(a);
    CollapsedSlice(a, |a| - |b|, |a|);
    var c := StripRight(b);
    StripRightShape(b);
    CollapsedSlice(b, 0, |c|);
    assert c != "" ==> c[0] == b[0];
  }

  /** Printable ASCII without blanks. */
  predicate Graphic(s: string) {
    forall i :: 0 <= i < |s| ==> '!' <= s[i] <= '~'
  }

  lemma GraphicIsClean(s: string)
    requires Graphic(s)
    ensures IsClean(s)
  {
    forall i | 0 <= i < |s| ensures !IsSpace(s[i]) && s[i] != ZERO_WIDTH_SPACE && s[i] != ' ' {}
  }

  lemma {:induction false} SubstituteIdentity(s: string)
    requires NoZeroWidth(s) && Collapsed(s)
    ensures Substitute(s) == s
  {
    if s != "" {
      assert IsSpace('\r') && IsSpace('\n');
      CollapsedTail(s);
      SubstituteIdentity(s[1..]);
    }
  }

  lemma CollapsedTail(s: string)
    requires s != "" && NoZeroWidth(s) && Collapsed(s)
    ensures NoZeroWidth(s[1..]) && Collapsed(s[1..])
  {
    var t := s[1..];
    forall i | 0 < i < |t| && t[i] == ' ' ensures t[i - 1] != ' ' {
      assert s[i + 1] == ' ';
    }
  }

  lemma {:induction false} CollapseIdentity(s: string)
    requires NoZeroWidth(s) && Collapsed(s)
    ensures Collapse(s) == s
    decreases |s|
  {
    if s != "" {
      var t := s[1..];
      CollapsedTail(s);
      if IsSpace(s[0]) {
        assert t != "" ==> t[0] == s[1] && s[1] != ' ';
        assert StripLeft(t) == t;
      }
      CollapseIdentity(t);
      assert s == [s[0]] + t;
    }
  }

  /** Cleaning leaves exactly the clean texts alone. */
  lemma CleanTextFixpoint(s: string)
    ensures IsClean(s) <==> CleanText(s) == s
  {
    CleanTextIsClean(s);
    if IsClean(s) {
      SubstituteIdentity(s);
      CollapseIdentity(s);
    }
  }

  /** Blanks around a text are stripped. */
  lemma {:induction false} StripBlanks(head: string, s: string, tail: string)
    requires s != "" && Trimmed(s)
    requires forall i :: 0 <= i < |head| ==> IsSpace(head[i])
    requires forall i :: 0 <= i < |tail| ==> IsSpace(tail[i])
    ensures Strip(head + s + tail) == s
  {
    hide IsSpace;
    var all := head + s + tail;
    if head != "" {
      assert all[1..] == head[1..] + s + tail;
      StripBlanks(head[1..], s, tail);
    } else {
      assert all[0] == s[0];
      if tail == "" {
        assert all == s;
      } else {
        var n := |tail| - 1;
        assert all[|all| - 1] == tail[n];
        assert all[..|all| - 1] == head + s + tail[..n];
        StripBlanks(head, s, tail[..n]);
        assert (head + s + tail[..n])[0] == s[0];
      }
    }
  }

  /** Nothing is left exactly of a text of blanks. */
  lemma {:induction false} StripBlank(s: string)
    ensures Strip(s) == "" <==> forall i :: 0 <= i < |s| ==> IsSpace(s[i])
  {
    hide IsSpace;
    if s != "" {
      if IsSpace(s[0]) {
        StripBlank(s[1..]);
        assert forall i :: 0 < i < |s| ==> s[i] == s[1..][i - 1];
      } else {
        StripRightKeepsHead(s);
      }
    }
  }

  lemma {:induction false} StripRightKeepsHead(s: string)
    requires s != "" && !IsSpace(s[0])
    ensures StripRight(s) != ""
  {
    if IsSpace(s[|s| - 1]) {
      StripRightKeepsHead(s[..|s| - 1]);
    }
  }

  // ---------- decimal numbers ----------

  predicate IsDigit(c: char) { '0' <= c <= '9' }

  predicate AllDigits(s: string) {
    s != "" && forall i :: 0 <= i < |s| ==> IsDigit(s[i])
  }

  function Digit(d: nat): (c: char)
    requires d < 10
    ensures IsDigit(c) && DigitValue(c) == d
  {
    ('0' as int + d) as char
  }

  function DigitValue(c: char): (d: nat)
    requires IsDigit(c)
    ensures d < 10
  {
    c as int - '0' as int
  }

  /** `str(n)` for a natural number. */
  function Dec(n: nat): (s: string)
    ensures AllDigits(s)
  {
    if n < 10 then [Digit(n)] else Dec(n / 10) + [Digit(n % 10)]
  }

  function ParseNat(s: string): nat
    requires AllDigits(s)
  {
    var d := DigitValue(s[|s| - 1]);
    if |s| == 1 then d else 10 * ParseNat(s[..|s| - 1]) + d
  }

  lemma {:induction false} ParseDec(n: nat)
    ensures ParseNat(Dec(n)) == n
  {
    if n >= 10 {
      ParseDec(n / 10);
      assert Dec(n)[..|Dec(n)| - 1] == Dec(n / 10);
    }
  }

  lemma {:induction false} DecLength(n: nat)
    ensures n < 1000 ==> |Dec(n)| <= 3
  {
    if 10 <= n < 1000 {
      assert |Dec(n)| == 1 + |Dec(n / 10)|;
      assert n / 10 >= 10 ==> |Dec(n / 10)| == 1 + |Dec(n / 10 / 10)| && n / 10 / 10 < 10;
    }
  }

  /** `str(n)` for any integer. */
  function IntText(n: int): string {
    if n < 0 then "-" + Dec(-n) else Dec(n)
  }

  function RemoveChar(s: string, c: char): string {
    if s == "" then "" else (if s[0] == c then "" else [s[0]]) + RemoveChar(s[1..], c)
  }

  lemma {:induction false} RemoveCharAbsent(s: string, c: char)
    requires c !in s
    ensures RemoveChar(s, c) == s
  {
    if s != "" {
      RemoveCharAbsent(s[1..], c);
    }
  }

  /** `-?\d+` after thousands separators are removed; anything else is no number. */
  function ParseInt(s: string): Option<int> {
    var t := RemoveChar(s, ',');
    if AllDigits(t) then Some(ParseNat(t))
    else if t != "" && t[0] == '-' && AllDigits(t[1..]) then (var n: int := ParseNat(t[1..]); Some(-n))
    else None
  }

  lemma IntTextShape(n: int)
    ensures var s := IntText(n); s != "" && ',' !in s && IsClean(s)
  {
    var s := IntText(n);
    hide IsClean;
    assert forall i :: 0 <= i < |s| ==> IsDigit(s[i]) || s[i] == '-';
    GraphicIsClean(s);
  }

  lemma ParseSigned(d: string)
    requires AllDigits(d)
    ensures ParseInt(d) == Some(ParseNat(d))
    ensures var n: int := ParseNat(d); ParseInt("-" + d) == Some(-n)
  {
    hide ParseNat, RemoveChar;
    RemoveCharAbsent(d, ',');
    var s := "-" + d;
    RemoveCharAbsent(s, ',');
    assert !IsDigit(s[0]) && s[1..] == d;
  }

  lemma ParseIntText(n: int)
    ensures ParseInt(IntText(n)) == Some(n)
  {
    var a: nat := if n < 0 then -n else n;
    ParseSigned(Dec(a));
    ParseDec(a);
  }

  // ---------- splitting ----------

  function Split(s: string, sep: char): (parts: seq<string>)
    ensures |parts| >= 1
  {
    if s == "" then [""]
    else
      var rest := Split(s[1..], sep);
      if s[0] == sep then [""] + rest else [[s[0]] + rest[0]] + rest[1..]
  }

  function Join(parts: seq<string>, sep: string): string {
    if parts == [] then "" else if |parts| == 1 then parts[0] else parts[0] + sep + Join(parts[1..], sep)
  }

  lemma {:induction false} SplitWord(s: string, sep: char)
    requires sep !in s
    ensures Split(s, sep) == [s]
  {
    if s != "" {
      SplitWord(s[1..], sep);
      assert s == [s[0]] + s[1..];
    }
  }

  lemma {:induction false} SplitHead(a: string, rest: string, sep: char)
    requires sep !in a
    ensures Split(a + [sep] + rest, sep) == [a] + Split(rest, sep)
  {
    var s := a + [sep] + rest;
    if a == "" {
      assert s[1..] == rest;
    } else {
      assert s[1..] == a[1..] + [sep] + rest;
      SplitHead(a[1..], rest, sep);
      assert a == [a[0]] + a[1..];
    }
  }

  /** Splitting a join gives the parts back when none of them contains the separator. */
  lemma {:induction false} SplitJoin(parts: seq<string>, sep: char)
    requires parts != [] && forall i :: 0 <= i < |parts| ==> sep !in parts[i]
    ensures Split(Join(parts, [sep]), sep) == parts
  {
    hide Split;
    if |parts| == 1 {
      SplitWord(parts[0], sep);
    } else {
      var rest := parts[1..];
      SplitJoin(rest, sep);
      SplitHead(parts[0], Join(rest, [sep]), sep);
      assert parts == [parts[0]] + rest;
    }
  }

  /** Joining a split gives the text back. */
  lemma {:induction false} JoinSplit(s: string, sep: char)
    ensures Join(Split(s, sep), [sep]) == s
    ensures forall i :: 0 <= i < |Split(s, sep)| ==> sep !in Split(s, sep)[i]
  {
    if s != "" {
      JoinSplit(s[1..], sep);
      var rest := Split(s[1..], sep);
      if s[0] == sep {
        assert ([""] + rest)[1..] == rest;
      } else {
        assert ([[s[0]] + rest[0]] + rest[1..])[1..] == rest[1..];
      }
    }
  }

  // ---------- IPv4 literals ----------

  predicate IsOctetText(s: string) {
    AllDigits(s) && |s| <= 3 && ParseNat(s) <= 255
  }

  function DecAll(ns: seq<nat>): (parts: seq<string>)
    ensures |parts| == |ns| && forall i :: 0 <= i < |ns| ==> parts[i] == Dec(ns[i])
  {
    if ns == [] then [] else [Dec(ns[0])] + DecAll(ns[1..])
  }

  /** The numbers between the dots; `ip_sort_key`. A part that is no number counts as 0. */
  function Octets(ip: string): (ns: seq<nat>) {
    OctetsOf(Split(ip, '.'))
  }

  function OctetsOf(parts: seq<string>): (ns: seq<nat>)
    ensures |ns| == |parts|
    ensures forall i :: 0 <= i < |ns| && AllDigits(parts[i]) ==> ns[i] == ParseNat(parts[i])
  {
    if parts == [] then []
    else [if AllDigits(parts[0]) then ParseNat(parts[0]) else 0] + OctetsOf(parts[1..])
  }

  /** Canonical dotted quad, or "" when the text is no IPv4 literal. */
  function NormalizeIp(s: string): string {
    var parts := Split(s, '.');
    if |parts| == 4 && forall i :: 0 <= i < 4 ==> IsOctetText(parts[i])
    then Join(DecAll(OctetsOf(parts)), ".")
    else ""
  }

  lemma QuadText(ns: seq<nat>)
    requires |ns| == 4 && forall i :: 0 <= i < 4 ==> ns[i] <= 255
    ensures var ip := Join(DecAll(ns), "."); NormalizeIp(ip) == ip && Octets(ip) == ns && IsClean(ip) && ip != ""
  {
    var parts := DecAll(ns);
    forall i | 0 <= i < 4 ensures '.' !in parts[i] && IsOctetText(parts[i]) && ParseNat(parts[i]) == ns[i] {
      ParseDec(ns[i]);
      DecLength(ns[i]);
      assert AllDigits(parts[i]);
    }
    SplitJoin(parts, '.');
    assert OctetsOf(parts) == ns;
    DottedDigits(parts);
    GraphicIsClean(Join(parts, "."));
  }

  lemma {:induction false} DottedDigits(parts: seq<string>)
    requires parts != [] && forall i :: 0 <= i < |parts| ==> AllDigits(parts[i])
    ensures var ip := Join(parts, ".");
            ip != "" && IsDigit(ip[0]) && IsDigit(ip[|ip| - 1]) && forall i :: 0 <= i < |ip| ==> IsDigit(ip[i]) || ip[i] == '.'
  {
    assert AllDigits(parts[0]);
    if |parts| > 1 {
      DottedDigits(parts[1..]);
    }
  }

  /** Normalising twice changes nothing, and a normal form is determined by its octets. */
  lemma NormalizeIpFixpoint(s: string)
    ensures var ip := NormalizeIp(s); NormalizeIp(ip) == ip
    ensures NormalizeIp(s) != "" ==> IsClean(NormalizeIp(s)) && |Octets(NormalizeIp(s))| == 4 &&
                                     Join(DecAll(Octets(NormalizeIp(s))), ".") == NormalizeIp(s)
  {
    var parts := Split(s, '.');
    if |parts| == 4 && forall i :: 0 <= i < 4 ==> IsOctetText(parts[i]) {
      QuadText(OctetsOf(parts));
    } else {
      assert Split("", '.') == [""];
    }
  }

  // ---------- host names ----------

  function LowerChar(c: char): char {
    if 'A' <= c <= 'Z' then (c as int + 32) as char else c
  }

  function UpperChar(c: char): char {
    if 'a' <= c <= 'z' then (c as int - 32) as char else c
  }

  function Lower(s: string): string {
    seq(|s|, i requires 0 <= i < |s| => LowerChar(s[i]))
  }

  function Upper(s: string): string {
    seq(|s|, i requires 0 <= i < |s| => UpperChar(s[i]))
  }

  function StripDots(s: string): string {
    if s != "" && s[|s| - 1] == '.' then StripDots(s[..|s| - 1]) else s
  }

  function LetterRun(s: string): (n: nat)
    ensures n <= |s|
  {
    if s != "" && 'a' <= s[0] <= 'z' then 1 + LetterRun(s[1..]) else 0
  }

  /** Removes a leading `scheme://`. */
  function StripScheme(s: string): string {
    var n := LetterRun(s);
    if n > 0 && "://" <= s[n..] then s[n + 3..] else s
  }

  /** `normalize_host`: lower case, no trailing dots, no scheme, no single `:port` suffix. */
  function NormalizeHost(v: string): string {
    var s := StripScheme(StripDots(Lower(CleanText(v))));
    var parts := Split(s, ':');
    if |parts| == 2 then parts[0] else s
  }

  // ---------- UTF-8 ----------

  function CharSize(c: char): (n: nat)
    ensures 1 <= n <= 4
  {
    if c < '\U{0080}' then 1 else if c < '\U{0800}' then 2 else if c < '\U{10000}' then 3 else 4
  }

  /** Bytes of the UTF-8 encoding. */
  function Utf8Size(s: string): nat {
    if s == "" then 0 else CharSize(s[0]) + Utf8Size(s[1..])
  }

  lemma {:induction false} Utf8SizeConcat(a: string, b: string)
    ensures Utf8Size(a + b) == Utf8Size(a) + Utf8Size(b)
  {
    if a == "" {
      assert a + b == b;
    } else {
      assert (a + b)[1..] == a[1..] + b;
      Utf8SizeConcat(a[1..], b);
    }
  }

  lemma {:induction false} Utf8SizeAscii(s: string)
    requires forall i :: 0 <= i < |s| ==> s[i] < '\U{0080}'
    ensures Utf8Size(s) == |s|
  {
    if s != "" {
      Utf8SizeAscii(s[1..]);
    }
  }
}

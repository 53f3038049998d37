/** What a raw cell reads as, said on its text. */
module Readings {
  import opened Text
  import opened Rows

  // ---------- numbers ----------

  /** Separators may stand anywhere in a number. */
  lemma NumberRead(s: string, n: int)
    requires IsClean(s) && RemoveChar(s, ',') == IntText(n)
    ensures ToInt(Str(s)) == Some(n)
  {
    hide IsClean, RemoveChar;
    CleanStr(s);
    ParseIntText(n);
    IntTextShape(n);
    RemoveCharAbsent(IntText(n), ',');
  }

  lemma {:induction false} RemoveCharKeeps(s: string, c: char, i: nat)
    requires i < |s| && s[i] != c
    ensures s[i] in RemoveChar(s, c)
  {
    if i > 0 {
      RemoveCharKeeps(s[1..], c, i - 1);
    }
  }

  /** A text with anything but digits, separators and minus signs is no number. */
  lemma NoNumber(s: string, i: nat)
    requires IsClean(s) && i < |s| && !('0' <= s[i] <= '9') && s[i] != ',' && s[i] != '-'
    ensures ToInt(Str(s)) == None
  {
    hide IsClean, RemoveChar, ParseNat;
    CleanStr(s);
    RemoveCharKeeps(s, ',', i);
    var t := RemoveChar(s, ',');
    var j :| 0 <= j < |t| && t[j] == s[i];
    assert j > 0 ==> t[1..][j - 1] == t[j];
  }

  /** A port column holds the number if it is a port, 0 otherwise. */
  lemma PortRead(s: string, n: int)
    requires IsClean(s) && RemoveChar(s, ',') == IntText(n)
    ensures ToPort(Str(s)) == if 0 <= n <= 65535 then n else 0
  {
    hide IsClean, RemoveChar;
    NumberRead(s, n);
  }

  // ---------- flags and codes ----------

  /** The word, its letters capital or not. */
  predicate SpelledLike(s: string, word: string) {
    |s| == |word| && forall i :: 0 <= i < |s| ==>
      s[i] == word[i] || ('A' <= s[i] <= 'Z' && s[i] as int + 32 == word[i] as int)
  }

  lemma LowerSpells(s: string, word: string)
    requires forall i :: 0 <= i < |word| ==> !('A' <= word[i] <= 'Z')
    ensures Lower(s) == word <==> SpelledLike(s, word)
  {
    assert Lower(s) == word <==> |s| == |word| && forall i :: 0 <= i < |s| ==> Lower(s)[i] == word[i];
  }

  lemma FlagRead(s: string)
    requires IsClean(s)
    ensures ToBool(Str(s)) <==> SpelledLike(s, "true") || SpelledLike(s, "1") || SpelledLike(s, "yes")
  {
    hide IsClean, SpelledLike;
    CleanStr(s);
    LowerSpells(s, "true");
    LowerSpells(s, "1");
    LowerSpells(s, "yes");
  }

  predicate IsLetter(c: char) {
    'A' <= c <= 'Z' || 'a' <= c <= 'z'
  }

  function Capital(c: char): char
    requires IsLetter(c)
  {
    if 'a' <= c then (c as int - 32) as char else c
  }

  lemma CountryRead(s: string)
    requires IsClean(s)
    ensures ToCountryCode(Str(s)) ==
            if |s| == 2 && IsLetter(s[0]) && IsLetter(s[1]) then [Capital(s[0]), Capital(s[1])] else ""
  {
    hide IsClean;
    CleanStr(s);
    var up := Upper(s);
    assert |up| == |s|;
    if |s| == 2 {
      assert up == [UpperChar(s[0]), UpperChar(s[1])];
    }
  }

  lemma ConfigRead(s: string)
    requires IsClean(s)
    ensures ToConfig(Str(s)) == if ValidBase64(RemoveChar(s, ' ')) then RemoveChar(s, ' ') else ""
  {
    hide IsClean, ValidBase64;
    CleanStr(s);
  }

  lemma TagRead(s: string)
    requires IsClean(s)
    ensures ToTag(Str(s)) == if s == TagText(ApiIphone) then ApiIphone else if s == TagText(Merged) then Merged else HtmlParse
  {
    hide IsClean;
    CleanStr(s);
  }

  // ---------- addresses ----------

  /** Up to three digits, at most 255; leading zeros are read. */
  predicate OctetText(s: string, n: nat) {
    AllDigits(s) && |s| <= 3 && ParseNat(s) == n <= 255
  }

  predicate DottedQuad(s: string, parts: seq<string>, octets: seq<nat>) {
    && |parts| == 4 && |octets| == 4 && s == Join(parts, ".")
    && forall i :: 0 <= i < 4 ==> OctetText(parts[i], octets[i])
  }

  /** Exactly the dotted quads have a normal form: their octets in decimal. */
  lemma AddressRead(s: string)
    ensures if exists parts, octets :: DottedQuad(s, parts, octets)
            then forall parts, octets :: DottedQuad(s, parts, octets) ==> NormalizeIp(s) == Join(DecAll(octets), ".")
            else NormalizeIp(s) == ""
  {
    hide ParseNat, Join, Split, DecAll;
    forall parts, octets | DottedQuad(s, parts, octets) ensures NormalizeIp(s) == Join(DecAll(octets), ".") {
      QuadRead(s, parts, octets);
    }
    var parts := Split(s, '.');
    if |parts| == 4 && forall i :: 0 <= i < 4 ==> IsOctetText(parts[i]) {
      JoinSplit(s, '.');
      assert DottedQuad(s, parts, OctetsOf(parts));
    }
  }

  lemma QuadRead(s: string, parts: seq<string>, octets: seq<nat>)
    requires DottedQuad(s, parts, octets)
    ensures NormalizeIp(s) == Join(DecAll(octets), ".")
  {
    hide ParseNat, Join, Split, DecAll;
    forall i | 0 <= i < 4 ensures '.' !in parts[i] && IsOctetText(parts[i]) {
      NoDot(parts[i], octets[i]);
    }
    SplitJoin(parts, '.');
    assert OctetsOf(parts) == octets;
  }

  lemma NoDot(s: string, n: nat)
    requires OctetText(s, n)
    ensures '.' !in s && IsOctetText(s)
  {
    hide ParseNat;
    assert !IsDigit('.');
  }

  /** A leading zero changes no number. */
  lemma {:induction false} LeadingZero(s: string)
    requires AllDigits(s)
    ensures AllDigits("0" + s) && ParseNat("0" + s) == ParseNat(s)
  {
    var t := "0" + s;
    assert t[|t| - 1] == s[|s| - 1] && t[..|t| - 1] == "0" + s[..|s| - 1];
    if |s| > 1 {
      LeadingZero(s[..|s| - 1]);
    } else {
      assert t[..1] == "0";
    }
  }

  // ---------- an SSTP host with its port ----------

  predicate HostText(s: string) {
    s != "" && forall i :: 0 <= i < |s| ==>
      IsLetter(s[i]) || '0' <= s[i] <= '9' || s[i] == '.' || s[i] == '_' || s[i] == '-'
  }

  lemma HostChars(host: string)
    requires HostText(host)
    ensures host != "" && ':' !in host && forall i :: 0 <= i < |host| ==> IsHostChar(host[i])
  {
  }

  lemma DigitsSplit(host: string, digits: string)
    requires ':' !in host && AllDigits(digits)
    ensures Split(host + ":" + digits, ':') == [host, digits]
  {
    hide Split;
    forall i | 0 <= i < |digits| ensures digits[i] != ':' {
      assert IsDigit(digits[i]);
    }
    assert host + ":" + digits == host + [':'] + digits;
    SplitHead(host, digits, ':');
    SplitWord(digits, ':');
  }

  lemma TwoParts(whole: string, host: string, digits: string)
    requires Split(whole, ':') == [host, digits] && AllDigits(digits)
    requires host != "" && forall i :: 0 <= i < |host| ==> IsHostChar(host[i])
    ensures HasPortSuffix(whole) <==> |digits| <= 5
  {
    hide Split, IsHostChar, AllDigits;
  }

  /** An explicit port wins; without one a suffix of up to five digits is the port, if it is one; such a suffix goes
      either way, a longer one stays. */
  lemma SuffixRead(host: string, digits: string, port: Port)
    requires HostText(host) && AllDigits(digits)
    ensures var n := ParseNat(digits);
            SplitSstpEndpoint(host + ":" + digits, port) ==
            if |digits| > 5 then (host + ":" + digits, port)
            else (host, if port > 0 then port else if 1 <= n <= 65535 then n else 0)
  {
    hide Split, IsHostChar, AllDigits, ParseNat, HasPortSuffix, HostText;
    HostChars(host);
    DigitsSplit(host, digits);
    TwoParts(host + ":" + digits, host, digits);
  }

  /** Nothing else is split. */
  lemma OnlySuffixesSplit(s: string, port: Port)
    ensures SplitSstpEndpoint(s, port) == (s, port) ||
            exists host, digits :: HostText(host) && AllDigits(digits) && |digits| <= 5 && s == host + ":" + digits
  {
    if HasPortSuffix(s) {
      var parts := Split(s, ':');
      JoinSplit(s, ':');
      hide Split, ParseNat;
      assert s == parts[0] + ":" + parts[1];
      PlainHostText(parts[0]);
    }
  }

  lemma PlainHostText(host: string)
    requires host != "" && forall i :: 0 <= i < |host| ==> IsHostChar(host[i])
    ensures HostText(host)
  {
  }

  lemma {:induction false} DecDigits(n: nat)
    ensures n < 100000 ==> |Dec(n)| <= 5
  {
    if n >= 10 {
      FewerDigits(n / 10, n);
    }
  }

  lemma FewerDigits(m: nat, n: nat)
    requires n >= 10 && m == n / 10
    ensures n < 100000 ==> |Dec(n)| <= 5
  {
    assert |Dec(n)| == 1 + |Dec(m)|;
    assert m >= 10 ==> |Dec(m)| == 1 + |Dec(m / 10)|;
    assert m / 10 >= 10 ==> |Dec(m / 10)| == 1 + |Dec(m / 10 / 10)|;
    assert m / 10 / 10 >= 10 ==> |Dec(m / 10 / 10)| == 1 + |Dec(m / 10 / 10 / 10)|;
  }

  lemma SuffixIsPort(host: string, n: nat)
    requires HostText(host) && 1 <= n <= 65535
    ensures SplitSstpEndpoint(host + ":" + Dec(n), 0) == (host, n)
  {
    hide ParseNat, Dec, SplitSstpEndpoint;
    DecDigits(n);
    ParseDec(n);
    SuffixRead(host, Dec(n), 0);
  }

  // ---------- the whole row ----------

  /** A raw row is accepted exactly if its address cell, cleaned, is a dotted quad and its host has a name; its SSTP cell
      is split as above. */
  lemma RowAccepted(raw: RawRow)
    ensures var address, host := CleanText(ValueText(raw(Ip))), CleanText(ValueText(raw(HostName)));
            Sanitize(raw).Some? <==> (exists parts, octets :: DottedQuad(address, parts, octets)) && NormalizeHost(host) != ""
    ensures Sanitize(raw).Some? ==>
              (Sanitize(raw).value.sstpHostname, Sanitize(raw).value.sstpPort) ==
              SplitSstpEndpoint(CleanText(ValueText(raw(SstpHostname))), ToPort(raw(SstpPort)))
  {
    var address := CleanText(ValueText(raw(Ip)));
    AddressRead(address);
    if parts, octets :| DottedQuad(address, parts, octets) {
      QuadRead(address, parts, octets);
      QuadText(octets);
    }
    hide DottedQuad, NormalizeIp, NormalizeHost, CleanText, SplitSstpEndpoint, ToInt, ToPort, ToBool, ToConfig,
      ToCountryCode, ToTag;
  }
}

/** What a host name's key is, on the text: case, trailing dots, a scheme and a port do not tell hosts apart, and
    nothing else is dropped. */
module Hosts {
  import opened Text
  import opened Rows
  import opened Merge
  import opened Upsert

  /** A clean name without a colon that does not end with a dot. */
  predicate PlainHost(h: string) {
    h != "" && IsClean(h) && ':' !in h && h[|h| - 1] != '.'
  }

  predicate IsLetter(c: char) {
    'A' <= c <= 'Z' || 'a' <= c <= 'z'
  }

  /** Nothing, or letters and `://`. */
  predicate Scheme(s: string) {
    s == "" || (|s| > 3 && s[|s| - 3..] == "://" && forall i :: 0 <= i < |s| - 3 ==> IsLetter(s[i]))
  }

  /** Nothing, or a colon and digits. */
  predicate PortSuffix(s: string) {
    s == "" || (s[0] == ':' && AllDigits(s[1..]))
  }

  predicate Dots(s: string) {
    forall i :: 0 <= i < |s| ==> s[i] == '.'
  }

  /** The key is the name itself, its capitals replaced one by one. */
  predicate LowerCaseOf(key: string, h: string) {
    |key| == |h| && forall i :: 0 <= i < |h| ==> key[i] == if 'A' <= h[i] <= 'Z' then (h[i] as int + 32) as char else h[i]
  }

  // ---------- the key of a decorated host ----------

  lemma CleanConcat(a: string, b: string)
    requires IsClean(a) && IsClean(b)
    ensures IsClean(a + b)
  {
    hide IsSpace;
    var s := a + b;
    forall i | 0 < i < |s| && s[i] == ' ' ensures s[i - 1] != ' ' {
      if i >= |a| {
        assert s[i] == b[i - |a|];
      }
      assert IsSpace(' ') by { BlankIsSpace(); }
    }
  }

  lemma BlankIsSpace()
    ensures IsSpace(' ')
  {
  }

  lemma LowerConcat(a: string, b: string)
    ensures Lower(a + b) == Lower(a) + Lower(b)
  {
  }

  lemma {:induction false} DotsStripped(s: string, dots: string)
    requires Dots(dots) && s != "" && s[|s| - 1] != '.'
    ensures StripDots(s + dots) == s
  {
    var all := s + dots;
    if dots == "" {
      assert all == s;
    } else {
      var n := |dots| - 1;
      assert all[|all| - 1] == dots[n] && all[..|all| - 1] == s + dots[..n];
      DotsStripped(s, dots[..n]);
    }
  }

  lemma {:induction false} LetterRunOf(letters: string, rest: string)
    requires forall i :: 0 <= i < |letters| ==> 'a' <= letters[i] <= 'z'
    requires rest == "" || !('a' <= rest[0] <= 'z')
    ensures LetterRun(letters + rest) == |letters|
  {
    var s := letters + rest;
    if letters != "" {
      assert s[1..] == letters[1..] + rest;
      LetterRunOf(letters[1..], rest);
    } else {
      assert s == rest;
    }
  }

  lemma SchemeDropped(scheme: string, rest: string)
    requires Scheme(scheme) && scheme != ""
    ensures StripScheme(Lower(scheme) + rest) == rest
  {
    var n := |scheme| - 3;
    var low := Lower(scheme);
    var letters, tail := low[..n], "://" + rest;
    forall i | 0 <= i < 3 ensures low[n + i] == "://"[i] {
      assert scheme[n + i] == scheme[n..][i];
    }
    assert low[n..] == "://";
    forall i | 0 <= i < n ensures 'a' <= letters[i] <= 'z' {
      assert IsLetter(scheme[i]);
    }
    assert low + rest == letters + tail;
    LetterRunOf(letters, tail);
    assert (low + rest)[n..] == tail && (low + rest)[n + 3..] == rest;
  }

  lemma SchemeMark(s: string, n: nat)
    requires n <= |s|
    ensures "://" <= s[n..] ==> n + 1 < |s| && s[n] == ':' && s[n + 1] == '/'
  {
    if "://" <= s[n..] {
      assert s[n..][0] == s[n] && s[n..][1] == s[n + 1];
    }
  }

  lemma NoSchemeFound(h: string, port: string)
    requires h != "" && ':' !in h && PortSuffix(port)
    ensures StripScheme(h + port) == h + port
  {
    var s := h + port;
    assert forall i :: 0 <= i < |h| ==> s[i] == h[i];
    assert forall i :: 0 <= i < |port| ==> s[|h| + i] == port[i];
    DigitsHaveNoColon(port);
    if port != "" {
      assert IsDigit(port[1..][0]);
    }
    assert forall j :: 0 <= j < |s| - 1 && s[j] == ':' ==> j == |h| && s[j + 1] == port[1];
    SchemeMark(s, LetterRun(s));
  }

  lemma DigitsHaveNoColon(port: string)
    requires PortSuffix(port)
    ensures forall i :: 0 < i < |port| ==> port[i] != ':'
  {
    forall i | 0 < i < |port| ensures port[i] != ':' {
      assert IsDigit(port[1..][i - 1]);
    }
  }

  lemma PortDropped(h: string, port: string)
    requires ':' !in h && PortSuffix(port)
    ensures var s := h + port; var parts := Split(s, ':'); (if |parts| == 2 then parts[0] else s) == h
  {
    hide Split;
    if port == "" {
      assert h + port == h;
      SplitWord(h, ':');
    } else {
      var digits := port[1..];
      DigitsHaveNoColon(port);
      assert h + port == h + [':'] + digits;
      SplitHead(h, digits, ':');
      forall i | 0 <= i < |digits| ensures digits[i] != ':' {
        assert digits[i] == port[i + 1];
      }
      SplitWord(digits, ':');
    }
  }

  lemma PiecesAreClean(scheme: string, port: string, dots: string)
    requires Scheme(scheme) && PortSuffix(port) && Dots(dots)
    ensures IsClean(scheme) && IsClean(port) && IsClean(dots)
  {
    hide IsClean;
    forall i | 0 <= i < |scheme| ensures '!' <= scheme[i] <= '~' {
      if i >= |scheme| - 3 {
        assert scheme[i] == scheme[|scheme| - 3..][i - (|scheme| - 3)];
      }
    }
    forall i | 0 < i < |port| ensures IsDigit(port[i]) {
      assert IsDigit(port[1..][i - 1]);
    }
    GraphicIsClean(scheme);
    GraphicIsClean(port);
    GraphicIsClean(dots);
  }

  lemma DecoratedIsClean(scheme: string, h: string, port: string, dots: string)
    requires Scheme(scheme) && PlainHost(h) && PortSuffix(port) && Dots(dots)
    ensures IsClean(scheme + h + port + dots)
  {
    hide IsClean;
    PiecesAreClean(scheme, port, dots);
    CleanConcat(scheme, h);
    CleanConcat(scheme + h, port);
    CleanConcat(scheme + h + port, dots);
  }

  lemma PortIsLower(port: string)
    requires PortSuffix(port)
    ensures Lower(port) == port && (port != "" ==> port[|port| - 1] != '.')
  {
    forall i | 0 < i < |port| ensures IsDigit(port[i]) {
      assert IsDigit(port[1..][i - 1]);
    }
  }

  lemma PlainIsLowered(h: string)
    requires PlainHost(h)
    ensures var key := Lower(h); LowerCaseOf(key, h) && key != "" && ':' !in key && key[|key| - 1] != '.'
  {
    hide IsClean;
    var key := Lower(h);
    forall i | 0 <= i < |h| ensures key[i] != ':' {
      assert h[i] in h;
    }
  }

  /** A host in any dress has the key of the plain name. */
  lemma DecoratedHost(scheme: string, h: string, port: string, dots: string)
    requires Scheme(scheme) && PlainHost(h) && PortSuffix(port) && Dots(dots)
    ensures var v := scheme + h + port + dots;
            LowerCaseOf(NormalizeHost(v), h) && NormalizeHost(v) == NormalizeHost(h)
  {
    hide CleanText, Lower, StripDots, StripScheme, Split, IsClean, Scheme, PortSuffix, LowerCaseOf, PlainHost;
    DecoratedKey(scheme, h, port, dots);
    NothingIsDress();
    DecoratedKey("", h, "", "");
    assert "" + h + "" + "" == h;
    PlainIsLowered(h);
  }

  lemma NothingIsDress()
    ensures Scheme("") && PortSuffix("") && Dots("")
  {
  }

  lemma DecoratedKey(scheme: string, h: string, port: string, dots: string)
    requires Scheme(scheme) && PlainHost(h) && PortSuffix(port) && Dots(dots)
    ensures NormalizeHost(scheme + h + port + dots) == Lower(h)
  {
    var v := scheme + h + port + dots;
    DecoratedIsClean(scheme, h, port, dots);
    CleanTextFixpoint(v);
    PlainIsLowered(h);
    PortIsLower(port);
    hide CleanText, Lower, StripDots, StripScheme, Split, IsClean, PlainHost, LowerCaseOf;
    DotsAreLower(dots);
    LowerConcat(scheme + h + port, dots);
    LowerConcat(scheme + h, port);
    LowerConcat(scheme, h);
    var low := Lower(scheme) + Lower(h) + port;
    DotsStripped(low, dots);
    UndressedKey(scheme, Lower(h), port);
  }

  lemma DotsAreLower(dots: string)
    requires Dots(dots)
    ensures Lower(dots) == dots
  {
  }

  lemma UndressedKey(scheme: string, key: string, port: string)
    requires Scheme(scheme) && PortSuffix(port) && key != "" && ':' !in key
    ensures StripScheme(Lower(scheme) + key + port) == key + port
    ensures var s := key + port; var parts := Split(s, ':'); (if |parts| == 2 then parts[0] else s) == key
  {
    hide StripScheme, Split;
    PortDropped(key, port);
    if scheme == "" {
      assert Lower(scheme) + key + port == key + port;
      NoSchemeFound(key, port);
    } else {
      assert Lower(scheme) + key + port == Lower(scheme) + (key + port);
      SchemeDropped(scheme, key + port);
    }
  }

  // ---------- which rows collide ----------

  /** The same letters, capital or not, in the same places. */
  predicate SameUpToCase(a: string, b: string) {
    |a| == |b| && forall i :: 0 <= i < |a| ==> SameLetter(a[i], b[i])
  }

  predicate SameLetter(a: char, b: char) {
    || a == b
    || ('A' <= a <= 'Z' && b as int == a as int + 32)
    || ('A' <= b <= 'Z' && a as int == b as int + 32)
  }

  /** Plain names share a key if and only if they agree up to case. */
  lemma SameKeyExactly(a: string, b: string)
    requires PlainHost(a) && PlainHost(b)
    ensures NormalizeHost(a) == NormalizeHost(b) <==> SameUpToCase(a, b)
  {
    hide NormalizeHost, IsClean;
    NothingIsDress();
    DecoratedHost("", a, "", "");
    DecoratedHost("", b, "", "");
    var x, y := NormalizeHost(a), NormalizeHost(b);
    assert x == y <==> |x| == |y| && forall i :: 0 <= i < |x| ==> x[i] == y[i];
    if |a| == |b| {
      forall i | 0 <= i < |a| ensures x[i] == y[i] <==> SameLetter(a[i], b[i]) {
      }
    }
  }

  /** On plain names: a row survives exactly if no row of its name, in whatever case, is stronger. Rows of different
      names never displace each other. */
  lemma DedupeByName(entries: seq<Entry>, e: Entry)
    requires DistinctEntries(entries) && forall x :: x in entries ==> PlainHost(x.row.hostName)
    requires e in entries
    ensures e in DedupeHostnames(entries) <==>
            forall x :: x in entries && SameUpToCase(x.row.hostName, e.row.hostName) ==> !Stronger(x.row, e.row)
  {
    hide NormalizeHost, DedupeHostnames, Stronger, PlainHost, SameUpToCase;
    DedupeKeepsStrongest(entries, e);
    SelectMembers(entries, HostKey, HostKey(e));
    forall x | x in entries ensures HostKey(x) == HostKey(e) <==> SameUpToCase(x.row.hostName, e.row.hostName) {
      SameKeyExactly(x.row.hostName, e.row.hostName);
    }
  }
}

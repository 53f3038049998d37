/** Small rows that show a case occurs. */
module Samples {
  import opened Ordering
  import opened Ranking
  import opened Text
  import opened Rows

  /** A server of host `h` with one listener and no embedded profile. */
  function Sample(ip: string, message: string, score: Option<int>, seen: Option<int>): Row {
    Row("h", ip, score, None, None, "", "", None, None, None, None, "", "", message, "", 443, false, 0, 0, 0,
        false, false, "", 0, false, seen, seen, ApiIphone)
  }

  lemma SampleHost()
    ensures IsClean("h") && NormalizeHost("h") == "h"
  {
    GraphicIsClean("h");
    CleanTextFixpoint("h");
    assert Lower("h") == "h" && StripDots("h") == "h";
    assert StripScheme("h") == "h";
    SplitWord("h", ':');
  }

  lemma SampleIsSanitized(ip: string, message: string, score: Option<int>, seen: Option<int>)
    requires ip != "" && NormalizeIp(ip) == ip && IsClean(message)
    ensures Sanitized(Sample(ip, message, score, seen))
  {
    hide NormalizeIp, NormalizeHost, IsClean;
    SampleHost();
    GraphicIsClean("");
    assert Split("", ':') == [""];
  }

  /** What one source says of the server of that host at the first address. */
  function Server(message: string, port: Port, tag: Tag, seen: int): Row {
    Sample(Address(1), message, None, None).(seTcpPort := port, firstSeenAt := Some(seen), sourceTag := tag)
  }

  lemma ServerIsSanitized(message: string, port: Port, tag: Tag, seen: int)
    requires IsClean(message)
    ensures Sanitized(Server(message, port, tag, seen))
  {
    hide NormalizeHost, NormalizeIp, IsClean, Address, HasPortSuffix;
    AddressIsCanonical(1);
    SampleIsSanitized(Address(1), message, None, None);
  }

  function Address(n: nat): string {
    Join(DecAll([1, 1, 1, n]), ".")
  }

  lemma AddressIsCanonical(n: nat)
    requires n <= 255
    ensures Address(n) != "" && NormalizeIp(Address(n)) == Address(n) && Octets(Address(n)) == [1, 1, 1, n]
  {
    QuadText([1, 1, 1, n]);
  }

  /** Two addresses, the first the smaller text. */
  lemma TwoAddresses() returns (a: string, b: string)
    ensures a != "" && NormalizeIp(a) == a && b != "" && NormalizeIp(b) == b
    ensures LexLess(a, b, CharCode) && {a, b} == {Address(1), Address(2)} && a != b
  {
    hide NormalizeIp, Address;
    a, b := Address(1), Address(2);
    AddressIsCanonical(1);
    AddressIsCanonical(2);
    assert [1, 1, 1, 1][3] != [1, 1, 1, 2][3];
    if !LexLess(a, b, CharCode) {
      if !LexLess(b, a, CharCode) {
        LexTotal(a, b, CharCode);
      }
      a, b := b, a;
    }
  }
}

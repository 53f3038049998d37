/** Port reconciliation: the endpoint an embedded OpenVPN profile dials (`config_transport_ports`)
    and the columns it overrules (`enforce_config_ports`). A profile arrives as its lines, each a
    list of words; decoding Base64 and splitting into words happen outside this model. */
module Ports {
  import opened Text
  import opened Rows

  type Profile = seq<seq<string>>

  datatype Remote = Remote(port: int, transport: string)

  datatype Family = Tcp | Udp | Unknown

  datatype DialedPorts = DialedPorts(tcp: Option<Port>, udp: Option<Port>)

  /** `int(word)`, or None where that raises. */
  function PortNumber(word: string): Option<int> {
    if AllDigits(word) then Some(ParseNat(word))
    else if word != "" && (word[0] == '-' || word[0] == '+') && AllDigits(word[1..])
    then (var n: int := ParseNat(word[1..]); Some(if word[0] == '-' then -n else n))
    else None
  }

  predicate IsDirective(line: seq<string>, name: string, words: nat) {
    |line| >= words && words > 0 && line[0] != "" && line[0][0] != '#' && line[0][0] != ';' && Lower(line[0]) == name
  }

  function Protos(lines: Profile): seq<string> {
    if lines == [] then []
    else
      var line := lines[|lines| - 1];
      Protos(lines[..|lines| - 1]) + (if IsDirective(line, "proto", 2) then [Lower(line[1])] else [])
  }

  function RemoteOf(line: seq<string>): Option<Remote> {
    if !IsDirective(line, "remote", 3) then None
    else
      match PortNumber(line[2])
      case None => None
      case Some(port) => Some(Remote(port, if |line| > 3 then Lower(line[3]) else ""))
  }

  function Remotes(lines: Profile): seq<Remote> {
    if lines == [] then []
    else
      var remote := RemoteOf(lines[|lines| - 1]);
      Remotes(lines[..|lines| - 1]) + (if remote.Some? then [remote.value] else [])
  }

  /** The profile's own transport, when all its `proto` lines agree. */
  function GlobalProto(protos: seq<string>): string {
    if protos != [] && forall i :: 0 <= i < |protos| ==> protos[i] == protos[0] then protos[0] else ""
  }

  function FamilyOf(remote: Remote, global: string): Family {
    var proto := if remote.transport != "" then remote.transport else global;
    if "tcp" <= proto then Tcp else if "udp" <= proto then Udp else Unknown
  }

  /** This remote line decides the family's port. */
  predicate Dials(remote: Remote, global: string, family: Family) {
    FamilyOf(remote, global) == family && 1 <= remote.port <= 65535
  }

  function FirstPort(remotes: seq<Remote>, global: string, family: Family): Option<Port> {
    if remotes == [] then None
    else
      var n := |remotes| - 1;
      var before := FirstPort(remotes[..n], global, family);
      if before.Some? then before
      else if Dials(remotes[n], global, family) then Some(remotes[n].port) else None
  }

  function ConfigPorts(lines: Profile): DialedPorts {
    var remotes, global := Remotes(lines), GlobalProto(Protos(lines));
    DialedPorts(FirstPort(remotes, global, Tcp), FirstPort(remotes, global, Udp))
  }

  predicate IsFirst(remotes: seq<Remote>, global: string, family: Family, i: int) {
    && 0 <= i < |remotes| && Dials(remotes[i], global, family)
    && forall j :: 0 <= j < i ==> !Dials(remotes[j], global, family)
  }

  /** The port is that of the first remote line of the family that carries a usable port. */
  lemma {:induction false} FirstPortIsFirst(remotes: seq<Remote>, global: string, family: Family)
    ensures match FirstPort(remotes, global, family)
            case None => forall i :: 0 <= i < |remotes| ==> !Dials(remotes[i], global, family)
            case Some(p) => p >= 1 && exists i :: IsFirst(remotes, global, family, i) && remotes[i].port == p
  {
    hide FamilyOf;
    if remotes != [] {
      var n := |remotes| - 1;
      var init := remotes[..n];
      FirstPortIsFirst(init, global, family);
      if FirstPort(init, global, family).Some? {
        var i :| IsFirst(init, global, family, i) && init[i].port == FirstPort(init, global, family).value;
        assert IsFirst(remotes, global, family, i);
      } else {
        assert forall j :: 0 <= j < n ==> remotes[j] == init[j];
        if Dials(remotes[n], global, family) {
          assert IsFirst(remotes, global, family, n);
        }
      }
    }
  }

  /** `config_transport_ports` as a program: one pass over the lines, one over the remotes. */
  method ConfigTransportPorts(lines: Profile) returns (ports: DialedPorts)
    ensures ports == ConfigPorts(lines)
  {
    hide FamilyOf, PortNumber, Lower;
    var protos, remotes := [], [];
    for k := 0 to |lines|
      invariant protos == Protos(lines[..k]) && remotes == Remotes(lines[..k])
    {
      assert lines[..k + 1][..k] == lines[..k];
      var line := lines[k];
      if IsDirective(line, "proto", 2) {
        protos := protos + [Lower(line[1])];
      }
      var remote := RemoteOf(line);
      if remote.Some? {
        remotes := remotes + [remote.value];
      }
    }
    assert lines[..|lines|] == lines;
    var global := GlobalProto(protos);
    ports := DialedPorts(None, None);
    for k := 0 to |remotes|
      invariant ports == DialedPorts(FirstPort(remotes[..k], global, Tcp), FirstPort(remotes[..k], global, Udp))
    {
      assert remotes[..k + 1][..k] == remotes[..k];
      var remote := remotes[k];
      if 1 <= remote.port <= 65535 {
        if FamilyOf(remote, global) == Tcp && ports.tcp.None? {
          ports := ports.(tcp := Some(remote.port));
        } else if FamilyOf(remote, global) == Udp && ports.udp.None? {
          ports := ports.(udp := Some(remote.port));
        }
      }
    }
    assert remotes[..|remotes|] == remotes;
  }

  // ---------- the columns ----------

  type Decoder = string -> Profile

  /** The ports of a row's embedded profile; a row without one declares none. */
  function RowPorts(r: Row, decode: Decoder): DialedPorts {
    if r.config == "" then DialedPorts(None, None) else ConfigPorts(decode(r.config))
  }

  /** `enforce_config_ports` on one row: what the profile dials wins. */
  function EnforceRow(r: Row, decode: Decoder): Row {
    var ports := RowPorts(r, decode);
    r.(openVpnTcpPort := if ports.tcp.Some? then ports.tcp.value else r.openVpnTcpPort,
       openVpnUdpPort := if ports.udp.Some? then ports.udp.value else r.openVpnUdpPort)
  }

  /** The published columns agree with the profile they ship with. */
  predicate PortsAgree(r: Row, decode: Decoder) {
    var ports := RowPorts(r, decode);
    && (ports.tcp.Some? ==> r.openVpnTcpPort == ports.tcp.value)
    && (ports.udp.Some? ==> r.openVpnUdpPort == ports.udp.value)
  }

  /** Enforcing makes the columns agree, changes nothing that already does, never clears a port and
      keeps the row sanitized. */
  lemma EnforceAgrees(r: Row, decode: Decoder)
    ensures var e := EnforceRow(r, decode);
            && PortsAgree(e, decode)
            && (e == r <==> PortsAgree(r, decode))
            && (r.openVpnTcpPort > 0 ==> e.openVpnTcpPort > 0) && (r.openVpnUdpPort > 0 ==> e.openVpnUdpPort > 0)
            && e.ip == r.ip && e.hostName == r.hostName && (Sanitized(e) <==> Sanitized(r))
  {
    FirstPortIsFirst(Remotes(decode(r.config)), GlobalProto(Protos(decode(r.config))), Tcp);
    FirstPortIsFirst(Remotes(decode(r.config)), GlobalProto(Protos(decode(r.config))), Udp);
    hide FirstPort, Remotes, Protos, GlobalProto, IsClean, NormalizeIp, NormalizeHost, HasPortSuffix, ValidBase64;
  }

  // ---------- on the profile's lines ----------

  predicate IsProto(line: seq<string>) {
    |line| >= 2 && Lower(line[0]) == "proto"
  }

  /** There are `proto` lines, they all say the same, and it starts with `name`. */
  predicate AllProtosSay(lines: Profile, name: string) {
    && (exists i :: 0 <= i < |lines| && IsProto(lines[i]) && name <= Lower(lines[i][1]))
    && (forall i, j :: 0 <= i < |lines| && 0 <= j < |lines| && IsProto(lines[i]) && IsProto(lines[j]) ==>
          Lower(lines[i][1]) == Lower(lines[j][1]))
  }

  /** Digits, with or without a plus sign. */
  predicate Spells(word: string, n: int) {
    || (AllDigits(word) && ParseNat(word) == n)
    || (word != "" && word[0] == '+' && AllDigits(word[1..]) && ParseNat(word[1..]) == n)
  }

  /** Line `i` is a `remote` line with that usable port, over the transport it names itself, or else over the one
      all `proto` lines name. */
  predicate Decides(lines: Profile, i: int, name: string, port: int) {
    && 0 <= i < |lines| && |lines[i]| >= 3 && Lower(lines[i][0]) == "remote"
    && Spells(lines[i][2], port) && 1 <= port <= 65535
    && if |lines[i]| > 3 && lines[i][3] != "" then name <= Lower(lines[i][3]) else AllProtosSay(lines, name)
  }

  ghost predicate FirstDecides(lines: Profile, i: int, name: string, port: int) {
    Decides(lines, i, name, port) && forall j, q :: 0 <= j < i ==> !Decides(lines, j, name, q)
  }

  lemma Uncommented(line: seq<string>, name: string, words: nat)
    requires words > 0 && (name == "proto" || name == "remote")
    ensures IsDirective(line, name, words) <==> |line| >= words && Lower(line[0]) == name
  {
    if |line| >= words && Lower(line[0]) == name {
      assert Lower(line[0])[0] == LowerChar(line[0][0]);
    }
  }

  lemma {:induction false} ProtosMembers(lines: Profile)
    ensures forall x :: x in Protos(lines) <==> exists i :: 0 <= i < |lines| && IsProto(lines[i]) && Lower(lines[i][1]) == x
  {
    hide Lower, IsDirective;
    if lines != [] {
      var n := |lines| - 1;
      ProtosMembers(lines[..n]);
      Uncommented(lines[n], "proto", 2);
      assert Protos(lines) == Protos(lines[..n]) + if IsProto(lines[n]) then [Lower(lines[n][1])] else [];
      forall x ensures x in Protos(lines) <==> exists i :: 0 <= i < |lines| && IsProto(lines[i]) && Lower(lines[i][1]) == x {
        if i :| 0 <= i < |lines| && IsProto(lines[i]) && Lower(lines[i][1]) == x {
          assert i < n ==> IsProto(lines[..n][i]);
        }
        if i :| 0 <= i < n && IsProto(lines[..n][i]) && Lower(lines[..n][i][1]) == x {
          assert IsProto(lines[i]);
        }
      }
    }
  }

  lemma GlobalSays(lines: Profile, name: string)
    requires name != ""
    ensures name <= GlobalProto(Protos(lines)) <==> AllProtosSay(lines, name)
  {
    hide Lower, Protos;
    ProtosMembers(lines);
    var protos := Protos(lines);
    if AllProtosSay(lines, name) {
      var i :| 0 <= i < |lines| && IsProto(lines[i]) && name <= Lower(lines[i][1]);
      assert Lower(lines[i][1]) in protos;
      forall k | 0 <= k < |protos| ensures protos[k] == Lower(lines[i][1]) {
        assert protos[k] in protos;
      }
    }
    if name <= GlobalProto(protos) {
      assert protos[0] in protos;
      forall i | 0 <= i < |lines| && IsProto(lines[i]) ensures Lower(lines[i][1]) == protos[0] {
        assert Lower(lines[i][1]) in protos;
      }
    }
  }

  lemma PortSpelled(word: string, n: int)
    requires n >= 1
    ensures PortNumber(word) == Some(n) <==> Spells(word, n)
  {
    hide ParseNat;
    assert word != "" && (word[0] == '+' || word[0] == '-') ==> !AllDigits(word);
  }

  /** The line's own verdict, given the profile's transport. */
  predicate LineDials(line: seq<string>, global: string, family: Family) {
    RemoteOf(line).Some? && Dials(RemoteOf(line).value, global, family)
  }

  lemma {:induction false} FirstLine(lines: Profile, global: string, family: Family)
    ensures match FirstPort(Remotes(lines), global, family)
            case None => forall i :: 0 <= i < |lines| ==> !LineDials(lines[i], global, family)
            case Some(p) => exists i :: && 0 <= i < |lines| && LineDials(lines[i], global, family)
                                        && RemoteOf(lines[i]).value.port == p
                                        && forall j :: 0 <= j < i ==> !LineDials(lines[j], global, family)
  {
    hide RemoteOf, Dials;
    if lines != [] {
      var n := |lines| - 1;
      FirstLine(lines[..n], global, family);
      assert forall j :: 0 <= j < n ==> lines[..n][j] == lines[j];
      var before, remote := Remotes(lines[..n]), RemoteOf(lines[n]);
      if remote.Some? {
        assert (before + [remote.value])[..|before|] == before;
      } else {
        assert Remotes(lines) == before;
      }
      if FirstPort(before, global, family).Some? {
        assert FirstPort(Remotes(lines), global, family) == FirstPort(before, global, family);
      } else if LineDials(lines[n], global, family) {
        assert FirstPort(Remotes(lines), global, family) == Some(remote.value.port);
      }
    }
  }

  function NameOf(family: Family): string {
    match family case Tcp => "tcp" case Udp => "udp" case Unknown => "?"
  }

  lemma LineDecides(lines: Profile, i: int, family: Family, port: int)
    requires 0 <= i < |lines| && !family.Unknown?
    ensures var global := GlobalProto(Protos(lines));
            LineDials(lines[i], global, family) && RemoteOf(lines[i]).value.port == port <==>
            Decides(lines, i, NameOf(family), port)
  {
    hide Lower, Protos, PortNumber, Spells, IsDirective, GlobalProto, AllProtosSay;
    var line := lines[i];
    GlobalSays(lines, NameOf(family));
    Uncommented(line, "remote", 3);
    if |line| >= 3 && port >= 1 {
      PortSpelled(line[2], port);
    }
    if |line| > 3 {
      LowerOfNothing(line[3]);
    }
    OneFamily(if |line| > 3 && line[3] != "" then Lower(line[3]) else GlobalProto(Protos(lines)));
  }

  lemma LowerOfNothing(s: string)
    ensures Lower(s) == "" <==> s == ""
  {
    assert |Lower(s)| == |s|;
  }

  lemma OneFamily(proto: string)
    ensures !("tcp" <= proto && "udp" <= proto) && !("tcp" <= "") && !("udp" <= "")
  {
    if "tcp" <= proto {
      assert proto[0] == "tcp"[0];
    }
  }

  /** A profile's port over a transport is that of the first line that decides it; there is none only if no line
      does. */
  lemma ConfigDials(lines: Profile, family: Family)
    requires !family.Unknown?
    ensures var ports, name := ConfigPorts(lines), NameOf(family);
            match (if family.Tcp? then ports.tcp else ports.udp)
            case None => forall i, q :: !Decides(lines, i, name, q)
            case Some(p) => exists i :: FirstDecides(lines, i, name, p)
  {
    hide Remotes, Protos, GlobalProto, FirstPort, RemoteOf, Decides, Dials;
    var global, name := GlobalProto(Protos(lines)), NameOf(family);
    FirstLine(lines, global, family);
    forall i, q | 0 <= i < |lines|
      ensures Decides(lines, i, name, q) <==> LineDials(lines[i], global, family) && RemoteOf(lines[i]).value.port == q
    {
      LineDecides(lines, i, family, q);
    }
    assert forall i, q :: Decides(lines, i, name, q) ==> 0 <= i < |lines| by {
      forall i, q | Decides(lines, i, name, q) ensures 0 <= i < |lines| {
        DecidesInRange(lines, i, name, q);
      }
    }
    if FirstPort(Remotes(lines), global, family).Some? {
      var p := FirstPort(Remotes(lines), global, family).value;
      var i :| && 0 <= i < |lines| && LineDials(lines[i], global, family) && RemoteOf(lines[i]).value.port == p
               && forall j :: 0 <= j < i ==> !LineDials(lines[j], global, family);
      assert FirstDecides(lines, i, name, p);
    }
  }

  lemma DecidesInRange(lines: Profile, i: int, name: string, port: int)
    requires Decides(lines, i, name, port)
    ensures 0 <= i < |lines|
  {
  }

  lemma ColumnByLines(lines: Profile, family: Family)
    requires !family.Unknown?
    ensures var ports, name := ConfigPorts(lines), NameOf(family);
            var port := if family.Tcp? then ports.tcp else ports.udp;
            && (forall i, p :: FirstDecides(lines, i, name, p) ==> port == Some(p))
            && ((forall i, p :: !Decides(lines, i, name, p)) ==> port == None)
  {
    hide ConfigPorts, FirstDecides, Decides;
    var name := NameOf(family);
    ConfigDials(lines, family);
    var port := if family.Tcp? then ConfigPorts(lines).tcp else ConfigPorts(lines).udp;
    if port.Some? {
      var i :| FirstDecides(lines, i, name, port.value);
      FirstIsOne(lines, name, i, port.value);
      forall j, q | FirstDecides(lines, j, name, q) ensures q == port.value {
        OneFirst(lines, name, i, port.value, j, q);
      }
    } else {
      forall j, q ensures !FirstDecides(lines, j, name, q) {
        if FirstDecides(lines, j, name, q) {
          FirstIsOne(lines, name, j, q);
        }
      }
    }
  }

  /** The columns of a row with a profile: each is the port of the first line that decides its transport, and is kept
      if no line does. Nothing else changes. */
  lemma EnforceByLines(r: Row, decode: Decoder)
    ensures var e, lines := EnforceRow(r, decode), decode(r.config);
            && e == r.(openVpnTcpPort := e.openVpnTcpPort, openVpnUdpPort := e.openVpnUdpPort)
            && (r.config == "" ==> e == r)
            && (forall i, p :: r.config != "" && FirstDecides(lines, i, "tcp", p) ==> e.openVpnTcpPort == p)
            && (forall i, p :: r.config != "" && FirstDecides(lines, i, "udp", p) ==> e.openVpnUdpPort == p)
            && ((forall i, p :: !Decides(lines, i, "tcp", p)) ==> e.openVpnTcpPort == r.openVpnTcpPort)
            && ((forall i, p :: !Decides(lines, i, "udp", p)) ==> e.openVpnUdpPort == r.openVpnUdpPort)
  {
    hide ConfigPorts, FirstDecides, Decides;
    var lines := decode(r.config);
    assert NameOf(Tcp) == "tcp" && NameOf(Udp) == "udp";
    ColumnByLines(lines, Tcp);
    ColumnByLines(lines, Udp);
  }

  lemma FirstIsOne(lines: Profile, name: string, i: int, p: int)
    requires FirstDecides(lines, i, name, p)
    ensures Decides(lines, i, name, p)
  {
  }

  lemma OneFirst(lines: Profile, name: string, i: int, p: int, j: int, q: int)
    requires FirstDecides(lines, i, name, p) && FirstDecides(lines, j, name, q)
    ensures p == q
  {
    hide Lower, AllProtosSay, ParseNat;
    assert i == j;
    var word := lines[i][2];
    assert word != "" && word[0] == '+' ==> !AllDigits(word);
  }

  /** `normalize_sstp_rows` on one row. */
  function NormalizeSstpRow(r: Row): Row {
    var (host, port) := SplitSstpEndpoint(r.sstpHostname, r.sstpPort);
    r.(sstpHostname := host, sstpPort := port)
  }

  /** Splitting leaves exactly the rows without a port suffix alone and is idempotent; an explicit
      port survives, and a port is taken from the suffix only when the column held none. */
  lemma NormalizeSstpSplits(r: Row)
    ensures var n := NormalizeSstpRow(r);
            && (n == r <==> !HasPortSuffix(r.sstpHostname))
            && NormalizeSstpRow(n) == n
            && (r.sstpPort > 0 ==> n.sstpPort == r.sstpPort)
            && (HasPortSuffix(r.sstpHostname) ==> n.sstpHostname + ":" <= r.sstpHostname)
    ensures Sanitized(r) ==> NormalizeSstpRow(r) == r
  {
    if HasPortSuffix(r.sstpHostname) {
      var parts := Split(r.sstpHostname, ':');
      JoinSplit(r.sstpHostname, ':');
      HostWithoutColon(parts[0]);
      assert r.sstpHostname == parts[0] + ":" + parts[1];
    }
  }
}

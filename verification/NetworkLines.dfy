/** Network lines of a profile: what is printed for connections and for listening sockets, and what the
    parser reads in any network line. */
module NetworkLines {
  import opened Strings
  import opened Text
  import opened Ir
  import opened AppArmorPrinter
  import opened AppArmorParser
  import opened RoundTrip

  // ---- addresses ----

  function Decimals(o: seq<nat>): seq<string> { if o == [] then [] else [Dec(o[0])] + Decimals(o[1..]) }

  lemma {:induction false} DecimalsHaveNoDot(o: seq<nat>)
    ensures |Decimals(o)| == |o| && forall p :: p in Decimals(o) ==> '.' !in p
  {
    hide Dec;
    if o != [] {
      DecIsToken(o[0]);
      DecimalsHaveNoDot(o[1..]);
    }
  }

  lemma TooLarge(n: nat, max: nat)
    ensures ParseUInt(Dec(n), max) == if n <= max then Some(n) else None
  {
    ValueOfDec(n);
    assert IsDigitChar(Dec(n)[0]);
  }

  lemma {:induction false} OctetsOfDecimals(o: seq<nat>)
    ensures ParseOctets(Decimals(o)) == if (forall i :: 0 <= i < |o| ==> o[i] < 256) then Some(o) else None
  {
    hide Dec, ParseUInt;
    if o != [] {
      TooLarge(o[0], 255);
      OctetsOfDecimals(o[1..]);
      assert Decimals(o)[1..] == Decimals(o[1..]);
      assert o == [o[0]] + o[1..];
      assert forall i :: 0 <= i < |o| - 1 ==> o[1..][i] == o[i + 1];
      assert (forall i :: 0 <= i < |o| ==> o[i] < 256) <==> o[0] < 256 && forall i :: 0 <= i < |o| - 1 ==> o[1..][i] < 256;
    }
  }

  /** Dotted decimals are an address exactly when they are four, each below 256; the first is the lowest byte. */
  lemma AddressOfDecimals(o: seq<nat>)
    requires o != []
    ensures ParseIpv4(Join(Decimals(o), '.')) ==
            if |o| == 4 && o[0] < 256 && o[1] < 256 && o[2] < 256 && o[3] < 256
            then Some(o[0] + 256 * o[1] + 65536 * o[2] + 16777216 * o[3]) else None
  {
    hide Split, Dec, ParseOctets, Join, FromOctets, Decimals;
    DecimalsHaveNoDot(o);
    SplitJoin(Decimals(o), '.');
    OctetsOfDecimals(o);
    if |o| == 4 {
      FourOctets(o);
    }
  }

  lemma FourOctets(o: seq<nat>)
    requires |o| == 4
    ensures (forall i :: 0 <= i < |o| ==> o[i] < 256) <==> o[0] < 256 && o[1] < 256 && o[2] < 256 && o[3] < 256
    ensures (forall i :: 0 <= i < |o| ==> o[i] < 256) ==>
              FromOctets(o) == o[0] + 256 * o[1] + 65536 * o[2] + 16777216 * o[3]
  {
  }

  /** Of a port range only the first port is kept; a plus sign is allowed. */
  lemma PortOfRange(low: u32, rest: string)
    ensures ParsePort(Dec(low) + "-" + rest) == Some(low)
    ensures ParsePort("+" + Dec(low) + "-" + rest) == Some(low)
  {
    hide Dec;
    DecIsToken(low);
    CutAtDash(Dec(low), rest);
    PlusSign(low);
    assert '-' !in "+" + Dec(low);
    CutAtDash("+" + Dec(low), rest);
    TooLarge(low, U32_MAX);
  }

  lemma CutAtDash(first: string, rest: string)
    requires '-' !in first
    ensures Split(first + "-" + rest, '-')[0] == first
  {
    var s := first + "-" + rest;
    assert s[..|first|] == first && s[|first|] == '-';
    IndexOfUnique(s, '-', |first|);
  }

  lemma PlusSign(n: u32)
    ensures ParseUInt("+" + Dec(n), U32_MAX) == Some(n)
  {
    assert ("+" + Dec(n))[1..] == Dec(n);
    ValueOfDec(n);
  }

  // ---- protocol and endpoint words ----

  predicate NamesTcp(w: string) { TrimEndOf(w, ",") == "stream" || TrimEndOf(w, ",") == "tcp" }

  predicate NamesUdp(w: string) { TrimEndOf(w, ",") == "dgram" || TrimEndOf(w, ",") == "udp" }

  lemma {:induction false} ProtocolOfLast(p: Option<u8>, words: seq<string>, i: int)
    requires -1 <= i < |words| && (i >= 0 ==> NamesTcp(words[i]) || NamesUdp(words[i]))
    requires forall j :: i < j < |words| ==> !NamesTcp(words[j]) && !NamesUdp(words[j])
    ensures ProtocolOf(p, words) == if i == -1 then p else Some(if NamesTcp(words[i]) then 6 else 17)
    decreases |words|
  {
    hide TrimEndOf;
    if words != [] {
      assert forall j :: 0 <= j < |words| - 1 ==> words[1..][j] == words[j + 1];
      ProtocolOfLast(ProtocolStep(p, words[0]), words[1..], if i <= 0 then -1 else i - 1);
    }
  }

  /** The protocol of a network line is the one its last socket type or protocol word names. */
  lemma ProtocolIsLastNamed(rest: string, i: int)
    requires var words := Words(rest);
      && -1 <= i < |words| && (i >= 0 ==> NamesTcp(words[i]) || NamesUdp(words[i]))
      && forall j :: i < j < |words| ==> !NamesTcp(words[j]) && !NamesUdp(words[j])
    ensures NetworkOf(rest).protocol ==
            if i == -1 then None else if NamesTcp(Words(rest)[i]) then Some(6) else Some(17)
    ensures NetworkOf(rest).direction == Some(1)
  {
    hide ProtocolOf, Words, EndpointOf, ExtractPeer, TrimEndOf;
    ProtocolOfLast(None, Words(rest), i);
  }

  /** A word that gives the address, its value; one that gives the port, its. */
  function IpWordValue(w: string): Option<string> {
    if "ip=" <= TrimEndOf(w, ",)") then Some(TrimEndOf(w, ",)")[3..]) else None
  }

  function PortWordValue(w: string): Option<string> {
    if "port=" <= TrimEndOf(w, ",)") then Some(TrimEndOf(w, ",)")[5..]) else None
  }

  predicate LastGiving(words: seq<string>, gives: string -> bool, i: int) {
    -1 <= i < |words| && (i >= 0 ==> gives(words[i])) && forall j :: i < j < |words| ==> !gives(words[j])
  }

  lemma NotBothWords(w: string)
    ensures IpWordValue(w).Some? ==> PortWordValue(w).None?
  {
    assert "ip="[0] == 'i' && "port="[0] == 'p';
  }

  lemma {:induction false} EndpointOfLast(e: Endpoint, words: seq<string>, i: int, j: int)
    requires LastGiving(words, w => IpWordValue(w).Some?, i) && LastGiving(words, w => PortWordValue(w).Some?, j)
    ensures EndpointOf(e, words).ip == if i == -1 then e.ip else ParseIpv4(IpWordValue(words[i]).value)
    ensures EndpointOf(e, words).port == if j == -1 then e.port else ParsePort(PortWordValue(words[j]).value)
    decreases |words|
  {
    hide TrimEndOf, ParseIpv4, ParsePort;
    if words != [] {
      NotBothWords(words[0]);
      assert forall l :: 0 <= l < |words| - 1 ==> words[1..][l] == words[l + 1];
      EndpointOfLast(EndpointStep(e, words[0]), words[1..], if i <= 0 then -1 else i - 1, if j <= 0 then -1 else j - 1);
    }
  }

  predicate PeerAt(s: string, i: int) { 0 <= i <= |s| && "peer=(" <= s[i..] }

  /** The peer's text is what stands between the first "peer=(" and the next closing parenthesis. */
  lemma PeerIsFirst(s: string, i: int, inner: string)
    requires PeerAt(s, i) && forall j :: 0 <= j < i ==> !PeerAt(s, j)
    requires ')' !in inner && i + 6 + |inner| < |s| && s[i + 6..i + 6 + |inner|] == inner && s[i + 6 + |inner|] == ')'
    ensures ExtractPeer(s) == Some(inner)
  {
    hide Find;
    FindIsFirst(s, "peer=(", i);
    assert PeerAt(s, Find(s, "peer=("));
    var rest := s[i + 6..];
    assert rest[..|inner|] == inner && rest[|inner|] == ')';
    IndexOfUnique(rest, ')', |inner|);
  }

  /** Without a "peer=(", or without a closing parenthesis after the first one, there is no peer. */
  lemma NoPeer(s: string)
    requires (forall i :: !PeerAt(s, i)) || exists i :: PeerAt(s, i) && (forall j :: 0 <= j < i ==> !PeerAt(s, j)) && ')' !in s[i..]
    ensures ExtractPeer(s) == None
  {
    hide Find;
    var at := Find(s, "peer=(");
    if at != -1 {
      assert PeerAt(s, at);
      var i :| PeerAt(s, i) && (forall j :: 0 <= j < i ==> !PeerAt(s, j)) && ')' !in s[i..];
      FindIsFirst(s, "peer=(", i);
      var rest := s[at + 6..];
      assert ')' !in rest by { NotInRest(s, at); }
      assert rest == rest[..|rest|];
      IndexOfUnique(rest, ')', |rest|);
    }
  }

  lemma NotInRest(s: string, at: nat)
    requires at + 6 <= |s| && ')' !in s[at..]
    ensures ')' !in s[at + 6..]
  {
    assert s[at + 6..] == s[at..][6..];
  }

  /** The endpoint of a network line is that of its peer, when it has one, and its own otherwise: the last
      address and the last port given there. */
  lemma EndpointIsLastGiven(rest: string, i: int, j: int)
    requires var words := Words(match ExtractPeer(rest) case Some(peer) => peer case None => rest);
      LastGiving(words, w => IpWordValue(w).Some?, i) && LastGiving(words, w => PortWordValue(w).Some?, j)
    ensures var words := Words(match ExtractPeer(rest) case Some(peer) => peer case None => rest);
      && NetworkOf(rest).dstIp == (if i == -1 then None else ParseIpv4(IpWordValue(words[i]).value))
      && NetworkOf(rest).dstPort == (if j == -1 then None else ParsePort(PortWordValue(words[j]).value))
  {
    hide Words, EndpointOf, ExtractPeer, IpWordValue, PortWordValue, ParseIpv4, ParsePort, ProtocolOf, LastGiving;
    EndpointOfLast(Endpoint(None, None), Words(match ExtractPeer(rest) case Some(peer) => peer case None => rest), i, j);
  }

  // ---- what is printed ----

  function AddressText(n: NetworkObject): string {
    match (n.dstIp, n.dstPort)
    case (None, None) => ""
    case (Some(ip), None) => "ip=" + Ipv4Dotted(ip)
    case (None, Some(port)) => "port=" + Dec(port)
    case (Some(ip), Some(port)) => "ip=" + Ipv4Dotted(ip) + " " + ("port=" + Dec(port))
  }

  lemma ConditionalIs(n: NetworkObject, isPeer: bool)
    ensures NetConditional(n, isPeer) ==
            if AddressText(n) == "" then "" else if isPeer then "peer=(" + AddressText(n) + ")" else AddressText(n)
    ensures AddressText(n) == "" <==> n.dstIp.None? && n.dstPort.None?
    ensures Parts(n) != [] ==> AddressText(n) == Join(Parts(n), ' ')
  {
    hide Ipv4Dotted, Dec;
    if n.dstIp.Some? && n.dstPort.Some? {
      assert Parts(n)[1..] == PortText(n);
      assert Join(PortText(n), ' ') == "port=" + Dec(n.dstPort.value);
    }
  }

  /** A connection is printed with its peer's address, a listening socket with its own. */
  lemma NetLineIs(r: Rule)
    requires r.obj.Network? && (r.action == NetConnect || r.action == NetBind)
    ensures var n, own := r.obj.net, AddressText(r.obj.net);
      LowerRule(r).line == Some(
        "  " + ((if r.verdict == Deny then "deny " else "")
                + ("network" + (" inet " + (if n.protocol == Some(17) then "dgram" else "stream")
                                + (if own == "" then "" else if r.action == NetConnect then " " + ("peer=(" + own + ")") else " " + own))))
        + ",")
  {
    hide NetConditional, AddressText;
    ConditionalIs(r.obj.net, r.action == NetConnect);
    assert r.action == NetConnect && AddressText(r.obj.net) != "" ==> "peer=(" + AddressText(r.obj.net) + ")" != "";
  }

  // ---- a listening socket read back ----

  lemma {:induction false} NowhereWithout(s: string, pat: string, c: char)
    requires c in pat && c !in s
    ensures Find(s, pat) == -1
  {
    var i :| 0 <= i < |pat| && pat[i] == c;
    assert i < |s| ==> s[i] != pat[i];
    if s != "" {
      NowhereWithout(s[1..], pat, c);
    }
  }

  lemma {:induction false} DecHasNoParen(n: nat)
    ensures '(' !in Dec(n)
  {
    var d := Dec(n);
    assert forall i :: 0 <= i < |d| ==> IsDigitChar(d[i]);
  }

  lemma AddressHasNoParen(n: NetworkObject)
    ensures '(' !in AddressText(n)
  {
    hide Dec;
    forall k: nat ensures '(' !in Dec(k) { DecHasNoParen(k); }
  }

  /** Words that begin with neither letter of a protocol word name none. */
  lemma {:induction false} AddressWordsNameNone(p: Option<u8>, words: seq<string>)
    requires forall i :: 0 <= i < |words| ==> words[i] != "" && (words[i][0] == 'p' || words[i][0] == 'i')
    ensures ProtocolOf(p, words) == p
    decreases |words|
  {
    if words != [] {
      TrimEndKeepsHead(words[0], ",");
      AddressWordsNameNone(p, words[1..]);
    }
  }

  lemma SocketThenParts(st: string, parts: seq<string>)
    requires Socket(st)
    ensures EndpointOf(Endpoint(None, None), ["inet", st] + parts) == EndpointOf(Endpoint(None, None), parts)
  {
    hide EndpointStep, Socket;
    var none, words := Endpoint(None, None), ["inet", st] + parts;
    assert words[1..] == [st] + parts && words[1..][1..] == parts;
    PlainWord(none, "inet");
    PlainWord(none, st);
  }

  /** What follows "network" on a listening socket's line reads back as the same endpoint. */
  lemma OwnAddressRoundTrips(n: NetworkObject)
    requires n.direction == Some(1) && n.protocol in {Some(6), Some(17)} && Parts(n) != []
    ensures NetworkOf(" inet " + SocketType(n) + " " + AddressText(n)) == n
  {
    hide Words, EndpointOf, ProtocolOf, Ipv4Dotted, Dec, RoundTrip.Token, SocketType, Socket, Find, AddressText;
    var st, own := SocketType(n), AddressText(n);
    var rest := " inet " + st + " " + own;
    ConditionalIs(n, false);
    PartsAreTokens(n);
    JoinedWords(Parts(n));
    ProtocolKept(n, []);
    SocketWords(st, own);
    assert ExtractPeer(rest) == None by { NoPeerOfOwn(n, st); }
    SocketThenParts(st, Parts(n));
    PartsRoundTrip(n);
    SocketProtocol(st, Parts(n));
    PartsBegin(n);
    AddressWordsNameNone(n.protocol, Parts(n));
    SocketNames(n);
  }

  lemma SocketNames(n: NetworkObject)
    requires n.protocol in {Some(6), Some(17)}
    ensures Some(if SocketType(n) == "dgram" then 17 else 6) == n.protocol
  {
  }

  lemma PartsBegin(n: NetworkObject)
    ensures forall i :: 0 <= i < |Parts(n)| ==> Parts(n)[i] != "" && (Parts(n)[i][0] == 'p' || Parts(n)[i][0] == 'i')
  {
    hide Ipv4Dotted, Dec;
  }

  lemma NoPeerOfOwn(n: NetworkObject, st: string)
    requires Socket(st)
    ensures ExtractPeer(" inet " + st + " " + AddressText(n)) == None
  {
    hide Find, AddressText;
    AddressHasNoParen(n);
    var rest := " inet " + st + " " + AddressText(n);
    assert '(' !in " inet " + st + " ";
    assert "peer=("[5] == '(';
    NowhereWithout(rest, "peer=(", '(');
  }

  /** A rule for a listening socket is read back as a rule for connecting to the address it listens on. */
  lemma BindReadsAsConnect(r: Rule)
    requires r.obj.Network? && r.action == NetBind && (r.verdict == Allow || r.verdict == Deny)
    requires r.obj.net.direction == Some(1) && r.obj.net.protocol in {Some(6), Some(17)}
    ensures LowerRule(r).line.Some?
    ensures LineItems(LowerRule(r).line.value) == Some([Item(r.obj, NetConnect, r.verdict)])
  {
    hide LineItems, NetworkOf, NetConditional, AddressText, Body;
    var n := r.obj.net;
    ConditionalIs(n, false);
    var own := AddressText(n);
    var tail := " inet " + SocketType(n) + (if own == "" then "" else " " + own);
    var b := NetRuleBody(n, false);
    assert b == "network" + tail && b[7..] == tail;
    if own == "" {
      NetworkRoundTrips(n);
      ConditionalIs(n, true);
    } else {
      assert Parts(n) != [];
      OwnAddressRoundTrips(n);
      assert tail == " inet " + SocketType(n) + " " + own;
    }
    BindBody(n);
    LineOfBody(r.verdict, b);
  }

  lemma EndIsSolid(c: char)
    requires IsDigitChar(c) || c == 'm'
    ensures !IsWs(c) && c != ','
  {
  }

  lemma BindBody(n: NetworkObject)
    ensures Body(NetRuleBody(n, false))
  {
    hide NetConditional, AddressText, IsWs;
    ConditionalIs(n, false);
    AddressEnds(n);
    var own := AddressText(n);
    var tail := " inet " + SocketType(n) + (if own == "" then "" else " " + own);
    var b := NetRuleBody(n, false);
    assert b == "network" + tail && "network" <= b;
    assert b[0] == 'n' && b[|b| - 1] == tail[|tail| - 1];
    assert tail[|tail| - 1] == (if own == "" then 'm' else own[|own| - 1]);
    EndIsSolid(b[|b| - 1]);
    LetterIsSolid();
  }

  lemma LetterIsSolid()
    ensures !IsWs('n')
  {
  }

  lemma AddressEnds(n: NetworkObject)
    ensures var own := AddressText(n); own != "" ==> IsDigitChar(own[|own| - 1])
  {
    hide Dec, Ipv4Dotted;
    if n.dstIp.Some? { DottedIsToken(n.dstIp.value); }
    if n.dstPort.Some? { DecIsToken(n.dstPort.value); }
  }
}

/** Profiles in canonical form, and their way back through the parser. */
module ProfilePrint {
  import opened Basics
  import opened Text
  import opened Profile
  import Decimal

  /** The printed forms of keys (base64, with its padding) and networks. */
  datatype Printers = Printers(key: Key -> string, network: Network -> string)

  /** A value that stands alone on its line. */
  predicate Printable(s: string) { Trimmed(s) && '#' !in s && '\n' !in s }

  /** What the parsers must read back. */
  predicate KeyPrints(k: Key, printers: Printers, parsers: Parsers) {
    Printable(printers.key(k)) && parsers.key(printers.key(k)) == Success(k)
  }

  predicate NetworkPrints(n: Network, printers: Printers, parsers: Parsers) {
    && Printable(printers.network(n)) && ',' !in printers.network(n) && printers.network(n) != ""
    && parsers.network(printers.network(n)) == Some(n)
  }

  function Setting(key: string, value: string): string { key + " = " + value }

  function CommaList(networks: seq<Network>, printers: Printers): string
    requires networks != []
  {
    if |networks| == 1 then printers.network(networks[0])
    else printers.network(networks[0]) + ", " + CommaList(networks[1..], printers)
  }

  predicate NonEmptyGroups(groups: seq<seq<Network>>) {
    forall i :: 0 <= i < |groups| ==> groups[i] != []
  }

  /** One AllowedIPs line for each group. */
  function AllowedLines(groups: seq<seq<Network>>, printers: Printers): seq<string>
    requires NonEmptyGroups(groups)
  {
    if groups == [] then []
    else [Setting("AllowedIPs", CommaList(groups[0], printers))] + AllowedLines(groups[1..], printers)
  }

  function Flatten(groups: seq<seq<Network>>): seq<Network> {
    if groups == [] then [] else groups[0] + Flatten(groups[1..])
  }

  function InterfaceLines(p: WireGuardProfile, printers: Printers): seq<string> {
    ["[Interface]", Setting("PrivateKey", printers.key(p.privateKey)), Setting("Address", printers.network(V4(p.address)))]
  }

  function PeerLines(p: WireGuardProfile, printers: Printers): seq<string> {
    ["[Peer]", Setting("PublicKey", printers.key(p.peerPublicKey)), Setting("Endpoint", p.endpoint)]
  }

  function OptionalLines(p: WireGuardProfile, printers: Printers): seq<string> {
    (if p.presharedKey.Some? then [Setting("PresharedKey", printers.key(p.presharedKey.value))] else [])
    + (if p.persistentKeepalive.Some? then [Setting("PersistentKeepalive", Decimal.Print(p.persistentKeepalive.value))] else [])
  }

  /** A profile, its allowed networks spread over `groups`. */
  function CanonicalLines(p: WireGuardProfile, groups: seq<seq<Network>>, printers: Printers): seq<string>
    requires NonEmptyGroups(groups)
  {
    InterfaceLines(p, printers) + (PeerLines(p, printers) + (OptionalLines(p, printers) + AllowedLines(groups, printers)))
  }

  function Unlines(lines: seq<string>): string {
    if lines == [] then "" else lines[0] + "\n" + Unlines(lines[1..])
  }

  /** Everything the profile holds can be printed and read back. */
  predicate Prints(p: WireGuardProfile, printers: Printers, parsers: Parsers) {
    && KeyPrints(p.privateKey, printers, parsers) && KeyPrints(p.peerPublicKey, printers, parsers)
    && (p.presharedKey.Some? ==> KeyPrints(p.presharedKey.value, printers, parsers))
    && NetworkPrints(V4(p.address), printers, parsers)
    && (forall i :: 0 <= i < |p.allowedIps| ==> NetworkPrints(p.allowedIps[i], printers, parsers))
    && Printable(p.endpoint)
    && (p.persistentKeepalive.Some? ==> p.persistentKeepalive.value <= U16_MAX)
    && p.allowedIps != []
  }

  // ---------------------------------------------------------------------------------------
  // One line
  // ---------------------------------------------------------------------------------------

  /** The name of a field. */
  predicate IsName(key: string) {
    key != "" && Trimmed(key) && '#' !in key && '=' !in key && '\n' !in key && key[0] != '['
  }

  lemma ContentOf(line: string)
    requires '#' !in line
    ensures Content(line) == Trim(line)
  {
    LacksChar(line, "#", 0);
  }

  /** A setting without the whitespace at its end, which is there if the value is empty. */
  function Tight(key: string, value: string): string {
    key + " " + ['='] + if value == "" then "" else " " + value
  }

  lemma SettingIsTight(key: string, value: string)
    ensures Setting(key, value) == Tight(key, value) + if value == "" then " " else ""
  {
    assert " = " == " " + ['='] + " ";
    if value == "" {
      assert Setting(key, value) == key + " = ";
    } else {
      assert Tight(key, value) == key + " " + ['='] + (" " + value);
    }
  }

  lemma ContentOfSetting(key: string, value: string)
    requires IsName(key) && Printable(value)
    ensures Content(Setting(key, value)) == Tight(key, value)
  {
    var line, pad := Tight(key, value), if value == "" then " " else "";
    assert '#' !in Setting(key, value);
    assert line[0] == key[0] && line[|line| - 1] == if value == "" then '=' else value[|value| - 1];
    assert Trimmed(line) && Blank(pad);
    hide Trim, Trimmed, Blank, Content;
    ContentOf(Setting(key, value));
    SettingIsTight(key, value);
    assert "" + line + pad == line + pad;
    TrimPart("", line, pad, Setting(key, value));
  }

  /** A value may hold further equals signs: the first one ends the key. */
  lemma SettingSplits(key: string, value: string)
    requires IsName(key) && Printable(value)
    ensures var pair := SplitOnce(Content(Setting(key, value)), "=");
      pair.Some? && Trim(pair.value.0) == key && Trim(pair.value.1) == value
    ensures Content(Setting(key, value)) != "" && Content(Setting(key, value))[0] == key[0]
  {
    ContentOfSetting(key, value);
    var right := if value == "" then "" else " " + value;
    hide Trim, Trimmed, Content, Setting, SplitOnce;
    TrimPart("", key, " ", key + " ");
    TrimPart(if value == "" then "" else " ", value, "", right);
    SplitOnceAtChar(key + " ", '=', right);
  }

  lemma StepOfSetting(d: Draft, key: string, value: string, n: nat, parsers: Parsers)
    requires IsName(key) && Printable(value)
    ensures Step(d, Setting(key, value), n, parsers) == Assign(d, key, value, parsers)
  {
    SettingSplits(key, value);
    hide Content, Setting, SplitOnce, Trim, Assign;
    assert "[Interface]"[0] == '[' && "[Peer]"[0] == '[';
  }

  // ---------------------------------------------------------------------------------------
  // Networks
  // ---------------------------------------------------------------------------------------

  predicate AllPrint(networks: seq<Network>, printers: Printers, parsers: Parsers) {
    forall i :: 0 <= i < |networks| ==> NetworkPrints(networks[i], printers, parsers)
  }

  lemma NetworksCons(first: string, rest: seq<string>, parsers: Parsers, n: Network, ns: seq<Network>)
    requires parsers.network(Trim(first)) == Some(n) && Networks(rest, parsers) == Success(ns)
    ensures Networks([first] + rest, parsers) == Success([n] + ns)
  {
    assert ([first] + rest)[1..] == rest;
  }

  /** A printed list, with the padding a preceding comma leaves, is read back in order. */
  lemma {:induction false} ListRoundTrip(pad: string, networks: seq<Network>, printers: Printers, parsers: Parsers)
    requires (pad == "" || pad == " ") && networks != [] && AllPrint(networks, printers, parsers)
    ensures Networks(Pieces(pad + CommaList(networks, printers), ','), parsers) == Success(networks)
    decreases |networks|
  {
    var first := printers.network(networks[0]);
    assert NetworkPrints(networks[0], printers, parsers);
    TrimPart(pad, first, "", pad + first);
    hide Trim, Trimmed, Pieces, Networks, Blank;
    if |networks| == 1 {
      OnePiece(pad + first, ',');
      NoNetworks(parsers);
      NetworksCons(pad + first, [], parsers, networks[0], []);
      assert [pad + first] + [] == [pad + first] && [networks[0]] + [] == networks;
    } else {
      var more := CommaList(networks[1..], printers);
      ListRoundTrip(" ", networks[1..], printers, parsers);
      assert CommaList(networks, printers) == first + ", " + more;
      ListTail(pad, first, more);
      PiecesCons(pad + first, ',', " " + more);
      NetworksCons(pad + first, Pieces(" " + more, ','), parsers, networks[0], networks[1..]);
      assert [networks[0]] + networks[1..] == networks;
    }
  }

  lemma ListTail(pad: string, first: string, more: string)
    ensures pad + (first + ", " + more) == pad + first + "," + (" " + more)
  {}

  lemma NoNetworks(parsers: Parsers)
    ensures Networks([], parsers) == Success([])
  {}

  lemma {:induction false} ListIsPrintable(networks: seq<Network>, printers: Printers, parsers: Parsers)
    requires networks != [] && AllPrint(networks, printers, parsers)
    ensures Printable(CommaList(networks, printers)) && CommaList(networks, printers) != ""
    decreases |networks|
  {
    assert NetworkPrints(networks[0], printers, parsers);
    if |networks| > 1 {
      var first, more := printers.network(networks[0]), CommaList(networks[1..], printers);
      ListIsPrintable(networks[1..], printers, parsers);
      var s := first + ", " + more;
      assert s[0] == first[0] && s[|s| - 1] == more[|more| - 1];
    }
  }

  /** Reading one printed network of an address line. */
  lemma AddressRoundTrip(network: Ipv4Network, printers: Printers, parsers: Parsers)
    requires NetworkPrints(V4(network), printers, parsers)
    ensures FirstIpv4(Pieces(printers.network(V4(network)), ','), parsers) == Some(network)
  {
    OnePiece(printers.network(V4(network)), ',');
    TrimIdentity(printers.network(V4(network)));
    hide Trim, Pieces;
  }

  // ---------------------------------------------------------------------------------------
  // The parts of a file
  // ---------------------------------------------------------------------------------------

  lemma FoldCons(d: Draft, l: string, rest: seq<string>, n: nat, parsers: Parsers)
    requires Step(d, l, n, parsers).Success?
    ensures Fold(d, [l] + rest, n, parsers) == Fold(Step(d, l, n, parsers).value, rest, n + 1, parsers)
  {
    hide Step;
    assert ([l] + rest)[1..] == rest;
  }

  lemma {:induction false} FoldAppend(d: Draft, xs: seq<string>, ys: seq<string>, n: nat, parsers: Parsers)
    requires Fold(d, xs, n, parsers).Success?
    ensures Fold(d, xs + ys, n, parsers) == Fold(Fold(d, xs, n, parsers).value, ys, n + |xs|, parsers)
    decreases |xs|
  {
    hide Step;
    if xs == [] {
      assert xs + ys == ys;
    } else {
      assert (xs + ys)[1..] == xs[1..] + ys;
      FoldAppend(Step(d, xs[0], n, parsers).value, xs[1..], ys, n + 1, parsers);
    }
  }

  lemma OnlyLine(d: Draft, l: string, n: nat, parsers: Parsers)
    ensures Fold(d, [l], n, parsers) == Step(d, l, n, parsers)
  {
    hide Step;
    assert [l][1..] == [];
  }

  lemma HeaderSteps(d: Draft, n: nat, parsers: Parsers)
    ensures Step(d, "[Interface]", n, parsers) == Success(d.(section := Interface))
    ensures d.peerPublicKey.None? ==> Step(d, "[Peer]", n, parsers) == Success(d.(section := Peer))
  {
    hide Content, Trim, SplitOnce, Assign;
    ContentOf("[Interface]");
    ContentOf("[Peer]");
    TrimIdentity("[Interface]");
    TrimIdentity("[Peer]");
  }

  lemma InterfaceNames()
    ensures IsName("PrivateKey") && IsName("Address")
  {}

  lemma PeerNames()
    ensures IsName("PublicKey") && IsName("Endpoint") && IsName("AllowedIPs")
  {}

  lemma OptionalNames()
    ensures IsName("PresharedKey") && IsName("PersistentKeepalive")
  {}

  lemma InterfacePart(p: WireGuardProfile, n: nat, printers: Printers, parsers: Parsers)
    requires KeyPrints(p.privateKey, printers, parsers) && NetworkPrints(V4(p.address), printers, parsers)
    ensures Fold(EMPTY, InterfaceLines(p, printers), n, parsers)
         == Success(EMPTY.(section := Interface, privateKey := Some(p.privateKey), address := Some(p.address)))
  {
    var key, address := printers.key(p.privateKey), printers.network(V4(p.address));
    InterfaceNames();
    HeaderSteps(EMPTY, n, parsers);
    var d1 := EMPTY.(section := Interface);
    StepOfSetting(d1, "PrivateKey", key, n + 1, parsers);
    var d2 := d1.(privateKey := Some(p.privateKey));
    StepOfSetting(d2, "Address", address, n + 2, parsers);
    AddressRoundTrip(p.address, printers, parsers);
    hide Step, IsName, Trimmed, Setting, FirstIpv4, Pieces;
    FoldCons(EMPTY, "[Interface]", [Setting("PrivateKey", key), Setting("Address", address)], n, parsers);
    FoldCons(d1, Setting("PrivateKey", key), [Setting("Address", address)], n + 1, parsers);
    FoldCons(d2, Setting("Address", address), [], n + 2, parsers);
    assert ["[Interface]"] + [Setting("PrivateKey", key), Setting("Address", address)] == InterfaceLines(p, printers);
    assert [Setting("PrivateKey", key)] + [Setting("Address", address)] == [Setting("PrivateKey", key), Setting("Address", address)];
    assert [Setting("Address", address)] + [] == [Setting("Address", address)];
  }

  lemma PublicKeyStep(d: Draft, k: Key, n: nat, printers: Printers, parsers: Parsers)
    requires d.section.Peer? && KeyPrints(k, printers, parsers)
    ensures Step(d, Setting("PublicKey", printers.key(k)), n, parsers) == Success(d.(peerPublicKey := Some(k)))
  {
    PeerNames();
    hide Step, IsName, Trimmed, Setting;
    StepOfSetting(d, "PublicKey", printers.key(k), n, parsers);
  }

  lemma EndpointStep(d: Draft, endpoint: string, n: nat, parsers: Parsers)
    requires d.section.Peer? && Printable(endpoint)
    ensures Step(d, Setting("Endpoint", endpoint), n, parsers) == Success(d.(endpoint := Some(endpoint)))
  {
    PeerNames();
    hide Step, IsName, Trimmed, Setting, Printable;
    StepOfSetting(d, "Endpoint", endpoint, n, parsers);
  }

  lemma PeerPart(d: Draft, p: WireGuardProfile, n: nat, printers: Printers, parsers: Parsers)
    requires d.peerPublicKey.None? && KeyPrints(p.peerPublicKey, printers, parsers) && Printable(p.endpoint)
    ensures Fold(d, PeerLines(p, printers), n, parsers)
         == Success(d.(section := Peer, peerPublicKey := Some(p.peerPublicKey), endpoint := Some(p.endpoint)))
  {
    var key := printers.key(p.peerPublicKey);
    HeaderSteps(d, n, parsers);
    var d1 := d.(section := Peer);
    var d2 := d1.(peerPublicKey := Some(p.peerPublicKey));
    hide Step, Setting, KeyPrints, Printable;
    PublicKeyStep(d1, p.peerPublicKey, n + 1, printers, parsers);
    EndpointStep(d2, p.endpoint, n + 2, parsers);
    FoldCons(d, "[Peer]", [Setting("PublicKey", key), Setting("Endpoint", p.endpoint)], n, parsers);
    FoldCons(d1, Setting("PublicKey", key), [Setting("Endpoint", p.endpoint)], n + 1, parsers);
    OnlyLine(d2, Setting("Endpoint", p.endpoint), n + 2, parsers);
    assert ["[Peer]"] + [Setting("PublicKey", key), Setting("Endpoint", p.endpoint)] == PeerLines(p, printers);
    assert [Setting("PublicKey", key)] + [Setting("Endpoint", p.endpoint)] == [Setting("PublicKey", key), Setting("Endpoint", p.endpoint)];
  }

  lemma KeepaliveRoundTrip(value: nat)
    requires value <= U16_MAX
    ensures Printable(Decimal.Print(value)) && Decimal.Parse(Decimal.Print(value), U16_MAX) == Some(value)
  {
    Decimal.PrintIsNumeral(value);
    Decimal.PrintParse(value, U16_MAX);
  }

  lemma OptionalPart(d: Draft, p: WireGuardProfile, n: nat, printers: Printers, parsers: Parsers)
    requires d.section.Peer? && d.presharedKey.None? && d.persistentKeepalive.None?
    requires p.presharedKey.Some? ==> KeyPrints(p.presharedKey.value, printers, parsers)
    requires p.persistentKeepalive.Some? ==> p.persistentKeepalive.value <= U16_MAX
    ensures Fold(d, OptionalLines(p, printers), n, parsers)
         == Success(d.(presharedKey := p.presharedKey, persistentKeepalive := p.persistentKeepalive))
  {
    OptionalNames();
    var d1 := d.(presharedKey := p.presharedKey);
    var first := if p.presharedKey.Some? then [Setting("PresharedKey", printers.key(p.presharedKey.value))] else [];
    hide IsName, Trimmed, Setting, Decimal.Print, Decimal.Parse;
    if p.presharedKey.Some? {
      StepOfSetting(d, "PresharedKey", printers.key(p.presharedKey.value), n, parsers);
      OnlyLine(d, first[0], n, parsers);
    }
    if p.persistentKeepalive.Some? {
      var value := p.persistentKeepalive.value;
      KeepaliveRoundTrip(value);
      StepOfSetting(d1, "PersistentKeepalive", Decimal.Print(value), n + |first|, parsers);
      OnlyLine(d1, Setting("PersistentKeepalive", Decimal.Print(value)), n + |first|, parsers);
    }
    hide Step;
    assert Fold(d, first, n, parsers) == Success(d1);
    FoldAppend(d, first, OptionalLines(p, printers)[|first|..], n, parsers);
    assert first + OptionalLines(p, printers)[|first|..] == OptionalLines(p, printers);
  }

  lemma AllowedStep(d: Draft, group: seq<Network>, n: nat, printers: Printers, parsers: Parsers)
    requires d.section.Peer? && group != [] && AllPrint(group, printers, parsers)
    ensures Step(d, Setting("AllowedIPs", CommaList(group, printers)), n, parsers)
         == Success(d.(allowedIps := d.allowedIps + group))
  {
    var list := CommaList(group, printers);
    PeerNames();
    hide Step, IsName, Trimmed, Setting, Networks, Pieces, CommaList, AllPrint;
    ListIsPrintable(group, printers, parsers);
    StepOfSetting(d, "AllowedIPs", list, n, parsers);
    ListRoundTrip("", group, printers, parsers);
    assert "" + list == list;
  }

  lemma AllowedCons(d: Draft, group: seq<Network>, rest: seq<string>, n: nat, printers: Printers, parsers: Parsers)
    requires d.section.Peer? && group != [] && AllPrint(group, printers, parsers)
    ensures Fold(d, [Setting("AllowedIPs", CommaList(group, printers))] + rest, n, parsers)
         == Fold(d.(allowedIps := d.allowedIps + group), rest, n + 1, parsers)
  {
    hide Step, Setting, CommaList, AllPrint, Fold;
    AllowedStep(d, group, n, printers, parsers);
    FoldCons(d, Setting("AllowedIPs", CommaList(group, printers)), rest, n, parsers);
  }

  lemma NoLines(d: Draft, n: nat, parsers: Parsers)
    ensures Fold(d, [], n, parsers) == Success(d)
  {}

  /** The groups are concatenated in order. */
  lemma {:induction false} AllowedPart(d: Draft, groups: seq<seq<Network>>, n: nat, printers: Printers, parsers: Parsers)
    requires d.section.Peer? && NonEmptyGroups(groups)
    requires forall i :: 0 <= i < |groups| ==> AllPrint(groups[i], printers, parsers)
    ensures Fold(d, AllowedLines(groups, printers), n, parsers) == Success(d.(allowedIps := d.allowedIps + Flatten(groups)))
    decreases |groups|
  {
    hide Setting, CommaList, AllPrint, Fold;
    if groups == [] {
      NoLines(d, n, parsers);
      assert d.allowedIps + [] == d.allowedIps;
    } else {
      var rest, more := groups[1..], Flatten(groups[1..]);
      AllowedCons(d, groups[0], AllowedLines(rest, printers), n, printers, parsers);
      AllowedPart(d.(allowedIps := d.allowedIps + groups[0]), rest, n + 1, printers, parsers);
      assert d.allowedIps + groups[0] + more == d.allowedIps + (groups[0] + more);
    }
  }

  lemma {:induction false} FlattenedPrint(groups: seq<seq<Network>>, printers: Printers, parsers: Parsers)
    requires AllPrint(Flatten(groups), printers, parsers)
    ensures forall i :: 0 <= i < |groups| ==> AllPrint(groups[i], printers, parsers)
  {
    if groups != [] {
      var all := Flatten(groups);
      assert AllPrint(groups[0], printers, parsers) by {
        assert forall i :: 0 <= i < |groups[0]| ==> all[i] == groups[0][i];
      }
      assert AllPrint(Flatten(groups[1..]), printers, parsers) by {
        assert forall i :: 0 <= i < |Flatten(groups[1..])| ==> all[|groups[0]| + i] == Flatten(groups[1..])[i];
      }
      FlattenedPrint(groups[1..], printers, parsers);
    }
  }

  /** The lines of a profile are read back as the profile, however its networks are grouped. */
  lemma LinesRoundTrip(p: WireGuardProfile, groups: seq<seq<Network>>, printers: Printers, parsers: Parsers)
    requires Prints(p, printers, parsers) && NonEmptyGroups(groups) && Flatten(groups) == p.allowedIps
    ensures ParseLines(CanonicalLines(p, groups, printers), parsers) == Success(p)
  {
    hide KeyPrints, NetworkPrints, Printable, InterfaceLines, PeerLines, OptionalLines, AllowedLines, Fold;
    var d1 := EMPTY.(section := Interface, privateKey := Some(p.privateKey), address := Some(p.address));
    var d2 := d1.(section := Peer, peerPublicKey := Some(p.peerPublicKey), endpoint := Some(p.endpoint));
    var d3 := d2.(presharedKey := p.presharedKey, persistentKeepalive := p.persistentKeepalive);
    var xs, ys, zs := InterfaceLines(p, printers), PeerLines(p, printers), OptionalLines(p, printers);
    var ws := AllowedLines(groups, printers);
    InterfacePart(p, 1, printers, parsers);
    FoldAppend(EMPTY, xs, ys + (zs + ws), 1, parsers);
    PeerPart(d1, p, 1 + |xs|, printers, parsers);
    FoldAppend(d1, ys, zs + ws, 1 + |xs|, parsers);
    OptionalPart(d2, p, 1 + |xs| + |ys|, printers, parsers);
    FoldAppend(d2, zs, ws, 1 + |xs| + |ys|, parsers);
    FlattenedPrint(groups, printers, parsers);
    AllowedPart(d3, groups, 1 + |xs| + |ys| + |zs|, printers, parsers);
    assert [] + p.allowedIps == p.allowedIps;
  }

  // ---------------------------------------------------------------------------------------
  // The text
  // ---------------------------------------------------------------------------------------

  /** A profile in the same file as Waker's settings is read back, wherever those lines stand. */
  lemma CombinedRoundTrip(text: string, p: WireGuardProfile, groups: seq<seq<Network>>, printers: Printers, parsers: Parsers)
    requires Prints(p, printers, parsers) && NonEmptyGroups(groups) && Flatten(groups) == p.allowedIps
    requires Filter(Lines(text), Other) == CanonicalLines(p, groups, printers)
    ensures Parse(text, parsers) == Success(p)
  {
    hide Prints, Lines, ParseLines, Recognised, Other, CanonicalLines;
    LinesRoundTrip(p, groups, printers, parsers);
    ParsePassesOver(Lines(text), parsers);
  }

  predicate WholeLine(l: string) { '\n' !in l && StripCr(l) == l }

  lemma {:induction false} UnlinesLines(lines: seq<string>)
    requires forall i :: 0 <= i < |lines| ==> WholeLine(lines[i])
    ensures Lines(Unlines(lines)) == lines
  {
    if lines != [] {
      UnlinesLines(lines[1..]);
      assert WholeLine(lines[0]);
      LinesLf(lines[0], Unlines(lines[1..]));
      assert lines == [lines[0]] + lines[1..];
    }
  }

  /** A line of the profile's own: the settings parser does not use it. */
  predicate Own(l: string) { WholeLine(l) && Other(l) }

  predicate AllOwn(lines: seq<string>) { forall i :: 0 <= i < |lines| ==> Own(lines[i]) }

  predicate IsProfileKey(key: string) {
    key in ["PrivateKey", "Address", "PublicKey", "Endpoint", "PresharedKey", "PersistentKeepalive", "AllowedIPs"]
  }

  lemma SettingIsWhole(key: string, value: string)
    requires IsName(key) && Printable(value)
    ensures WholeLine(Setting(key, value))
  {
    var l := Setting(key, value);
    assert value != "" ==> l[|l| - 1] == value[|value| - 1];
    assert value == "" ==> l[|l| - 1] == ' ';
  }

  lemma SettingIsOwn(key: string, value: string)
    requires IsName(key) && IsProfileKey(key) && Printable(value)
    ensures Own(Setting(key, value))
  {
    SettingIsWhole(key, value);
    SettingSplits(key, value);
    ProfileKeysAreNotSettings();
    hide Setting, Content, SplitOnce, Trim, Lower, WholeLine, IsSettingsName;
  }

  lemma HeadersAreWhole()
    ensures WholeLine("[Interface]") && WholeLine("[Peer]")
  {}

  lemma HeadersAreOwn()
    ensures Own("[Interface]") && Own("[Peer]")
  {
    HeadersAreWhole();
    hide Content, Trim, SplitOnce, WholeLine, Lower;
    ContentOf("[Interface]");
    ContentOf("[Peer]");
    TrimIdentity("[Interface]");
    TrimIdentity("[Peer]");
    NoEqualsInHeaders();
  }

  lemma {:induction false} AllowedLinesAreOwn(groups: seq<seq<Network>>, printers: Printers, parsers: Parsers)
    requires NonEmptyGroups(groups) && forall i :: 0 <= i < |groups| ==> AllPrint(groups[i], printers, parsers)
    ensures AllOwn(AllowedLines(groups, printers))
  {
    if groups != [] {
      PeerNames();
      ListIsPrintable(groups[0], printers, parsers);
      SettingIsOwn("AllowedIPs", CommaList(groups[0], printers));
      hide Own, Setting, CommaList, AllPrint, IsName, Printable;
      AllowedLinesAreOwn(groups[1..], printers, parsers);
    }
  }

  lemma CanonicalLinesAreOwn(p: WireGuardProfile, groups: seq<seq<Network>>, printers: Printers, parsers: Parsers)
    requires Prints(p, printers, parsers) && NonEmptyGroups(groups) && Flatten(groups) == p.allowedIps
    ensures AllOwn(CanonicalLines(p, groups, printers))
  {
    InterfaceNames();
    PeerNames();
    OptionalNames();
    HeadersAreOwn();
    hide IsName, Own, Setting, Trimmed, Decimal.Print, Decimal.Parse, AllowedLines;
    SettingIsOwn("PrivateKey", printers.key(p.privateKey));
    SettingIsOwn("Address", printers.network(V4(p.address)));
    SettingIsOwn("PublicKey", printers.key(p.peerPublicKey));
    SettingIsOwn("Endpoint", p.endpoint);
    if p.presharedKey.Some? {
      SettingIsOwn("PresharedKey", printers.key(p.presharedKey.value));
    }
    if p.persistentKeepalive.Some? {
      KeepaliveRoundTrip(p.persistentKeepalive.value);
      SettingIsOwn("PersistentKeepalive", Decimal.Print(p.persistentKeepalive.value));
    }
    FlattenedPrint(groups, printers, parsers);
    AllowedLinesAreOwn(groups, printers, parsers);
    assert AllOwn(OptionalLines(p, printers));
  }

  lemma {:induction false} FilterAppend(xs: seq<string>, ys: seq<string>, keep: string -> bool)
    requires forall i :: 0 <= i < |xs| ==> keep(xs[i])
    requires forall i :: 0 <= i < |ys| ==> !keep(ys[i])
    ensures Filter(xs + ys, keep) == xs
  {
    if xs != [] {
      FilterAppend(xs[1..], ys, keep);
      assert (xs + ys)[1..] == xs[1..] + ys;
      assert [xs[0]] + xs[1..] == xs;
    } else if ys != [] {
      FilterAppend([], ys[1..], keep);
      assert (xs + ys)[1..] == [] + ys[1..];
    }
  }

  lemma {:induction false} SettingsPassOver(s: Settings, xs: seq<string>, ys: seq<string>)
    requires AllOwn(xs)
    ensures SettingsFold(s, xs + ys) == SettingsFold(s, ys)
    decreases |xs|
  {
    hide SettingsStep, WholeLine, Recognised;
    if xs == [] {
      assert xs + ys == ys;
    } else {
      assert Own(xs[0]);
      UnrecognisedLineIsPassedOver(s, xs[0]);
      assert (xs + ys)[1..] == xs[1..] + ys;
      SettingsPassOver(s, xs[1..], ys);
    }
  }

  lemma SettingsNames()
    ensures IsName("WakerFritzIP") && Lower("WakerFritzIP") == "wakerfritzip"
    ensures IsName("WakerPCMAC") && Lower("WakerPCMAC") == "wakerpcmac"
  {}

  lemma FritzIpStep(s: Settings, value: string)
    requires Printable(value)
    ensures SettingsStep(s, Setting("WakerFritzIP", value)) == s.(fritzIp := Some(value))
    ensures Recognised(Setting("WakerFritzIP", value)) && WholeLine(Setting("WakerFritzIP", value))
  {
    SettingsNames();
    hide Setting, Content, SplitOnce, Trim, Lower, WholeLine, IsName, Printable;
    SettingSplits("WakerFritzIP", value);
    SettingIsWhole("WakerFritzIP", value);
  }

  lemma PcMacStep(s: Settings, value: string)
    requires Printable(value)
    ensures SettingsStep(s, Setting("WakerPCMAC", value)) == s.(pcMac := Some(value))
    ensures Recognised(Setting("WakerPCMAC", value)) && WholeLine(Setting("WakerPCMAC", value))
  {
    SettingsNames();
    hide Setting, Content, SplitOnce, Trim, Lower, WholeLine, IsName, Printable;
    SettingSplits("WakerPCMAC", value);
    SettingIsWhole("WakerPCMAC", value);
    assert "wakerfritzip" != "wakerpcmac" by {
      assert "wakerfritzip"[5] != "wakerpcmac"[5];
    }
  }

  lemma SettingsLines(fritzIp: string, pcMac: string)
    requires Printable(fritzIp) && Printable(pcMac)
    ensures var lines := [Setting("WakerFritzIP", fritzIp), Setting("WakerPCMAC", pcMac)];
      && SettingsFold(DEFAULT, lines) == Settings(Some(fritzIp), Some(pcMac))
      && forall i :: 0 <= i < |lines| ==> Recognised(lines[i]) && WholeLine(lines[i])
  {
    hide Setting, SettingsStep, Recognised, WholeLine, Printable;
    FritzIpStep(DEFAULT, fritzIp);
    PcMacStep(DEFAULT.(fritzIp := Some(fritzIp)), pcMac);
    var lines := [Setting("WakerFritzIP", fritzIp), Setting("WakerPCMAC", pcMac)];
    var second := [lines[1]];
    assert lines[1..] == second && second[1..] == [];
    assert SettingsFold(DEFAULT.(fritzIp := Some(fritzIp)), second) == SettingsFold(Settings(Some(fritzIp), Some(pcMac)), []);
  }

  /** One file for both programs: a printed profile followed by Waker's settings gives the
      profile to one parser - keys with their padding, all networks in order - and the settings
      to the other. */
  lemma OneFileRoundTrip(p: WireGuardProfile, groups: seq<seq<Network>>, fritzIp: string, pcMac: string,
                         printers: Printers, parsers: Parsers)
    requires Prints(p, printers, parsers) && NonEmptyGroups(groups) && Flatten(groups) == p.allowedIps
    requires Printable(fritzIp) && Printable(pcMac)
    ensures var text := Unlines(CanonicalLines(p, groups, printers)
                                + [Setting("WakerFritzIP", fritzIp), Setting("WakerPCMAC", pcMac)]);
      && Parse(text, parsers) == Success(p)
      && ParseSettings(text) == Settings(Some(fritzIp), Some(pcMac))
  {
    CanonicalLinesAreOwn(p, groups, printers, parsers);
    SettingsLines(fritzIp, pcMac);
    var xs, ys := CanonicalLines(p, groups, printers), [Setting("WakerFritzIP", fritzIp), Setting("WakerPCMAC", pcMac)];
    hide CanonicalLines, Setting, Prints, Printable, Recognised, WholeLine, Parse, Unlines, Lines, SettingsFold;
    UnlinesLines(xs + ys);
    FilterAppend(xs, ys, Other);
    CombinedRoundTrip(Unlines(xs + ys), p, groups, printers, parsers);
    SettingsPassOver(DEFAULT, xs, ys);
  }
}

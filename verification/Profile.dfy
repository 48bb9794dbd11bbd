/** The WireGuard profile file, and the Waker settings that live in the same file. Key decoding
    and network parsing are parameters. */
module Profile {
  import opened Basics
  import opened Text
  import Decimal

  type Key = seq<Octet>

  datatype Ipv4Network = Ipv4Network(address: Ipv4, prefix: nat)

  datatype Network = V4(network: Ipv4Network) | V6(groups: seq<nat>, prefix: nat)

  /** `parse_key` and `IpNetwork::from_str`. */
  datatype Parsers = Parsers(key: string -> Result<Key, string>, network: string -> Option<Network>)

  datatype WireGuardProfile = WireGuardProfile(
    address: Ipv4Network,
    privateKey: Key,
    peerPublicKey: Key,
    presharedKey: Option<Key>,
    endpoint: string,
    allowedIps: seq<Network>,
    persistentKeepalive: Option<nat>)

  datatype ConfigError =
    | MultiplePeers
    | InvalidLine(number: nat)
    | InvalidKey(detail: string)
    | InvalidAllowedIp(entry: string)
    | InvalidKeepalive
    | NoAddress
    | NoPrivateKey
    | NoPeerPublicKey
    | NoEndpoint
    | NoAllowedIps

  datatype Section = NoSection | Interface | Peer

  /** The local variables of `parse`. */
  datatype Draft = Draft(
    section: Section,
    address: Option<Ipv4Network>,
    privateKey: Option<Key>,
    peerPublicKey: Option<Key>,
    presharedKey: Option<Key>,
    endpoint: Option<string>,
    allowedIps: seq<Network>,
    persistentKeepalive: Option<nat>)

  const EMPTY: Draft := Draft(NoSection, None, None, None, None, None, [], None)

  // ---------------------------------------------------------------------------------------
  // One line
  // ---------------------------------------------------------------------------------------

  function BeforeHash(raw: string): string {
    match Find(raw, "#") case Some(k) => raw[..k] case None => raw
  }

  /** A line without its comment and the whitespace around it. */
  function Content(raw: string): string { Trim(BeforeHash(raw)) }

  /** A comment goes from the first hash sign to the end of the line, and is no content. */
  lemma CommentIsNoContent(line: string, comment: string)
    requires '#' !in line
    ensures Content(line + "#" + comment) == Content(line) == Trim(line)
  {
    SkipWithoutFirst(line, "#" + comment, "#");
    FindHere("#", comment);
    LacksChar(line, "#", 0);
    assert line + ("#" + comment) == line + "#" + comment;
    assert (line + "#" + comment)[..|line|] == line;
    hide Trim, Find;
  }

  /** So any line has the content it has with a comment behind it. */
  lemma CommentsAreCut(line: string, comment: string)
    ensures Content(line + "#" + comment) == Content(line)
  {
    if '#' !in line {
      CommentIsNoContent(line, comment);
    } else {
      var k := FirstOf(line, '#');
      assert line == line[..k] + "#" + line[k + 1..];
      assert line + "#" + comment == line[..k] + "#" + (line[k + 1..] + "#" + comment);
      hide Content;
      CommentIsNoContent(line[..k], line[k + 1..]);
      CommentIsNoContent(line[..k], line[k + 1..] + "#" + comment);
    }
  }

  /** The first piece that is an IPv4 network. */
  function FirstIpv4(pieces: seq<string>, parsers: Parsers): Option<Ipv4Network> {
    if pieces == [] then None
    else
      var network := parsers.network(Trim(pieces[0]));
      if network.Some? && network.value.V4? then Some(network.value.network) else FirstIpv4(pieces[1..], parsers)
  }

  /** All pieces as networks, or the first that is none. */
  function Networks(pieces: seq<string>, parsers: Parsers): Result<seq<Network>, ConfigError> {
    if pieces == [] then Success([])
    else
      match parsers.network(Trim(pieces[0]))
      case None => Failure(InvalidAllowedIp(Trim(pieces[0])))
      case Some(network) =>
        match Networks(pieces[1..], parsers)
        case Failure(e) => Failure(e)
        case Success(rest) => Success([network] + rest)
  }

  /** An assignment in the current section; what is not needed is ignored. */
  function Assign(d: Draft, key: string, value: string, parsers: Parsers): Result<Draft, ConfigError> {
    if d.section.Interface? && key == "Address" then
      var found := FirstIpv4(Pieces(value, ','), parsers);
      Success(if found.Some? then d.(address := found) else d)
    else if d.section.Interface? && key == "PrivateKey" then
      match parsers.key(value)
      case Failure(e) => Failure(InvalidKey(e))
      case Success(k) => Success(d.(privateKey := Some(k)))
    else if d.section.Peer? && key == "PublicKey" then
      match parsers.key(value)
      case Failure(e) => Failure(InvalidKey(e))
      case Success(k) => Success(d.(peerPublicKey := Some(k)))
    else if d.section.Peer? && key == "PresharedKey" then
      match parsers.key(value)
      case Failure(e) => Failure(InvalidKey(e))
      case Success(k) => Success(d.(presharedKey := Some(k)))
    else if d.section.Peer? && key == "Endpoint" then
      Success(d.(endpoint := Some(value)))
    else if d.section.Peer? && key == "AllowedIPs" then
      match Networks(Pieces(value, ','), parsers)
      case Failure(e) => Failure(e)
      case Success(networks) => Success(d.(allowedIps := d.allowedIps + networks))
    else if d.section.Peer? && key == "PersistentKeepalive" then
      match Decimal.Parse(value, U16_MAX)
      case None => Failure(InvalidKeepalive)
      case Some(n) => Success(d.(persistentKeepalive := Some(n)))
    else Success(d)
  }

  /** One line of the file. */
  function Step(d: Draft, raw: string, number: nat, parsers: Parsers): Result<Draft, ConfigError> {
    var line := Content(raw);
    if line == "" then Success(d)
    else if line == "[Interface]" then Success(d.(section := Interface))
    else if line == "[Peer]" then
      if d.peerPublicKey.Some? then Failure(MultiplePeers) else Success(d.(section := Peer))
    else
      match SplitOnce(line, "=")
      case None => Failure(InvalidLine(number))
      case Some((key, value)) => Assign(d, Trim(key), Trim(value), parsers)
  }

  function Fold(d: Draft, lines: seq<string>, number: nat, parsers: Parsers): Result<Draft, ConfigError>
    decreases |lines|
  {
    if lines == [] then Success(d)
    else
      match Step(d, lines[0], number, parsers)
      case Failure(e) => Failure(e)
      case Success(next) => Fold(next, lines[1..], number + 1, parsers)
  }

  function Finish(d: Draft): Result<WireGuardProfile, ConfigError> {
    if d.address.None? then Failure(NoAddress)
    else if d.privateKey.None? then Failure(NoPrivateKey)
    else if d.peerPublicKey.None? then Failure(NoPeerPublicKey)
    else if d.endpoint.None? then Failure(NoEndpoint)
    else if d.allowedIps == [] then Failure(NoAllowedIps)
    else Success(WireGuardProfile(d.address.value, d.privateKey.value, d.peerPublicKey.value, d.presharedKey,
                                  d.endpoint.value, d.allowedIps, d.persistentKeepalive))
  }

  function ParseLines(lines: seq<string>, parsers: Parsers): Result<WireGuardProfile, ConfigError> {
    match Fold(EMPTY, lines, 1, parsers)
    case Failure(e) => Failure(e)
    case Success(d) => Finish(d)
  }

  /** `WireGuardProfile::parse`. */
  function Parse(input: string, parsers: Parsers): Result<WireGuardProfile, ConfigError> {
    ParseLines(Lines(input), parsers)
  }

  // ---------------------------------------------------------------------------------------
  // The settings of Waker
  // ---------------------------------------------------------------------------------------

  datatype Settings = Settings(fritzIp: Option<string>, pcMac: Option<string>)

  const DEFAULT: Settings := Settings(None, None)

  function SettingsStep(s: Settings, raw: string): Settings {
    match SplitOnce(Content(raw), "=")
    case None => s
    case Some((key, value)) =>
      var name := Lower(Trim(key));
      if name == "wakerfritzip" then s.(fritzIp := Some(Trim(value)))
      else if name == "wakerpcmac" then s.(pcMac := Some(Trim(value)))
      else s
  }

  function SettingsFold(s: Settings, lines: seq<string>): Settings
    decreases |lines|
  {
    if lines == [] then s else SettingsFold(SettingsStep(s, lines[0]), lines[1..])
  }

  /** `parse_waker_file_settings`. */
  function ParseSettings(config: string): Settings { SettingsFold(DEFAULT, Lines(config)) }

  // ---------------------------------------------------------------------------------------
  // The two loops
  // ---------------------------------------------------------------------------------------

  method FindIpv4(value: string, parsers: Parsers, address: Option<Ipv4Network>) returns (r: Option<Ipv4Network>)
    ensures r == if FirstIpv4(Pieces(value, ','), parsers).Some? then FirstIpv4(Pieces(value, ','), parsers) else address
  {
    var pieces := Pieces(value, ',');
    for i := 0 to |pieces|
      invariant FirstIpv4(pieces[i..], parsers) == FirstIpv4(pieces, parsers)
    {
      var network := parsers.network(Trim(pieces[i]));
      if network.Some? && network.value.V4? {
        return Some(network.value.network);
      }
      assert pieces[i..][1..] == pieces[i + 1..];
    }
    r := address;
  }

  function Onto(all: seq<Network>, more: Result<seq<Network>, ConfigError>): Result<seq<Network>, ConfigError> {
    match more
    case Failure(e) => Failure(e)
    case Success(networks) => Success(all + networks)
  }

  method PushNetworks(value: string, parsers: Parsers, allowedIps: seq<Network>) returns (r: Result<seq<Network>, ConfigError>)
    ensures r == Onto(allowedIps, Networks(Pieces(value, ','), parsers))
  {
    var pieces := Pieces(value, ',');
    var all := allowedIps;
    for i := 0 to |pieces|
      invariant Onto(all, Networks(pieces[i..], parsers)) == Onto(allowedIps, Networks(pieces, parsers))
    {
      assert pieces[i..][1..] == pieces[i + 1..];
      match parsers.network(Trim(pieces[i]))
      case None =>
        return Failure(InvalidAllowedIp(Trim(pieces[i])));
      case Some(network) =>
        var rest := Networks(pieces[i + 1..], parsers);
        assert rest.Success? ==> all + ([network] + rest.value) == all + [network] + rest.value;
        all := all + [network];
    }
    assert all + [] == all;
    r := Success(all);
  }

  /** The last statement of the loop of `parse`: an assignment to one of its variables. */
  method AssignField(d: Draft, key: string, value: string, parsers: Parsers) returns (r: Result<Draft, ConfigError>)
    ensures r == Assign(d, key, value, parsers)
  {
    match (d.section, key)
    case (Interface, "Address") =>
      var address := FindIpv4(value, parsers, d.address);
      return Success(d.(address := address));
    case (Interface, "PrivateKey") =>
      var decoded := parsers.key(value);
      return if decoded.Failure? then Failure(InvalidKey(decoded.error)) else Success(d.(privateKey := Some(decoded.value)));
    case (Peer, "PublicKey") =>
      var decoded := parsers.key(value);
      return if decoded.Failure? then Failure(InvalidKey(decoded.error)) else Success(d.(peerPublicKey := Some(decoded.value)));
    case (Peer, "PresharedKey") =>
      var decoded := parsers.key(value);
      return if decoded.Failure? then Failure(InvalidKey(decoded.error)) else Success(d.(presharedKey := Some(decoded.value)));
    case (Peer, "Endpoint") =>
      return Success(d.(endpoint := Some(value)));
    case (Peer, "AllowedIPs") =>
      var networks := PushNetworks(value, parsers, d.allowedIps);
      return if networks.Failure? then Failure(networks.error) else Success(d.(allowedIps := networks.value));
    case (Peer, "PersistentKeepalive") =>
      var number := Decimal.Parse(value, U16_MAX);
      return if number.None? then Failure(InvalidKeepalive) else Success(d.(persistentKeepalive := number));
    case _ =>
      r := Success(d);
  }

  method ParseProfile(input: string, parsers: Parsers) returns (r: Result<WireGuardProfile, ConfigError>)
    ensures r == Parse(input, parsers)
  {
    hide Assign, Finish;
    var lines := Lines(input);
    var d := EMPTY;
    for i := 0 to |lines|
      invariant Fold(d, lines[i..], i + 1, parsers) == Fold(EMPTY, lines, 1, parsers)
    {
      assert lines[i..][1..] == lines[i + 1..];
      var line := Content(lines[i]);
      if line == "" {
        continue;
      }
      if line == "[Interface]" {
        d := d.(section := Interface);
        continue;
      }
      if line == "[Peer]" {
        if d.peerPublicKey.Some? {
          return Failure(MultiplePeers);
        }
        d := d.(section := Peer);
        continue;
      }
      match SplitOnce(line, "=")
      case None =>
        return Failure(InvalidLine(i + 1));
      case Some((key, value)) =>
        var outcome := AssignField(d, Trim(key), Trim(value), parsers);
        if outcome.Failure? {
          return Failure(outcome.error);
        }
        d := outcome.value;
    }
    r := Finish(d);
  }

  method ParseWakerFileSettings(config: string) returns (settings: Settings)
    ensures settings == ParseSettings(config)
  {
    var lines := Lines(config);
    settings := DEFAULT;
    for i := 0 to |lines|
      invariant SettingsFold(settings, lines[i..]) == SettingsFold(DEFAULT, lines)
    {
      assert lines[i..][1..] == lines[i + 1..];
      var pair := SplitOnce(Content(lines[i]), "=");
      if pair.None? {
        continue;
      }
      var value := Trim(pair.value.1);
      match Lower(Trim(pair.value.0))
      case "wakerfritzip" => settings := settings.(fritzIp := Some(value));
      case "wakerpcmac" => settings := settings.(pcMac := Some(value));
      case _ =>
    }
  }

  // ---------------------------------------------------------------------------------------
  // What the lists and the errors mean
  // ---------------------------------------------------------------------------------------

  predicate IsIpv4(piece: string, parsers: Parsers) {
    parsers.network(Trim(piece)).Some? && parsers.network(Trim(piece)).value.V4?
  }

  /** The address is that of the first piece that is an IPv4 network. */
  lemma {:induction false} FirstIpv4Means(pieces: seq<string>, parsers: Parsers)
    ensures FirstIpv4(pieces, parsers).None? <==> forall k :: 0 <= k < |pieces| ==> !IsIpv4(pieces[k], parsers)
    ensures forall k :: 0 <= k < |pieces| && IsIpv4(pieces[k], parsers) && (forall j :: 0 <= j < k ==> !IsIpv4(pieces[j], parsers)) ==>
              FirstIpv4(pieces, parsers) == Some(parsers.network(Trim(pieces[k])).value.network)
  {
    if pieces != [] {
      FirstIpv4Means(pieces[1..], parsers);
      assert pieces == [pieces[0]] + pieces[1..];
    }
  }

  /** A list is accepted exactly if every piece is a network, and gives them in order; otherwise the
      complaint is about the first that is none. */
  lemma {:induction false} NetworksMean(pieces: seq<string>, parsers: Parsers)
    ensures Networks(pieces, parsers).Success? <==> forall k :: 0 <= k < |pieces| ==> parsers.network(Trim(pieces[k])).Some?
    ensures Networks(pieces, parsers).Success? ==>
              && |Networks(pieces, parsers).value| == |pieces|
              && forall k :: 0 <= k < |pieces| ==> parsers.network(Trim(pieces[k])) == Some(Networks(pieces, parsers).value[k])
    ensures forall k :: 0 <= k < |pieces| && parsers.network(Trim(pieces[k])).None?
                        && (forall j :: 0 <= j < k ==> parsers.network(Trim(pieces[j])).Some?) ==>
              Networks(pieces, parsers) == Failure(InvalidAllowedIp(Trim(pieces[k])))
  {
    hide Trim;
    if pieces != [] {
      NetworksMean(pieces[1..], parsers);
      assert pieces == [pieces[0]] + pieces[1..];
    }
  }

  /** Neither empty, nor a section header, nor an assignment. */
  predicate IsInvalid(raw: string) {
    Content(raw) !in ["", "[Interface]", "[Peer]"] && '=' !in Content(raw)
  }

  lemma HasNoEquals(s: string)
    ensures SplitOnce(s, "=").None? <==> '=' !in s
  {
    if '=' in s {
      var k := FirstOf(s, '=');
      assert s == s[..k] + ['='] + s[k + 1..];
      SplitOnceAtChar(s[..k], '=', s[k + 1..]);
    } else {
      NothingToSplit(s, '=');
    }
  }

  lemma HeadersAreNotInvalid()
    ensures "[Interface]" != "[Peer]" && '=' !in "[Interface]" && '=' !in "[Peer]"
  {
    assert "[Peer]"[1] == 'P' && "[Interface]"[1] == 'I';
  }

  /** Which lines end the parse: an invalid one, and a second `[Peer]` behind a public key. */
  lemma StepFails(d: Draft, raw: string, number: nat, parsers: Parsers)
    ensures IsInvalid(raw) <==> Step(d, raw, number, parsers) == Failure(InvalidLine(number))
    ensures Content(raw) == "[Peer]" && d.peerPublicKey.Some? <==> Step(d, raw, number, parsers) == Failure(MultiplePeers)
  {
    HeadersAreNotInvalid();
    HasNoEquals(Content(raw));
    hide Content, Trim, SplitOnce, Assign;
    if Content(raw) != "" && SplitOnce(Content(raw), "=").Some? {
      var (key, value) := SplitOnce(Content(raw), "=").value;
      AssignedComplaints(d, Trim(key), Trim(value), parsers);
    }
  }

  /** The complaint about an invalid line has the place of the first one. */
  lemma {:induction false} InvalidLineIsFirst(d: Draft, lines: seq<string>, n: nat, parsers: Parsers)
    requires Fold(d, lines, n, parsers).Failure? && Fold(d, lines, n, parsers).error.InvalidLine?
    ensures var k := Fold(d, lines, n, parsers).error.number - n;
      0 <= k < |lines| && IsInvalid(lines[k]) && forall j :: 0 <= j < k ==> !IsInvalid(lines[j])
    decreases |lines|
  {
    hide Step, IsInvalid;
    if lines != [] {
      var l, rest := lines[0], lines[1..];
      StepFails(d, l, n, parsers);
      StepNumbers(d, l, n, n, parsers);
      if Step(d, l, n, parsers).Success? {
        InvalidLineIsFirst(Step(d, l, n, parsers).value, rest, n + 1, parsers);
        hide Fold;
        assert forall j :: 0 < j < |lines| ==> lines[j] == rest[j - 1];
      }
    }
  }

  predicate InterfaceKey(key: string) { key == "Address" || key == "PrivateKey" }

  predicate PeerKey(key: string) {
    key == "PublicKey" || key == "PresharedKey" || key == "Endpoint" || key == "AllowedIPs" || key == "PersistentKeepalive"
  }

  /** What is not a key of the current section is ignored, whatever its value. */
  lemma ForeignKeysAreIgnored(d: Draft, key: string, value: string, parsers: Parsers)
    requires d.section.Interface? ==> !InterfaceKey(key)
    requires d.section.Peer? ==> !PeerKey(key)
    ensures Assign(d, key, value, parsers) == Success(d)
  {}

  /** A later value of a key replaces the earlier one, only allowed networks are added to those
      before, and an address list without an IPv4 network changes nothing. */
  lemma LaterValuesWin(d: Draft, value: string, parsers: Parsers)
    ensures var found := FirstIpv4(Pieces(value, ','), parsers);
      d.section.Interface? ==>
        Assign(d, "Address", value, parsers) == Success(d.(address := if found.Some? then found else d.address))
    ensures forall k :: parsers.key(value) == Success(k) && d.section.Interface? ==>
      Assign(d, "PrivateKey", value, parsers) == Success(d.(privateKey := Some(k)))
    ensures forall k :: parsers.key(value) == Success(k) && d.section.Peer? ==>
      && Assign(d, "PublicKey", value, parsers) == Success(d.(peerPublicKey := Some(k)))
      && Assign(d, "PresharedKey", value, parsers) == Success(d.(presharedKey := Some(k)))
    ensures d.section.Peer? ==> Assign(d, "Endpoint", value, parsers) == Success(d.(endpoint := Some(value)))
    ensures forall more :: Networks(Pieces(value, ','), parsers) == Success(more) && d.section.Peer? ==>
      Assign(d, "AllowedIPs", value, parsers) == Success(d.(allowedIps := d.allowedIps + more))
    ensures d.section.Peer? && Decimal.Parse(value, 65_535).Some? ==>
      Assign(d, "PersistentKeepalive", value, parsers)
      == Success(d.(persistentKeepalive := Some(Decimal.Parse(value, 65_535).value)))
  {
    KeysDiffer();
    hide Networks, Pieces, FirstIpv4, Decimal.Parse;
  }

  lemma KeysDiffer()
    ensures "PresharedKey" != "PublicKey" && "PresharedKey" != "PersistentKeepalive"
    ensures "PublicKey" != "PersistentKeepalive" && "Endpoint" != "AllowedIPs"
  {
    assert "PresharedKey"[1] == 'r' && "PublicKey"[1] == 'u' && "PersistentKeepalive"[1] == 'e' && "Endpoint"[0] == 'E';
  }

  /** What a profile must have, and which lack is complained about first. */
  lemma FinishMeans(d: Draft)
    ensures Finish(d).Success? <==>
            d.address.Some? && d.privateKey.Some? && d.peerPublicKey.Some? && d.endpoint.Some? && |d.allowedIps| > 0
    ensures Finish(d) == Failure(NoAddress) <==> d.address == None
    ensures Finish(d) == Failure(NoPrivateKey) <==> d.address.Some? && d.privateKey == None
    ensures Finish(d) == Failure(NoPeerPublicKey) <==> d.address.Some? && d.privateKey.Some? && d.peerPublicKey == None
    ensures Finish(d) == Failure(NoEndpoint) <==>
            d.address.Some? && d.privateKey.Some? && d.peerPublicKey.Some? && d.endpoint == None
  {}

  /** The line sets this name. */
  predicate Sets(raw: string, name: string, value: string) {
    match SplitOnce(Content(raw), "=")
    case None => false
    case Some((key, v)) => Lower(Trim(key)) == name && Trim(v) == value
  }

  function NamedSetting(s: Settings, name: string): Option<string> {
    if name == "wakerfritzip" then s.fritzIp else s.pcMac
  }

  lemma NamesDiffer()
    ensures "wakerfritzip" != "wakerpcmac"
  {
    assert "wakerfritzip"[5] == 'f' && "wakerpcmac"[5] == 'p';
  }

  lemma SettingsStepMeans(s: Settings, raw: string, name: string)
    requires name == "wakerfritzip" || name == "wakerpcmac"
    ensures forall v :: Sets(raw, name, v) ==> NamedSetting(SettingsStep(s, raw), name) == Some(v)
    ensures (forall v :: !Sets(raw, name, v)) ==> NamedSetting(SettingsStep(s, raw), name) == NamedSetting(s, name)
  {
    NamesDiffer();
    hide Content, Trim, SplitOnce, Lower;
    var pair := SplitOnce(Content(raw), "=");
    assert pair.Some? && Lower(Trim(pair.value.0)) == name ==> Sets(raw, name, Trim(pair.value.1));
  }

  ghost predicate NoneSets(lines: seq<string>, name: string) {
    forall j, v :: 0 <= j < |lines| ==> !Sets(lines[j], name, v)
  }

  lemma {:induction false} NothingSet(s: Settings, lines: seq<string>, name: string)
    requires (name == "wakerfritzip" || name == "wakerpcmac") && NoneSets(lines, name)
    ensures NamedSetting(SettingsFold(s, lines), name) == NamedSetting(s, name)
    decreases |lines|
  {
    if lines != [] {
      SettingsStepMeans(s, lines[0], name);
      hide Sets, SettingsStep, NamedSetting;
      assert forall j :: 0 <= j < |lines[1..]| ==> lines[1..][j] == lines[j + 1];
      NothingSet(SettingsStep(s, lines[0]), lines[1..], name);
    }
  }

  /** The last line that sets a name decides; without one the setting stays as it was. */
  lemma {:induction false} LastSettingWins(s: Settings, lines: seq<string>, name: string, k: nat, v: string)
    requires name == "wakerfritzip" || name == "wakerpcmac"
    requires k < |lines| && Sets(lines[k], name, v) && NoneSets(lines[k + 1..], name)
    ensures NamedSetting(SettingsFold(s, lines), name) == Some(v)
    decreases |lines|
  {
    var next, rest := SettingsStep(s, lines[0]), lines[1..];
    assert SettingsFold(s, lines) == SettingsFold(next, rest);
    if k == 0 {
      SettingsStepMeans(s, lines[0], name);
      hide *;
      NothingSet(next, rest, name);
    } else {
      hide *;
      assert rest[k..] == lines[k + 1..] && rest[k - 1] == lines[k];
      LastSettingWins(next, rest, name, k - 1, v);
    }
  }

  // ---------------------------------------------------------------------------------------
  // Two parsers, one file
  // ---------------------------------------------------------------------------------------

  predicate IsSettingsName(s: string) { s == "wakerfritzip" || s == "wakerpcmac" }

  /** The settings parser uses this line. */
  predicate Recognised(raw: string) {
    match SplitOnce(Content(raw), "=")
    case None => false
    case Some((key, _)) => IsSettingsName(Lower(Trim(key)))
  }

  predicate Other(raw: string) { !Recognised(raw) }

  function Filter(lines: seq<string>, keep: string -> bool): seq<string> {
    if lines == [] then []
    else (if keep(lines[0]) then [lines[0]] else []) + Filter(lines[1..], keep)
  }

  /** A text without the lines that are not kept; the others stay as they are, with their line
      ends. */
  function Keep(text: string, keep: string -> bool): string
    decreases |text|
  {
    if text == "" then ""
    else match Find(text, "\n")
      case None => if keep(text) then text else ""
      case Some(k) => (if keep(StripCr(text[..k])) then text[..k + 1] else "") + Keep(text[k + 1..], keep)
  }

  /** Deleting lines from the text deletes them from its lines. */
  lemma {:induction false} KeepLines(text: string, keep: string -> bool)
    ensures Lines(Keep(text, keep)) == Filter(Lines(text), keep)
    decreases |text|
  {
    if text != "" {
      var found := Find(text, "\n");
      if found.Some? {
        var l, rest := text[..found.value], text[found.value + 1..];
        LineBreakAt(text, found.value);
        KeepLines(rest, keep);
        LinesLf(l, rest);
        if keep(StripCr(l)) {
          assert text[..found.value + 1] == l + "\n";
          LinesLf(l, Keep(rest, keep));
        } else {
          assert "" + Keep(rest, keep) == Keep(rest, keep);
        }
        assert ([StripCr(l)] + Lines(rest))[1..] == Lines(rest);
      } else {
        assert Lines(text) == [text];
      }
    }
  }

  lemma LineBreakAt(text: string, k: nat)
    requires Find(text, "\n") == Some(k)
    ensures '\n' !in text[..k] && text == text[..k] + "\n" + text[k + 1..]
  {
    assert text[k] == '\n' by {
      AtChars(text, "\n", k, 0);
    }
    forall i | 0 <= i < k
      ensures text[i] != '\n'
    {
      assert text[i..i + 1] == [text[i]];
      assert !At(text, "\n", i);
    }
  }

  /** Equal, except for the number of an invalid line. `x` was computed from the lines `xs`, counted
      from `n`, and `y` from those of them that are kept, counted from `m`: the second number is
      the place of the same line among those. */
  predicate SameUpToNumber<T(==)>(x: Result<T, ConfigError>, xs: seq<string>, n: nat, y: Result<T, ConfigError>, m: nat) {
    if x.Failure? && x.error.InvalidLine? then
      var k := x.error.number - n;
      0 <= k < |xs| && Other(xs[k]) && y == Failure(InvalidLine(m + |Filter(xs[..k], Other)|))
    else x == y
  }

  lemma SettingIsIgnored(d: Draft, key: string, value: string, parsers: Parsers)
    requires IsSettingsName(Lower(key))
    ensures Assign(d, key, value, parsers) == Success(d)
  {
    ProfileKeysAreNotSettings();
    hide IsSettingsName, Lower, Networks, Pieces, FirstIpv4, Decimal.Parse;
  }

  /** The profile parser passes over the lines of the settings parser. */
  lemma RecognisedLineIsPassedOver(d: Draft, raw: string, number: nat, parsers: Parsers)
    requires Recognised(raw)
    ensures Step(d, raw, number, parsers) == Success(d)
  {
    NoEqualsInHeaders();
    hide Content, Trim, SplitOnce, Lower, Assign, IsSettingsName;
    var pair := SplitOnce(Content(raw), "=").value;
    SettingIsIgnored(d, Trim(pair.0), Trim(pair.1), parsers);
  }

  lemma NoEqualsInHeaders()
    ensures SplitOnce("[Interface]", "=") == None && SplitOnce("[Peer]", "=") == None && SplitOnce("", "=") == None
  {
    NothingToSplit("[Interface]", '=');
    NothingToSplit("[Peer]", '=');
    NothingToSplit("", '=');
  }

  lemma ProfileKeysAreNotSettings()
    ensures !IsSettingsName(Lower("Address")) && !IsSettingsName(Lower("PrivateKey")) && !IsSettingsName(Lower("PublicKey"))
    ensures !IsSettingsName(Lower("PresharedKey")) && !IsSettingsName(Lower("Endpoint"))
    ensures !IsSettingsName(Lower("AllowedIPs")) && !IsSettingsName(Lower("PersistentKeepalive"))
  {
    assert Lower("Address")[0] == 'a' && Lower("PrivateKey")[0] == 'p' && Lower("PublicKey")[0] == 'p';
    assert Lower("PresharedKey")[0] == 'p' && Lower("Endpoint")[0] == 'e' && Lower("AllowedIPs")[0] == 'a';
    assert Lower("PersistentKeepalive")[0] == 'p' && "wakerfritzip"[0] == 'w' && "wakerpcmac"[0] == 'w';
  }

  lemma FilterCons(l: string, xs: seq<string>, keep: string -> bool)
    ensures Filter([l] + xs, keep) == (if keep(l) then [l] else []) + Filter(xs, keep)
  {
    assert ([l] + xs)[1..] == xs;
  }

  /** One more line in front of the others. */
  lemma SameBehind<T>(l: string, x: Result<T, ConfigError>, xs: seq<string>, n: nat, y: Result<T, ConfigError>, m: nat)
    requires SameUpToNumber(x, xs, n + 1, y, m + if Other(l) then 1 else 0)
    ensures SameUpToNumber(x, [l] + xs, n, y, m)
  {
    hide Recognised, Filter;
    if x.Failure? && x.error.InvalidLine? {
      var k := x.error.number - n - 1;
      assert ([l] + xs)[..k + 1] == [l] + xs[..k];
      FilterCons(l, xs[..k], Other);
    }
  }

  /** The kept line at its new place. */
  lemma {:induction false} KeptLineAt(xs: seq<string>, k: nat, keep: string -> bool)
    requires k < |xs| && keep(xs[k])
    ensures var place := |Filter(xs[..k], keep)|; place < |Filter(xs, keep)| && Filter(xs, keep)[place] == xs[k]
  {
    if k > 0 {
      KeptLineAt(xs[1..], k - 1, keep);
      assert xs[..k][1..] == xs[1..][..k - 1];
    }
  }

  lemma {:induction false} FoldPassesOver(d: Draft, lines: seq<string>, n: nat, m: nat, parsers: Parsers)
    ensures var kept := Filter(lines, Other);
      SameUpToNumber(Fold(d, lines, n, parsers), lines, n, Fold(d, kept, m, parsers), m)
    decreases |lines|
  {
    if lines != [] {
      var l, rest, kept := lines[0], lines[1..], Filter(lines[1..], Other);
      assert lines == [l] + rest;
      if Recognised(l) {
        RecognisedLineIsPassedOver(d, l, n, parsers);
        hide Step, SameUpToNumber;
        assert [] + kept == kept;
        FoldPassesOver(d, rest, n + 1, m, parsers);
        SameBehind(l, Fold(d, rest, n + 1, parsers), rest, n, Fold(d, kept, m, parsers), m);
      } else {
        assert ([l] + kept)[1..] == kept;
        StepNumbers(d, l, n, m, parsers);
        hide Step;
        if Step(d, l, n, parsers).Success? {
          var next := Step(d, l, n, parsers).value;
          hide SameUpToNumber;
          FoldPassesOver(next, rest, n + 1, m + 1, parsers);
          SameBehind(l, Fold(next, rest, n + 1, parsers), rest, n, Fold(next, kept, m + 1, parsers), m);
        } else {
          assert Fold(d, lines, n, parsers).Failure? && Fold(d, [l] + kept, m, parsers).Failure?;
        }
      }
    }
  }

  /** The number of a line only shows in the complaint about it. */
  lemma StepNumbers(d: Draft, raw: string, n: nat, m: nat, parsers: Parsers)
    ensures if Step(d, raw, n, parsers).Failure? && Step(d, raw, n, parsers).error.InvalidLine?
            then Step(d, raw, n, parsers) == Failure(InvalidLine(n)) && Step(d, raw, m, parsers) == Failure(InvalidLine(m))
            else Step(d, raw, n, parsers) == Step(d, raw, m, parsers)
  {
    hide Content, Trim, SplitOnce;
    if Content(raw) != "" && SplitOnce(Content(raw), "=").Some? {
      var (key, value) := SplitOnce(Content(raw), "=").value;
      AssignedComplaints(d, Trim(key), Trim(value), parsers);
      hide Assign;
    }
  }

  lemma AssignedComplaints(d: Draft, key: string, value: string, parsers: Parsers)
    ensures Assign(d, key, value, parsers).Failure? ==>
              !Assign(d, key, value, parsers).error.InvalidLine? && !Assign(d, key, value, parsers).error.MultiplePeers?
  {
    if d.section.Peer? && key == "AllowedIPs" {
      NetworkComplaints(Pieces(value, ','), parsers);
    }
  }

  lemma {:induction false} NetworkComplaints(pieces: seq<string>, parsers: Parsers)
    ensures Networks(pieces, parsers).Failure? ==> Networks(pieces, parsers).error.InvalidAllowedIp?
  {
    if pieces != [] {
      NetworkComplaints(pieces[1..], parsers);
    }
  }

  lemma FinishComplaints(d: Draft)
    ensures Finish(d).Failure? ==> !Finish(d).error.InvalidLine?
  {}

  lemma {:induction false} SettingsNeedOnlyRecognised(s: Settings, lines: seq<string>)
    ensures SettingsFold(s, Filter(lines, Recognised)) == SettingsFold(s, lines)
    decreases |lines|
  {
    hide SettingsStep;
    if lines != [] {
      var kept := Filter(lines[1..], Recognised);
      SettingsNeedOnlyRecognised(SettingsStep(s, lines[0]), lines[1..]);
      if Recognised(lines[0]) {
        assert ([lines[0]] + kept)[1..] == kept;
      } else {
        UnrecognisedLineIsPassedOver(s, lines[0]);
        assert [] + kept == kept;
      }
    }
  }

  lemma UnrecognisedLineIsPassedOver(s: Settings, raw: string)
    requires !Recognised(raw)
    ensures SettingsStep(s, raw) == s
  {
    hide Content, Trim, SplitOnce, Lower;
  }

  lemma ParsePassesOver(lines: seq<string>, parsers: Parsers)
    ensures SameUpToNumber(ParseLines(lines, parsers), lines, 1, ParseLines(Filter(lines, Other), parsers), 1)
  {
    hide Step, Finish, Recognised, Other, Fold, Filter;
    FoldPassesOver(EMPTY, lines, 1, 1, parsers);
    if Fold(EMPTY, lines, 1, parsers).Success? {
      FinishComplaints(Fold(EMPTY, lines, 1, parsers).value);
    }
  }

  /** The two parsers do not disturb each other, in any text whatever: the profile is the same
      without the lines of the settings parser, except that a complaint about an invalid line
      counts it among the lines that are left; and the settings are the same without all the other lines. */
  lemma TwoParsersOneFile(text: string, parsers: Parsers)
    ensures SameUpToNumber(Parse(text, parsers), Lines(text), 1, Parse(Keep(text, Other), parsers), 1)
    ensures ParseSettings(Keep(text, Recognised)) == ParseSettings(text)
  {
    hide ParseLines, Keep, Lines, Recognised, Other, SettingsStep, SettingsFold, Filter, SameUpToNumber;
    KeepLines(text, Other);
    KeepLines(text, Recognised);
    ParsePassesOver(Lines(text), parsers);
    SettingsNeedOnlyRecognised(DEFAULT, Lines(text));
  }

  /** The parse complains about the line `l`, by its number among `lines`. */
  predicate ComplainsAbout<T>(r: Result<T, ConfigError>, lines: seq<string>, l: string) {
    r.Failure? && r.error.InvalidLine? && 0 < r.error.number <= |lines| && lines[r.error.number - 1] == l
  }

  lemma FirstInvalidLine(text: string, parsers: Parsers)
    requires Parse(text, parsers).Failure? && Parse(text, parsers).error.InvalidLine?
    ensures var k := Parse(text, parsers).error.number - 1;
      0 <= k < |Lines(text)| && IsInvalid(Lines(text)[k]) && forall j :: 0 <= j < k ==> !IsInvalid(Lines(text)[j])
  {
    hide Fold, Lines, IsInvalid;
    var lines := Lines(text);
    if Fold(EMPTY, lines, 1, parsers).Success? {
      FinishComplaints(Fold(EMPTY, lines, 1, parsers).value);
    } else {
      InvalidLineIsFirst(EMPTY, lines, 1, parsers);
    }
  }

  lemma KeptComplaint<T>(x: Result<T, ConfigError>, xs: seq<string>, y: Result<T, ConfigError>, ys: seq<string>)
    requires SameUpToNumber(x, xs, 1, y, 1) && ys == Filter(xs, Other) && x.Failure? && x.error.InvalidLine?
    ensures 0 < x.error.number <= |xs|
    ensures ComplainsAbout(x, xs, xs[x.error.number - 1]) && ComplainsAbout(y, ys, xs[x.error.number - 1])
  {
    hide Filter, Recognised, Other;
    KeptLineAt(xs, x.error.number - 1, Other);
  }

  /** The two numbers are those of one and the same line: the first that is neither empty, nor a
      header, nor an assignment. */
  lemma SameLineComplainedAbout(text: string, parsers: Parsers) returns (l: string)
    requires Parse(text, parsers).Failure? && Parse(text, parsers).error.InvalidLine?
    ensures ComplainsAbout(Parse(text, parsers), Lines(text), l)
    ensures ComplainsAbout(Parse(Keep(text, Other), parsers), Lines(Keep(text, Other)), l)
    ensures IsInvalid(l) && forall j :: 0 <= j < Parse(text, parsers).error.number - 1 ==> !IsInvalid(Lines(text)[j])
  {
    hide *;
    TwoParsersOneFile(text, parsers);
    FirstInvalidLine(text, parsers);
    KeepLines(text, Other);
    KeptComplaint(Parse(text, parsers), Lines(text), Parse(Keep(text, Other), parsers), Lines(Keep(text, Other)));
    l := Lines(text)[Parse(text, parsers).error.number - 1];
  }
}

/** The accepted subset of the wg-quick format: its typed form and its strict reader, as functions. */
module WgQuick {
  import opened Outcomes
  import opened Text
  import opened Ipv4
  import opened Lib
  import opened Topology
  import Chars

  const MAX_CONFIG_BYTES: nat := 1048576

  datatype ParsedInterface = ParsedInterface(
    privateKey: string,
    address: Addr,
    listenPort: u16,
    dns: Option<string>,
    mtu: Option<u16>)

  datatype ParsedPeer = ParsedPeer(
    publicKey: string,
    presharedKey: string,
    allowedIps: seq<Net>,
    endpoint: Option<string>,
    persistentKeepalive: Option<u16>)

  datatype ParsedConfig = ParsedConfig(interface: ParsedInterface, peers: seq<ParsedPeer>)

  datatype ParseError =
    | TooLarge(bytes: nat)
    | ControlCharacter
    | Malformed(what: string)
    | UnknownSection(name: string)
    | DuplicateSection
    | ForbiddenDirective(key: string)
    | UnknownDirective(key: string)
    | DuplicateDirective(key: string)
    | MissingInterface
    | MissingInterfaceField(name: string)
    | MissingPeerField(name: string)
    | InvalidKey
    | InvalidAddress(what: string)
    | InvalidListenPort
    | InvalidDns
    | InvalidMtu
    | EmptyAllowedIps
    | InvalidAllowedIps(entry: string)
    | DefaultRouteRejected
    | InvalidEndpoint
    | InvalidPersistentKeepalive
    | PeerMatchesLocalKey
    | DuplicatePeerPublicKey
    | OverlappingAllowedIps
    | RouteCoversLocalAddress

  datatype SectionName = Interface | Peer

  datatype Field = Field(key: string, value: string)

  datatype Section = Section(name: SectionName, fields: seq<Field>)

  // -------------------------------------------------------------------
  // Lines to sections
  // -------------------------------------------------------------------

  function SectionHeader(line: string): Result<SectionName, ParseError>
    requires |line| > 0
  {
    var inner := line[1..];
    if |inner| == 0 || inner[|inner| - 1] != ']' then Err(Malformed("unterminated section header"))
    else
      var name := inner[..|inner| - 1];
      if name == "Interface" then Ok(Interface)
      else if name == "Peer" then Ok(Peer)
      else Err(UnknownSection(name))
  }

  predicate HasControl(s: string) {
    exists i | 0 <= i < |s| :: Chars.IsControl(s[i])
  }

  function AddField(sections: seq<Section>, f: Field): Result<seq<Section>, ParseError> {
    if |sections| == 0 then Err(Malformed("directive outside any section"))
    else
      var last := sections[|sections| - 1];
      Ok(sections[|sections| - 1 := last.(fields := last.fields + [f])])
  }

  /** What one line adds to the sections read so far. */
  function ReadLine(raw: string, sections: seq<Section>): Result<seq<Section>, ParseError> {
    if !Lacks(raw, '\r') then Err(ControlCharacter)
    else
      var line := TrimLine(raw);
      if |line| == 0 || line[0] == '#' then Ok(sections)
      else if line[0] == '[' then
        match SectionHeader(line)
        case Err(e) => Err(e)
        case Ok(name) => Ok(sections + [Section(name, [])])
      else
        match SplitOnce(line, '=')
        case None => Err(Malformed("expected 'Key = Value'"))
        case Some((k, v)) =>
          var value := TrimBlanks(v);
          if HasControl(value) then Err(ControlCharacter)
          else AddField(sections, Field(TrimBlanks(k), value))
  }

  function ReadLines(lines: seq<string>, sections: seq<Section>): Result<seq<Section>, ParseError> {
    if |lines| == 0 then Ok(sections)
    else
      match ReadLine(lines[0], sections)
      case Err(e) => Err(e)
      case Ok(next) => ReadLines(lines[1..], next)
  }

  // -------------------------------------------------------------------
  // Fields to records
  // -------------------------------------------------------------------

  datatype InterfaceFields = InterfaceFields(
    privateKey: Option<string>,
    address: Option<Addr>,
    listenPort: Option<u16>,
    dns: Option<string>,
    mtu: Option<u16>)

  const NO_INTERFACE_FIELDS: InterfaceFields := InterfaceFields(None, None, None, None, None)

  const INTERFACE_KEYS: set<string> := {"PrivateKey", "Address", "ListenPort", "DNS", "MTU"}
  const FORBIDDEN_KEYS: set<string> := {"PreUp", "PostUp", "PreDown", "PostDown", "SaveConfig", "Table"}
  const PEER_KEYS: set<string> := {"PublicKey", "PresharedKey", "AllowedIPs", "Endpoint", "PersistentKeepalive"}

  function CheckKey(key: string, allowed: set<string>, forbidden: set<string>, seen: set<string>): Option<ParseError> {
    if key in forbidden then Some(ForbiddenDirective(key))
    else if key !in allowed then Some(UnknownDirective(key))
    else if key in seen then Some(DuplicateDirective(key))
    else None
  }

  /** The value of one `[Interface]` directive. */
  function SetInterfaceField(lib: Library, acc: InterfaceFields, f: Field): Result<InterfaceFields, ParseError> {
    if f.key == "PrivateKey" then
      if IsKey(lib, f.value) then Ok(acc.(privateKey := Some(f.value))) else Err(InvalidKey)
    else if f.key == "Address" then
      match ParseNet(f.value)
      case None => Err(InvalidAddress("not a valid IPv4 CIDR"))
      case Some(net) =>
        if net.prefix != 32 then Err(InvalidAddress("must be a /32")) else Ok(acc.(address := Some(net.addr)))
    else if f.key == "ListenPort" then
      match ParseU16(f.value)
      case None => Err(ParseError.InvalidListenPort)
      case Some(port) => if port == 0 then Err(ParseError.InvalidListenPort) else Ok(acc.(listenPort := Some(port)))
    else if f.key == "DNS" then
      match lib.parseIp(f.value)
      case None => Err(ParseError.InvalidDns)
      case Some(ip) => Ok(acc.(dns := Some(ip)))
    else
      match ParseU16(f.value)
      case None => Err(ParseError.InvalidMtu)
      case Some(m) => if m < MIN_MTU then Err(ParseError.InvalidMtu) else Ok(acc.(mtu := Some(m)))
  }

  function ReadInterface(lib: Library, fields: seq<Field>, seen: set<string>, acc: InterfaceFields)
    : Result<InterfaceFields, ParseError>
  {
    if |fields| == 0 then Ok(acc)
    else
      var bad := CheckKey(fields[0].key, INTERFACE_KEYS, FORBIDDEN_KEYS, seen);
      if bad.Some? then Err(bad.value)
      else
        match SetInterfaceField(lib, acc, fields[0])
        case Err(e) => Err(e)
        case Ok(next) => ReadInterface(lib, fields[1..], seen + {fields[0].key}, next)
  }

  function FinishInterface(acc: InterfaceFields): Result<ParsedInterface, ParseError> {
    if acc.privateKey.None? then Err(MissingInterfaceField("PrivateKey"))
    else if acc.address.None? then Err(MissingInterfaceField("Address"))
    else if acc.listenPort.None? then Err(MissingInterfaceField("ListenPort"))
    else Ok(ParsedInterface(acc.privateKey.value, acc.address.value, acc.listenPort.value, acc.dns, acc.mtu))
  }

  datatype PeerFields = PeerFields(
    publicKey: Option<string>,
    presharedKey: Option<string>,
    allowedIps: Option<seq<Net>>,
    endpoint: Option<string>,
    keepalive: Option<u16>)

  const NO_PEER_FIELDS: PeerFields := PeerFields(None, None, None, None, None)

  function ParseAllowed(entries: seq<string>, nets: seq<Net>): Result<seq<Net>, ParseError> {
    if |entries| == 0 then Ok(nets)
    else
      var entry := TrimBlanks(entries[0]);
      match ParseNet(entry)
      case None => Err(InvalidAllowedIps(entry))
      case Some(net) =>
        if !Ipv4.IsCanonical(net) then Err(InvalidAllowedIps(entry))
        else if net.prefix == 0 then Err(ParseError.DefaultRouteRejected)
        else ParseAllowed(entries[1..], nets + [net])
  }

  /** The value of one `[Peer]` directive. */
  function SetPeerField(lib: Library, acc: PeerFields, f: Field): Result<PeerFields, ParseError> {
    if f.key == "PublicKey" then
      if IsKey(lib, f.value) then Ok(acc.(publicKey := Some(f.value))) else Err(InvalidKey)
    else if f.key == "PresharedKey" then
      if IsKey(lib, f.value) then Ok(acc.(presharedKey := Some(f.value))) else Err(InvalidKey)
    else if f.key == "AllowedIPs" then
      if |f.value| == 0 then Err(EmptyAllowedIps)
      else
        match ParseAllowed(Split(f.value, ','), [])
        case Err(e) => Err(e)
        case Ok(nets) => Ok(acc.(allowedIps := Some(nets)))
    else if f.key == "Endpoint" then
      if EndpointOk(lib, f.value) then Ok(acc.(endpoint := Some(f.value))) else Err(ParseError.InvalidEndpoint)
    else
      match ParseU16(f.value)
      case None => Err(InvalidPersistentKeepalive)
      case Some(n) => Ok(acc.(keepalive := Some(n)))
  }

  function ReadPeer(lib: Library, fields: seq<Field>, seen: set<string>, acc: PeerFields)
    : Result<PeerFields, ParseError>
  {
    if |fields| == 0 then Ok(acc)
    else
      var bad := CheckKey(fields[0].key, PEER_KEYS, {}, seen);
      if bad.Some? then Err(bad.value)
      else
        match SetPeerField(lib, acc, fields[0])
        case Err(e) => Err(e)
        case Ok(next) => ReadPeer(lib, fields[1..], seen + {fields[0].key}, next)
  }

  function FinishPeer(acc: PeerFields): Result<ParsedPeer, ParseError> {
    if acc.allowedIps.None? then Err(MissingPeerField("AllowedIPs"))
    else if |acc.allowedIps.value| == 0 then Err(EmptyAllowedIps)
    else if acc.publicKey.None? then Err(MissingPeerField("PublicKey"))
    else if acc.presharedKey.None? then Err(MissingPeerField("PresharedKey"))
    else Ok(ParsedPeer(acc.publicKey.value, acc.presharedKey.value, acc.allowedIps.value, acc.endpoint, acc.keepalive))
  }

  function InterfaceOf(lib: Library, fields: seq<Field>): Result<ParsedInterface, ParseError> {
    match ReadInterface(lib, fields, {}, NO_INTERFACE_FIELDS)
    case Err(e) => Err(e)
    case Ok(acc) => FinishInterface(acc)
  }

  function PeerOf(lib: Library, fields: seq<Field>): Result<ParsedPeer, ParseError> {
    match ReadPeer(lib, fields, {}, NO_PEER_FIELDS)
    case Err(e) => Err(e)
    case Ok(acc) => FinishPeer(acc)
  }

  function Build(lib: Library, sections: seq<Section>, interface: Option<ParsedInterface>, peers: seq<ParsedPeer>)
    : Result<ParsedConfig, ParseError>
  {
    if |sections| == 0 then
      if interface.None? then Err(MissingInterface) else Ok(ParsedConfig(interface.value, peers))
    else if sections[0].name.Interface? then
      if interface.Some? then Err(DuplicateSection)
      else
        match InterfaceOf(lib, sections[0].fields)
        case Err(e) => Err(e)
        case Ok(i) => Build(lib, sections[1..], Some(i), peers)
    else
      match PeerOf(lib, sections[0].fields)
      case Err(e) => Err(e)
      case Ok(p) => Build(lib, sections[1..], interface, peers + [p])
  }

  // -------------------------------------------------------------------
  // Checks across peers
  // -------------------------------------------------------------------

  function CheckPeerKeys(local: string, peers: seq<ParsedPeer>, seen: set<string>): Option<ParseError> {
    if |peers| == 0 then None
    else if peers[0].publicKey == local then Some(PeerMatchesLocalKey)
    else if peers[0].publicKey in seen then Some(DuplicatePeerPublicKey)
    else CheckPeerKeys(local, peers[1..], seen + {peers[0].publicKey})
  }

  predicate CoversAddress(p: ParsedPeer, a: Addr) {
    exists i | 0 <= i < |p.allowedIps| :: Contains(RangeOf(p.allowedIps[i]), a)
  }

  predicate PeersOverlap(p: ParsedPeer, q: ParsedPeer) {
    exists i | 0 <= i < |p.allowedIps| ::
      exists k | 0 <= k < |q.allowedIps| :: Overlap(RangeOf(p.allowedIps[i]), RangeOf(q.allowedIps[k]))
  }

  function CheckPeerRoutes(address: Addr, peers: seq<ParsedPeer>): Option<ParseError> {
    if |peers| == 0 then None
    else if CoversAddress(peers[0], address) then Some(RouteCoversLocalAddress)
    else if exists k | 0 < k < |peers| :: PeersOverlap(peers[0], peers[k]) then Some(OverlappingAllowedIps)
    else CheckPeerRoutes(address, peers[1..])
  }

  function CheckConfig(lib: Library, config: ParsedConfig): Result<ParsedConfig, ParseError> {
    var keys := CheckPeerKeys(lib.publicOf(Canonical(config.interface.privateKey)), config.peers, {});
    if keys.Some? then Err(keys.value)
    else
      var routes := CheckPeerRoutes(config.interface.address, config.peers);
      if routes.Some? then Err(routes.value) else Ok(config)
  }

  /** Sections to a checked configuration. */
  function Interpret(lib: Library, sections: seq<Section>): Result<ParsedConfig, ParseError> {
    match Build(lib, sections, None, [])
    case Err(e) => Err(e)
    case Ok(config) => CheckConfig(lib, config)
  }

  /** The strict reader of the accepted subset. */
  function Parse(lib: Library, text: string): Result<ParsedConfig, ParseError> {
    if Utf8Len(text) > MAX_CONFIG_BYTES then Err(TooLarge(Utf8Len(text)))
    else if !Lacks(text, '\0') then Err(ControlCharacter)
    else
      match ReadLines(Split(text, '\n'), [])
      case Err(e) => Err(e)
      case Ok(sections) => Interpret(lib, sections)
  }
}

/** The script that writes the client's API configuration: the choice of the machine's
    address from its network interfaces, and the URLs built from it. */
module ApiConfig {
  import opened Text

  /** One entry of `os.networkInterfaces()`. */
  datatype NetAddress = NetAddress(address: string, family: string, internal: bool)

  /** `os.networkInterfaces()` as its keys and entry lists, in enumeration order. */
  type Interfaces = seq<(string, seq<NetAddress>)>

  const PRIORITY: seq<string> := ["Wi-Fi", "Ethernet", "en0", "eth0", "wlan0"]
  const LOCALHOST := "localhost"
  const DEFAULT_PORT := "3001"

  /** An external IPv4 address. */
  predicate Qualifies(a: NetAddress) {
    a.family == "IPv4" && !a.internal
  }

  /** The interface of that name, `interfaces[name]`. */
  function Lookup(ifaces: Interfaces, name: string): (r: Option<seq<NetAddress>>)
    ensures r.Some? ==> exists k :: 0 <= k < |ifaces| && ifaces[k] == (name, r.value)
    ensures r.None? ==> forall k :: 0 <= k < |ifaces| ==> ifaces[k].0 != name
  {
    if ifaces == [] then None
    else if ifaces[0].0 == name then Some(ifaces[0].1)
    else
      var r := Lookup(ifaces[1..], name);
      assert r.Some? ==> ifaces[1..][TailIndex(ifaces[1..], name, r)] == (name, r.value);
      r
  }

  /** The index, in `ifaces`, of an entry that a successful lookup found. */
  ghost function TailIndex(ifaces: Interfaces, name: string, r: Option<seq<NetAddress>>): (k: nat)
    requires r.Some? && exists k :: 0 <= k < |ifaces| && ifaces[k] == (name, r.value)
    ensures k < |ifaces| && ifaces[k] == (name, r.value)
  {
    var k :| 0 <= k < |ifaces| && ifaces[k] == (name, r.value); k
  }

  /** The address of the first qualifying entry of a list. */
  function FirstQualifying(entries: seq<NetAddress>): (r: Option<string>)
    ensures r.None? <==> forall j :: 0 <= j < |entries| ==> !Qualifies(entries[j])
    ensures r.Some? ==> exists j :: 0 <= j < |entries| && Qualifies(entries[j]) && entries[j].address == r.value
                                    && forall i :: 0 <= i < j ==> !Qualifies(entries[i])
  {
    if entries == [] then None
    else if Qualifies(entries[0]) then Some(entries[0].address)
    else
      var r := FirstQualifying(entries[1..]);
      assert forall j :: 1 <= j < |entries| ==> entries[j] == entries[1..][j - 1];
      r
  }

  /** The first of `names` that names an interface with a qualifying entry, and that entry. */
  function FromPriority(ifaces: Interfaces, names: seq<string>): Option<string> {
    if names == [] then None
    else
      var found := match Lookup(ifaces, names[0])
                   case None => None
                   case Some(entries) => FirstQualifying(entries);
      if found.Some? then found else FromPriority(ifaces, names[1..])
  }

  /** The first qualifying entry over all interfaces in enumeration order. */
  function FromAll(ifaces: Interfaces): Option<string> {
    if ifaces == [] then None
    else
      var found := FirstQualifying(ifaces[0].1);
      if found.Some? then found else FromAll(ifaces[1..])
  }

  /** What `getLocalIPAddress` returns. */
  function ChooseAddress(ifaces: Interfaces): string {
    match FromPriority(ifaces, PRIORITY)
    case Some(a) => a
    case None =>
      match FromAll(ifaces)
      case Some(a) => a
      case None => LOCALHOST
  }

  /** `getLocalIPAddress`: the priority interfaces first, each entry in order, then every
      interface, then "localhost". */
  method GetLocalIPAddress(ifaces: Interfaces) returns (ip: string)
    ensures ip == ChooseAddress(ifaces)
  {
    var i := 0;
    while i < |PRIORITY|
      invariant 0 <= i <= |PRIORITY|
      invariant FromPriority(ifaces, PRIORITY) == FromPriority(ifaces, PRIORITY[i..])
    {
      var name := PRIORITY[i];
      var found := Lookup(ifaces, name);
      if found.Some? {
        var entries := found.value;
        var j := 0;
        while j < |entries|
          invariant 0 <= j <= |entries|
          invariant FirstQualifying(entries) == FirstQualifying(entries[j..])
        {
          if entries[j].family == "IPv4" && !entries[j].internal {
            assert FromPriority(ifaces, PRIORITY[i..]) == Some(entries[j].address);
            return entries[j].address;
          }
          assert entries[j..][1..] == entries[j + 1..];
          j := j + 1;
        }
        assert FirstQualifying(entries).None?;
      }
      assert PRIORITY[i..][1..] == PRIORITY[i + 1..];
      i := i + 1;
    }
    var k := 0;
    while k < |ifaces|
      invariant 0 <= k <= |ifaces|
      invariant FromAll(ifaces) == FromAll(ifaces[k..])
    {
      var entries := ifaces[k].1;
      var j := 0;
      while j < |entries|
        invariant 0 <= j <= |entries|
        invariant FirstQualifying(entries) == FirstQualifying(entries[j..])
      {
        if entries[j].family == "IPv4" && !entries[j].internal {
          assert FromAll(ifaces[k..]) == Some(entries[j].address);
          return entries[j].address;
        }
        assert entries[j..][1..] == entries[j + 1..];
        j := j + 1;
      }
      assert ifaces[k..][1..] == ifaces[k + 1..];
      k := k + 1;
    }
    return LOCALHOST;
  }

  /** Every entry list, one after the other. */
  function AllEntries(ifaces: Interfaces): seq<NetAddress> {
    if ifaces == [] then [] else ifaces[0].1 + AllEntries(ifaces[1..])
  }

  lemma {:induction false} FirstQualifyingAppend(a: seq<NetAddress>, b: seq<NetAddress>)
    ensures FirstQualifying(a + b) == if FirstQualifying(a).Some? then FirstQualifying(a) else FirstQualifying(b)
    decreases |a|
  {
    if a == [] {
      assert a + b == b;
    } else {
      assert (a + b)[1..] == a[1..] + b;
      FirstQualifyingAppend(a[1..], b);
    }
  }

  /** The fallback loop finds the first qualifying entry of the whole table. */
  lemma {:induction false} FromAllIsFirstOverall(ifaces: Interfaces)
    ensures FromAll(ifaces) == FirstQualifying(AllEntries(ifaces))
    decreases |ifaces|
  {
    if ifaces != [] {
      FromAllIsFirstOverall(ifaces[1..]);
      FirstQualifyingAppend(ifaces[0].1, AllEntries(ifaces[1..]));
    }
  }

  lemma {:induction false} AllEntriesHas(ifaces: Interfaces, k: nat, j: nat)
    requires k < |ifaces| && j < |ifaces[k].1|
    ensures ifaces[k].1[j] in AllEntries(ifaces)
    decreases k
  {
    if k > 0 {
      AllEntriesHas(ifaces[1..], k - 1, j);
    }
  }

  /** A priority interface that was found has a qualifying entry with that address. */
  lemma {:induction false} FromPriorityQualifies(ifaces: Interfaces, names: seq<string>)
    ensures FromPriority(ifaces, names).Some? ==>
      exists e :: e in AllEntries(ifaces) && Qualifies(e) && e.address == FromPriority(ifaces, names).value
    decreases |names|
  {
    if names != [] {
      var l := Lookup(ifaces, names[0]);
      if l.Some? && FirstQualifying(l.value).Some? {
        var k := TailIndex(ifaces, names[0], l);
        var j :| 0 <= j < |l.value| && Qualifies(l.value[j]) && l.value[j].address == FirstQualifying(l.value).value;
        AllEntriesHas(ifaces, k, j);
      } else {
        FromPriorityQualifies(ifaces, names[1..]);
      }
    }
  }

  /** "localhost" is the answer exactly when no entry of any interface qualifies, unless a
      qualifying entry is itself called "localhost"; otherwise the answer is the address of a
      qualifying entry. */
  lemma ChooseAddressQualifies(ifaces: Interfaces)
    ensures (forall e :: e in AllEntries(ifaces) ==> !Qualifies(e)) ==> ChooseAddress(ifaces) == LOCALHOST
    ensures (exists e :: e in AllEntries(ifaces) && Qualifies(e)) ==>
      exists e :: e in AllEntries(ifaces) && Qualifies(e) && e.address == ChooseAddress(ifaces)
  {
    FromPriorityQualifies(ifaces, PRIORITY);
    FromAllIsFirstOverall(ifaces);
    var all := AllEntries(ifaces);
    if FromPriority(ifaces, PRIORITY).None? && FromAll(ifaces).Some? {
      var j :| 0 <= j < |all| && Qualifies(all[j]) && all[j].address == FromAll(ifaces).value;
      assert all[j] in all;
    }
    if exists e :: e in all && Qualifies(e) {
      var e :| e in all && Qualifies(e);
      var j :| 0 <= j < |all| && all[j] == e;
      assert FirstQualifying(all).Some?;
    }
  }

  /** A priority interface with a qualifying entry wins over every interface later in the
      priority list and over every other interface, however they are ordered. */
  lemma PriorityWins(ifaces: Interfaces, k: nat, entries: seq<NetAddress>)
    requires k < |PRIORITY|
    requires forall m :: 0 <= m < k ==> FromPriority(ifaces, [PRIORITY[m]]).None?
    requires Lookup(ifaces, PRIORITY[k]) == Some(entries) && FirstQualifying(entries).Some?
    ensures ChooseAddress(ifaces) == FirstQualifying(entries).value
  {
    PriorityPrefix(ifaces, PRIORITY, k);
  }

  lemma {:induction false} PriorityPrefix(ifaces: Interfaces, names: seq<string>, k: nat)
    requires k < |names|
    requires forall m :: 0 <= m < k ==> FromPriority(ifaces, [names[m]]).None?
    requires Lookup(ifaces, names[k]).Some? && FirstQualifying(Lookup(ifaces, names[k]).value).Some?
    ensures FromPriority(ifaces, names) == FirstQualifying(Lookup(ifaces, names[k]).value)
    decreases k
  {
    if k > 0 {
      assert FromPriority(ifaces, [names[0]]).None?;
      assert [names[0]][1..] == [];
      assert forall m :: 0 <= m < k - 1 ==> names[1..][m] == names[m + 1];
      PriorityPrefix(ifaces, names[1..], k - 1);
    }
  }

  /** `process.env.PORT || 3001`. */
  function Port(env: Option<string>): string {
    if env.Some? && env.value != "" then env.value else DEFAULT_PORT
  }

  /** `http://${ip}:${port}`. */
  function ApiUrl(ip: string, port: string): string {
    "http://" + ip + ":" + port
  }

  /** Host and port read back from a URL written by `ApiUrl`. */
  function HostAndPort(url: string): Option<(string, string)> {
    if |url| < 7 || url[..7] != "http://" then None
    else
      var parts := Split(url[7..], ':');
      if |parts| == 2 then Some((parts[0], parts[1])) else None
  }

  /** An IPv4 address or "localhost" has no colon, and then the URL gives back its host and
      port. */
  lemma ApiUrlReadsBack(ip: string, port: string)
    requires ':' !in ip && ':' !in port
    ensures HostAndPort(ApiUrl(ip, port)) == Some((ip, port))
  {
    var url := ApiUrl(ip, port);
    assert url[..7] == "http://";
    assert url[7..] == ip + [':'] + port;
    SplitAtFirst(ip, port, ':');
    SplitNoSeparator(port, ':');
  }

  /** `API_CONFIGS` of the generated module. */
  datatype ApiConfigs = ApiConfigs(autoDetected: string, localhost: string, manualOverride: string)

  /** `getApiUrl` of the generated module. */
  function GetApiUrl(c: ApiConfigs): string
  {
    if c.manualOverride != "" then c.manualOverride else c.autoDetected
  }

  /** The generated module's constants and the script's return value (the config path is left
      out). */
  datatype Generated = Generated(
    ipAddress: string,
    port: string,
    apiUrl: string,
    apiBaseUrl: string,
    configs: ApiConfigs)

  function GenerateApiConfig(ifaces: Interfaces, env: Option<string>): Generated {
    var ip := ChooseAddress(ifaces);
    var port := Port(env);
    Generated(ip, port, ApiUrl(ip, port), ApiUrl(ip, port),
              ApiConfigs(ApiUrl(ip, port), ApiUrl(LOCALHOST, port), ""))
  }

  /** As generated, `getApiUrl` is `API_BASE_URL`, the auto-detected URL the script returns;
      an address-less machine gets the localhost URL; the port is 3001 unless `PORT` is set. */
  lemma GeneratedConfigAgrees(ifaces: Interfaces, env: Option<string>)
    ensures var g := GenerateApiConfig(ifaces, env);
      && GetApiUrl(g.configs) == g.apiBaseUrl == g.apiUrl == g.configs.autoDetected
      && g.ipAddress == ChooseAddress(ifaces)
      && (g.ipAddress == LOCALHOST ==> g.apiUrl == g.configs.localhost)
      && (env.None? || env.value == "" ==> g.port == DEFAULT_PORT)
      && (env.Some? && env.value != "" ==> g.port == env.value)
  {
  }

  /** The URL the generated `getApiUrl` gives points at the address the script chose and at
      `PORT` or 3001, and at `localhost` when no interface qualifies. IPv4 addresses carry no
      colon. */
  lemma GeneratedUrlPointsAtAddress(ifaces: Interfaces, env: Option<string>)
    requires forall e :: e in AllEntries(ifaces) && Qualifies(e) ==> ':' !in e.address
    requires env.None? || ':' !in env.value
    ensures var url := GetApiUrl(GenerateApiConfig(ifaces, env).configs);
      && HostAndPort(url) == Some((ChooseAddress(ifaces), Port(env)))
      && ((forall e :: e in AllEntries(ifaces) ==> !Qualifies(e)) ==>
            HostAndPort(url) == Some((LOCALHOST, Port(env))))
  {
    ChooseAddressQualifies(ifaces);
    var ip := ChooseAddress(ifaces);
    if exists e :: e in AllEntries(ifaces) && Qualifies(e) {
      var e :| e in AllEntries(ifaces) && Qualifies(e) && e.address == ip;
    } else {
      assert ip == LOCALHOST;
      assert forall i :: 0 <= i < |LOCALHOST| ==> LOCALHOST[i] != ':';
    }
    assert ':' !in Port(env) by {
      if env.None? || env.value == "" {
        assert forall i :: 0 <= i < |DEFAULT_PORT| ==> DEFAULT_PORT[i] != ':';
      }
    }
    ApiUrlReadsBack(ip, Port(env));
  }
}

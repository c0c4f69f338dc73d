/** The settings-derivation part of `Config.__init__` (fgfw-lite/config.py
    lines 36-153) and the objects it updates in place: the parsed user
    configuration, whose `parents` section loses marked entries, and the
    Config object, whose registrations and host table grow step by step. */
module Config {
  import opened Wrappers
  import opened PyStr
  import opened Listen
  import opened Region
  import opened Hosts
  import opened Parents
  import opened Dns

  /** The options of `userconf.ini` that the derivation reads; an absent
      option is None and `dget` then supplies the default. */
  datatype Options = Options(
    listen: Option<string>,        // fgfwproxy/listen
    region: Option<string>,        // fgfwproxy/region
    parentproxy: Option<string>,   // fgfwproxy/parentproxy
    rproxy: bool,                  // fgfwproxy/rproxy, already read as a bool
    localdns: Option<string>,      // dns/localdns
    remotedns: Option<string>,     // dns/remotedns
    hosts: seq<(string, string)>)  // the items of section hosts: (host, ip)

  /** The parsed `userconf.ini`. Only the `parents` section changes here;
      `saves` counts the `confsave` calls that write the file back. */
  class UserConf {
    const options: Options
    var parents: seq<(string, string)>
    var saves: nat

    constructor (options: Options, parents: seq<(string, string)>)
      ensures this.options == options && this.parents == parents && saves == 0
    {
      this.options := options;
      this.parents := parents;
      saves := 0;
    }

    /** `remove_option('parents', key)`. */
    method RemoveOption(key: string)
      modifies this`parents
      ensures parents == RemoveKeys(old(parents), {key})
    {
      parents := RemoveKeys(parents, {key});
    }
  }

  /** Why `Config.__init__` raises. */
  datatype InitError =
    | ListenFailed(reason: ListenError)   // lines 52-53
    | HostFailed(ip: string)              // line 138, reached from line 141

  class Config {
    var rproxy: bool
    var listen: Address
    var region: set<string>
    /** The registrations passed to `ParentProxyList.addstr`, in order. */
    var parentlist: seq<Registration>
    var noParentWarning: bool
    var hosts: HostTable
    /** The hosts-file lines logged as unusable, in order. */
    var hostsWarnings: seq<string>
    var dns: DnsChoice

    /** Lines 44-45: an empty registry and an empty host table. */
    constructor ()
      ensures parentlist == [] && hosts == map[] && hostsWarnings == []
    {
      parentlist := [];
      hosts := map[];
      hostsWarnings := [];
    }

    /** `addparentproxy(name, proxy)`: the registry records one more entry. */
    method AddParentProxy(name: string, proxy: string)
      modifies this`parentlist
      ensures parentlist == old(parentlist) + [(name, proxy)]
    {
      parentlist := parentlist + [(name, proxy)];
    }

    /** `confsave()`: the configuration is written back once more. */
    method ConfSave(uc: UserConf)
      modifies uc`saves
      ensures uc.saves == old(uc.saves) + 1
    {
      uc.saves := uc.saves + 1;
    }

    /** Lines 110-114: `direct` through the upstream proxy and `local` as a
        plain connection when `parentproxy` is set, else `direct` alone. */
    method RegisterInitial(parentproxy: string)
      modifies this`parentlist
      ensures parentlist == old(parentlist) + InitialRegistrations(parentproxy)
    {
      if parentproxy != "" {
        AddParentProxy("direct", parentproxy + " 0");
        AddParentProxy("local", "direct 100");
      } else {
        AddParentProxy("direct", "direct 0");
      }
    }

    /** Lines 110-123: the initial registrations, then the `parents` loop
        over a snapshot of the section, dropping (and saving without) every
        entry whose value holds the marker and registering the rest. */
    method RegisterParents(uc: UserConf)
      modifies this`parentlist, uc`parents, uc`saves
      ensures parentlist == old(parentlist) + Plan(uc.options.parentproxy.GetOr(""), old(uc.parents))
      ensures uc.parents == RemoveKeys(old(uc.parents), MarkedKeys(old(uc.parents)))
      ensures uc.saves == old(uc.saves) + |old(uc.parents)| - |Kept(old(uc.parents))|
    {
      RegisterInitial(uc.options.parentproxy.GetOr(""));
      ghost var start := parentlist;
      var items := uc.parents;
      var i := 0;
      RemoveKeysNone(items);
      while i < |items|
        invariant 0 <= i <= |items|
        invariant parentlist == start + Kept(items[..i])
        invariant uc.parents == RemoveKeys(items, MarkedKeys(items[..i]))
        invariant uc.saves == old(uc.saves) + i - |Kept(items[..i])|
        invariant |Kept(items[..i])| <= i
      {
        var (k, v) := items[i];
        if HasMarker(v) {
          PrefixStepMarked(items, i);
          uc.RemoveOption(k);
          ConfSave(uc);
        } else {
          PrefixStepKept(items, i);
          AddParentProxy(k, v);
        }
        i := i + 1;
      }
      assert items[..i] == items;
    }

    /** One `addhost(host, ip)` call with the address classified as `kind`;
        false when it raises. */
    method AddHost(host: string, ip: string, kind: IpKind) returns (ok: bool)
      modifies this`hosts
      ensures ok <==> kind != Invalid
      ensures ok ==> hosts == Hosts.AddHost(old(hosts), host, ip, kind).value
      ensures !ok ==> hosts == old(hosts)
    {
      if kind == Invalid {
        return false;
      }
      var entry := HostEntry(Priority(kind), ip);
      var list := if host in hosts then hosts[host] else [];
      hosts := hosts[host := list + [entry]];
      return true;
    }

    /** Lines 140-141: the `hosts` section in order; the first invalid
        address stops the loop with an error. */
    method LoadSettingsHosts(items: seq<(string, string)>, classify: string -> IpKind) returns (failure: Option<string>)
      modifies this`hosts
      ensures hosts == SettingsLoad(old(hosts), items, classify).table
      ensures failure == SettingsLoad(old(hosts), items, classify).failure
    {
      var i := 0;
      while i < |items|
        invariant 0 <= i <= |items|
        invariant SettingsLoad(old(hosts), items[..i], classify) == Loaded(hosts, None)
      {
        var (host, ip) := items[i];
        assert items[..i + 1][..i] == items[..i];
        var ok := AddHost(host, ip, classify(ip));
        if !ok {
          SettingsLoadSticky(old(hosts), items, i + 1, classify);
          return Some(ip);
        }
        i := i + 1;
      }
      assert items[..i] == items;
      return None;
    }

    /** Lines 143-151: each hosts-file line is read (ParseHostsLine); blank
        and comment lines are passed over; a line that is not `ip host`, or
        whose address is invalid, is logged and passed over. */
    method LoadHostsFile(lines: seq<string>, classify: string -> IpKind)
      modifies this`hosts, this`hostsWarnings
      ensures hosts == FileTable(old(hosts), lines, classify)
      ensures hostsWarnings == old(hostsWarnings) + FileWarnings(lines, classify)
    {
      var i := 0;
      while i < |lines|
        invariant 0 <= i <= |lines|
        invariant hosts == FileTable(old(hosts), lines[..i], classify)
        invariant hostsWarnings == old(hostsWarnings) + FileWarnings(lines[..i], classify)
      {
        FileStep(old(hosts), lines, i, classify);
        match ParseHostsLine(lines[i]) {
          case Ignored =>
          case Malformed =>
            hostsWarnings := hostsWarnings + [Strip(lines[i])];
          case Pair(ip, host) =>
            var ok := AddHost(host, ip, classify(ip));
            if !ok {
              hostsWarnings := hostsWarnings + [Strip(lines[i])];
            }
        }
        i := i + 1;
      }
      assert lines[..i] == lines;
    }

    /** Lines 140-151: the settings section, then, when the settings
        loaded and the hosts file exists, its lines. */
    method LoadHosts(items: seq<(string, string)>, hostsFile: Option<seq<string>>, classify: string -> IpKind)
      returns (failure: Option<string>)
      modifies this`hosts, this`hostsWarnings
      ensures var loaded := SettingsLoad(old(hosts), items, classify);
              && failure == loaded.failure
              && (failure.Some? ==> hosts == loaded.table && hostsWarnings == old(hostsWarnings))
              && (failure.None? && hostsFile.None? ==> hosts == loaded.table && hostsWarnings == old(hostsWarnings))
              && (failure.None? && hostsFile.Some? ==>
                    && hosts == FileTable(loaded.table, hostsFile.value, classify)
                    && hostsWarnings == old(hostsWarnings) + FileWarnings(hostsFile.value, classify))
    {
      failure := LoadSettingsHosts(items, classify);
      if failure.None? && hostsFile.Some? {
        LoadHostsFile(hostsFile.value, classify);
      }
    }

    /** Lines 106-126: the region set, the parent registrations and their
        warning. */
    method DeriveRegistry(uc: UserConf, httpsView: seq<Registration> -> seq<int>)
      modifies this`region, this`parentlist, this`noParentWarning, uc`parents, uc`saves
      ensures region == RegionSet(uc.options.region.GetOr(""))
      ensures parentlist == old(parentlist) + Plan(uc.options.parentproxy.GetOr(""), old(uc.parents))
      ensures uc.parents == RemoveKeys(old(uc.parents), MarkedKeys(old(uc.parents)))
      ensures uc.saves == old(uc.saves) + |old(uc.parents)| - |Kept(old(uc.parents))|
      ensures noParentWarning == NoParentAvailable(rproxy, httpsView(parentlist))
    {
      region := RegionSet(uc.options.region.GetOr(""));
      RegisterParents(uc);
      noParentWarning := NoParentAvailable(rproxy, httpsView(parentlist));
    }

    /** Lines 106-153, once the listen address is known: the region set,
        the parent registrations and their warning, the host table and the
        DNS servers. */
    method Derive(uc: UserConf, hostsFile: Option<seq<string>>, classify: string -> IpKind,
                  httpsView: seq<Registration> -> seq<int>) returns (err: Option<InitError>)
      modifies this`region, this`parentlist, this`noParentWarning, this`hosts, this`hostsWarnings, this`dns
      modifies uc`parents, uc`saves
      ensures region == RegionSet(uc.options.region.GetOr(""))
      ensures parentlist == old(parentlist) + Plan(uc.options.parentproxy.GetOr(""), old(uc.parents))
      ensures uc.parents == RemoveKeys(old(uc.parents), MarkedKeys(old(uc.parents)))
      ensures uc.saves == old(uc.saves) + |old(uc.parents)| - |Kept(old(uc.parents))|
      ensures noParentWarning == NoParentAvailable(rproxy, httpsView(parentlist))
      ensures var loaded := SettingsLoad(old(hosts), uc.options.hosts, classify);
              && (loaded.failure.Some? ==>
                    err == Some(HostFailed(loaded.failure.value)) && hosts == loaded.table
                    && hostsWarnings == old(hostsWarnings) && dns == old(dns))
              && (loaded.failure.None? ==>
                    && err == None
                    && hosts == (if hostsFile.Some? then FileTable(loaded.table, hostsFile.value, classify) else loaded.table)
                    && hostsWarnings == old(hostsWarnings) + (if hostsFile.Some? then FileWarnings(hostsFile.value, classify) else [])
                    && dns == SelectDns(rproxy, uc.options.localdns, uc.options.remotedns))
    {
      DeriveRegistry(uc, httpsView);
      var failure := LoadHosts(uc.options.hosts, hostsFile, classify);
      if failure.Some? {
        return Some(HostFailed(failure.value));
      }
      dns := SelectDns(rproxy, uc.options.localdns, uc.options.remotedns);
      return None;
    }

    /** Lines 47-153 of `Config.__init__`, without the parts that touch the
        network, the file system or the log. The hosts file is its lines, or
        None when it does not exist; `classify` stands for the address
        library and `httpsView` for the priorities of the https parents the
        registry reports for the registrations made. */
    method Init(uc: UserConf, hostsFile: Option<seq<string>>, classify: string -> IpKind,
                httpsView: seq<Registration> -> seq<int>) returns (err: Option<InitError>)
      requires parentlist == [] && hosts == map[] && hostsWarnings == []
      modifies this, uc`parents, uc`saves
      ensures rproxy == uc.options.rproxy
      ensures ListenSetting(uc.options.listen).Err? ==>
                && err == Some(ListenFailed(ListenSetting(uc.options.listen).error))
                && listen == old(listen) && region == old(region)
                && parentlist == [] && noParentWarning == old(noParentWarning)
                && hosts == map[] && hostsWarnings == [] && dns == old(dns)
                && uc.parents == old(uc.parents) && uc.saves == old(uc.saves)
      ensures ListenSetting(uc.options.listen).Ok? ==>
                && listen == ListenSetting(uc.options.listen).value
                && region == RegionSet(uc.options.region.GetOr(""))
                && parentlist == Plan(uc.options.parentproxy.GetOr(""), old(uc.parents))
                && uc.parents == RemoveKeys(old(uc.parents), MarkedKeys(old(uc.parents)))
                && uc.saves == old(uc.saves) + |old(uc.parents)| - |Kept(old(uc.parents))|
                && noParentWarning == NoParentAvailable(rproxy, httpsView(parentlist))
      ensures ListenSetting(uc.options.listen).Ok? ==>
                var loaded := SettingsLoad(map[], uc.options.hosts, classify);
                && (loaded.failure.Some? ==>
                      && err == Some(HostFailed(loaded.failure.value))
                      && hosts == loaded.table && hostsWarnings == [] && dns == old(dns))
                && (loaded.failure.None? ==>
                      && err == None
                      && hosts == (if hostsFile.Some? then FileTable(loaded.table, hostsFile.value, classify) else loaded.table)
                      && hostsWarnings == (if hostsFile.Some? then FileWarnings(hostsFile.value, classify) else [])
                      && dns == SelectDns(rproxy, uc.options.localdns, uc.options.remotedns))
    {
      rproxy := uc.options.rproxy;
      var parsed := ListenSetting(uc.options.listen);
      if parsed.Err? {
        return Some(ListenFailed(parsed.error));
      }
      listen := parsed.value;
      err := Derive(uc, hostsFile, classify, httpsView);
    }
  }
}

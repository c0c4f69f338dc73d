/** The host-override table `HOSTS` (fgfw-lite/config.py lines 130-151):
    for each host name, the pinned addresses in load order, each with the
    priority of its address family. The functions here say what the table
    becomes; the loops that build it in place are in module Config. */
module Hosts {
  import opened Wrappers
  import opened PyStr

  /** What the address library makes of a text: an IPv4 address, an IPv6
      address, or no address (it raises ValueError). */
  datatype IpKind = V4 | V6 | Invalid

  /** One pinned address: `(priority, ip)`. */
  datatype HostEntry = HostEntry(priority: int, ip: string)

  type HostTable = map<string, seq<HostEntry>>

  const V4Priority: int := 2
  const V6Priority: int := 10

  function Priority(kind: IpKind): int
    requires kind != Invalid
  {
    if kind == V4 then V4Priority else V6Priority
  }

  /** `HOSTS[host]` of the defaultdict: the empty list for an unknown host. */
  function Lookup(t: HostTable, host: string): seq<HostEntry> {
    if host in t then t[host] else []
  }

  /** Every list is non-empty and every entry carries the priority of its
      address's family, as `addhost` writes them. */
  ghost predicate WellFormed(t: HostTable, classify: string -> IpKind) {
    forall h :: h in t ==>
      && t[h] != []
      && forall i :: 0 <= i < |t[h]| ==>
           classify(t[h][i].ip) != Invalid && t[h][i].priority == Priority(classify(t[h][i].ip))
  }

  /** `addhost(host, ip)` with the address classified as `kind`: the entry is
      appended to that host's list and no other list changes. An invalid
      address makes the source reach `self.logging`, an attribute Config
      does not have, so it raises; here None, the table untouched. */
  function AddHost(t: HostTable, host: string, ip: string, kind: IpKind): (r: Option<HostTable>)
    ensures r.None? <==> kind == Invalid
    ensures r.Some? ==> Lookup(r.value, host) == Lookup(t, host) + [HostEntry(Priority(kind), ip)]
    ensures r.Some? ==> forall h :: h != host ==> Lookup(r.value, h) == Lookup(t, h)
    ensures r.Some? ==> r.value.Keys == t.Keys + {host}
  {
    if kind == Invalid then None
    else Some(t[host := Lookup(t, host) + [HostEntry(Priority(kind), ip)]])
  }

  lemma AddHostWellFormed(t: HostTable, host: string, ip: string, classify: string -> IpKind)
    requires WellFormed(t, classify)
    ensures AddHost(t, host, ip, classify(ip)).Some? ==>
              WellFormed(AddHost(t, host, ip, classify(ip)).value, classify)
  {
  }

  // ---------------------------------------------------------------- settings section

  /** The table after the settings loop, and the address that stopped it. */
  datatype Loaded = Loaded(table: HostTable, failure: Option<string>)

  /** The loop over the `hosts` section: each item's address is added for
      its host in order, until the first invalid address, whose exception
      ends the loop and `Config.__init__`. */
  function SettingsLoad(t: HostTable, items: seq<(string, string)>, classify: string -> IpKind): Loaded
    decreases |items|
  {
    if items == [] then Loaded(t, None)
    else
      var prev := SettingsLoad(t, items[..|items| - 1], classify);
      var (host, ip) := items[|items| - 1];
      if prev.failure.Some? then prev
      else match AddHost(prev.table, host, ip, classify(ip))
        case Some(t') => Loaded(t', None)
        case None => Loaded(prev.table, Some(ip))
  }

  /** What the settings section pins for `host`, in order. Meaningful when
      no address there is invalid. */
  function SettingsEntriesFor(items: seq<(string, string)>, host: string, classify: string -> IpKind): seq<HostEntry>
    decreases |items|
  {
    if items == [] then []
    else
      var (h, ip) := items[|items| - 1];
      SettingsEntriesFor(items[..|items| - 1], host, classify)
        + if h == host && classify(ip) != Invalid then [HostEntry(Priority(classify(ip)), ip)] else []
  }

  /** Once an item has failed, later items change nothing. */
  lemma {:induction false} SettingsLoadSticky(t: HostTable, items: seq<(string, string)>, k: nat, classify: string -> IpKind)
    requires k <= |items|
    requires SettingsLoad(t, items[..k], classify).failure.Some?
    ensures SettingsLoad(t, items, classify) == SettingsLoad(t, items[..k], classify)
  {
    if k < |items| {
      assert items[..|items| - 1][..k] == items[..k];
      SettingsLoadSticky(t, items[..|items| - 1], k, classify);
    } else {
      assert items[..k] == items;
    }
  }

  /** The settings loop fails exactly when some address there is invalid. */
  lemma {:induction false} SettingsLoadFails(t: HostTable, items: seq<(string, string)>, classify: string -> IpKind)
    ensures SettingsLoad(t, items, classify).failure.Some? <==>
              exists i :: 0 <= i < |items| && classify(items[i].1) == Invalid
  {
    if items != [] {
      var pre := items[..|items| - 1];
      var last := |items| - 1;
      SettingsLoadFails(t, pre, classify);
      if SettingsLoad(t, pre, classify).failure.Some? {
        var i :| 0 <= i < |pre| && classify(pre[i].1) == Invalid;
        assert items[i] == pre[i];
      } else if classify(items[last].1) == Invalid {
        assert SettingsLoad(t, items, classify).failure.Some?;
      } else {
        assert SettingsLoad(t, items, classify).failure.None?;
        forall i | 0 <= i < |items| ensures classify(items[i].1) != Invalid {
          if i < last {
            assert items[i] == pre[i];
          }
        }
      }
    }
  }

  /** A failed settings loop reports the first invalid address. */
  lemma {:induction false} SettingsLoadFirstInvalid(t: HostTable, items: seq<(string, string)>, classify: string -> IpKind)
    requires SettingsLoad(t, items, classify).failure.Some?
    ensures exists i :: 0 <= i < |items| && classify(items[i].1) == Invalid
              && SettingsLoad(t, items, classify).failure.value == items[i].1
              && forall j :: 0 <= j < i ==> classify(items[j].1) != Invalid
  {
    var pre := items[..|items| - 1];
    var last := |items| - 1;
    if SettingsLoad(t, pre, classify).failure.Some? {
      SettingsLoadFirstInvalid(t, pre, classify);
      var i :| 0 <= i < |pre| && classify(pre[i].1) == Invalid
               && SettingsLoad(t, pre, classify).failure.value == pre[i].1
               && forall j :: 0 <= j < i ==> classify(pre[j].1) != Invalid;
      assert items[i] == pre[i];
      forall j | 0 <= j < i ensures classify(items[j].1) != Invalid {
        assert items[j] == pre[j];
      }
    } else {
      SettingsLoadFails(t, pre, classify);
      assert classify(items[last].1) == Invalid;
      forall j | 0 <= j < last ensures classify(items[j].1) != Invalid {
        assert items[j] == pre[j];
      }
    }
  }

  /** After a successful settings loop each host's list is its old list
      followed by its settings entries in order. */
  lemma {:induction false} SettingsLoadLookup(t: HostTable, items: seq<(string, string)>, host: string, classify: string -> IpKind)
    requires SettingsLoad(t, items, classify).failure.None?
    ensures Lookup(SettingsLoad(t, items, classify).table, host) == Lookup(t, host) + SettingsEntriesFor(items, host, classify)
  {
    if items != [] {
      SettingsLoadLookup(t, items[..|items| - 1], host, classify);
    }
  }

  lemma {:induction false} SettingsLoadWellFormed(t: HostTable, items: seq<(string, string)>, classify: string -> IpKind)
    requires WellFormed(t, classify)
    ensures WellFormed(SettingsLoad(t, items, classify).table, classify)
  {
    if items != [] {
      var pre := items[..|items| - 1];
      SettingsLoadWellFormed(t, pre, classify);
      var (host, ip) := items[|items| - 1];
      AddHostWellFormed(SettingsLoad(t, pre, classify).table, host, ip, classify);
    }
  }

  // ---------------------------------------------------------------- hosts file

  /** A hosts-file line after `line.strip()`: blank or `#` comment (ignored
      silently), not exactly two whitespace-separated tokens (ValueError from
      the tuple unpacking, logged), or `ip host`. */
  datatype HostsLine = Ignored | Malformed | Pair(ip: string, host: string)

  function ParseHostsLine(line: string): HostsLine {
    var s := Strip(line);
    if s == [] || StartsWith(s, "#") then Ignored
    else
      var tokens := SplitWs(s);
      if |tokens| == 2 then Pair(tokens[0], tokens[1]) else Malformed
  }

  /** A line is ignored exactly when it is blank or, once stripped, starts
      with `#`; any other line is malformed exactly when it does not hold
      two whitespace-separated tokens; a pair is the stripped line's two
      tokens in order, with whitespace between them. */
  lemma ParseHostsLineSpec(line: string)
    ensures ParseHostsLine(line) == Ignored <==> AllSpace(line) || StartsWith(Strip(line), "#")
    ensures ParseHostsLine(line) == Malformed <==>
              !AllSpace(line) && !StartsWith(Strip(line), "#") && |SplitWs(Strip(line))| != 2
    ensures ParseHostsLine(line).Pair? ==>
              var p := ParseHostsLine(line);
              && p.ip != [] && NoSpace(p.ip) && p.host != [] && NoSpace(p.host)
              && exists w :: w != [] && AllSpace(w) && Strip(line) == p.ip + w + p.host
  {
    StripSpec(line);
    SplitWsTokens(Strip(line));
    if ParseHostsLine(line).Pair? {
      var w := SplitWsPair(Strip(line));
    }
  }

  /** `ip<whitespace>host`, padded with whitespace, is read as that pair. */
  lemma HostsLinePair(w1: string, ip: string, w: string, host: string, w2: string)
    requires AllSpace(w1) && AllSpace(w2) && w != [] && AllSpace(w)
    requires ip != [] && NoSpace(ip) && host != [] && NoSpace(host)
    requires ip[0] != '#'
    ensures ParseHostsLine(w1 + ip + w + host + w2) == Pair(ip, host)
  {
    var core := ip + w + host;
    assert w1 + ip + w + host + w2 == w1 + core + w2;
    assert core[0] == ip[0] && core[|core| - 1] == host[|host| - 1];
    StripPadded(w1, core, w2);
    SplitWsTwo(ip, w, host);
  }

  /** A line logs a warning when it is malformed or its address is invalid. */
  predicate Warns(parsed: HostsLine, classify: string -> IpKind) {
    match parsed
    case Ignored => false
    case Malformed => true
    case Pair(ip, _) => classify(ip) == Invalid
  }

  /** One iteration of the hosts-file loop on a parsed line; both exceptions
      are caught there and the table is left as it was. */
  function LineStep(t: HostTable, parsed: HostsLine, classify: string -> IpKind): (r: HostTable)
    ensures parsed.Pair? && classify(parsed.ip) != Invalid ==>
              r == AddHost(t, parsed.host, parsed.ip, classify(parsed.ip)).value
    ensures Warns(parsed, classify) || parsed == Ignored ==> r == t
  {
    match parsed
    case Pair(ip, host) =>
      (match AddHost(t, host, ip, classify(ip))
       case Some(t') => t'
       case None => t)
    case _ => t
  }

  /** The table after the hosts-file loop over `lines`. */
  function FileTable(t: HostTable, lines: seq<string>, classify: string -> IpKind): HostTable
    decreases |lines|
  {
    if lines == [] then t
    else LineStep(FileTable(t, lines[..|lines| - 1], classify), ParseHostsLine(lines[|lines| - 1]), classify)
  }

  /** The stripped lines the hosts-file loop warns about, in order. */
  function FileWarnings(lines: seq<string>, classify: string -> IpKind): seq<string>
    decreases |lines|
  {
    if lines == [] then []
    else
      var last := lines[|lines| - 1];
      FileWarnings(lines[..|lines| - 1], classify)
        + if Warns(ParseHostsLine(last), classify) then [Strip(last)] else []
  }

  /** The loop's view of one more line. */
  lemma FileStep(t: HostTable, lines: seq<string>, i: nat, classify: string -> IpKind)
    requires i < |lines|
    ensures FileTable(t, lines[..i + 1], classify) == LineStep(FileTable(t, lines[..i], classify), ParseHostsLine(lines[i]), classify)
    ensures FileWarnings(lines[..i + 1], classify) == FileWarnings(lines[..i], classify)
              + if Warns(ParseHostsLine(lines[i]), classify) then [Strip(lines[i])] else []
  {
    assert lines[..i + 1][..i] == lines[..i];
  }

  /** What one parsed line pins for `host`. */
  function EntryFor(parsed: HostsLine, host: string, classify: string -> IpKind): seq<HostEntry> {
    match parsed
    case Pair(ip, h) =>
      if h == host && classify(ip) != Invalid then [HostEntry(Priority(classify(ip)), ip)] else []
    case _ => []
  }

  /** What the hosts file pins for `host`, in order. */
  function FileEntriesFor(lines: seq<string>, host: string, classify: string -> IpKind): seq<HostEntry>
    decreases |lines|
  {
    if lines == [] then []
    else FileEntriesFor(lines[..|lines| - 1], host, classify) + EntryFor(ParseHostsLine(lines[|lines| - 1]), host, classify)
  }

  lemma LineStepLookup(t: HostTable, parsed: HostsLine, host: string, classify: string -> IpKind)
    ensures Lookup(LineStep(t, parsed, classify), host) == Lookup(t, host) + EntryFor(parsed, host, classify)
  {
  }

  /** After the hosts-file loop each host's list is its old list followed by
      the file's entries for it in line order. */
  lemma {:induction false} FileTableLookup(t: HostTable, lines: seq<string>, host: string, classify: string -> IpKind)
    ensures Lookup(FileTable(t, lines, classify), host) == Lookup(t, host) + FileEntriesFor(lines, host, classify)
  {
    if lines != [] {
      var pre := lines[..|lines| - 1];
      var parsed := ParseHostsLine(lines[|lines| - 1]);
      var prev := FileTable(t, pre, classify);
      assert FileTable(t, lines, classify) == LineStep(prev, parsed, classify);
      assert FileEntriesFor(lines, host, classify) == FileEntriesFor(pre, host, classify) + EntryFor(parsed, host, classify);
      FileTableLookup(t, pre, host, classify);
      LineStepLookup(prev, parsed, host, classify);
    }
  }

  /** Lines that are ignored or warned about leave the table as it was. */
  lemma {:induction false} FileTableSkipped(t: HostTable, lines: seq<string>, classify: string -> IpKind)
    requires forall i :: 0 <= i < |lines| ==>
               Warns(ParseHostsLine(lines[i]), classify) || ParseHostsLine(lines[i]) == Ignored
    ensures FileTable(t, lines, classify) == t
  {
    if lines != [] {
      FileTableSkipped(t, lines[..|lines| - 1], classify);
    }
  }

  lemma {:induction false} FileTableWellFormed(t: HostTable, lines: seq<string>, classify: string -> IpKind)
    requires WellFormed(t, classify)
    ensures WellFormed(FileTable(t, lines, classify), classify)
  {
    if lines != [] {
      var pre := FileTable(t, lines[..|lines| - 1], classify);
      FileTableWellFormed(t, lines[..|lines| - 1], classify);
      match ParseHostsLine(lines[|lines| - 1])
      case Pair(ip, host) => AddHostWellFormed(pre, host, ip, classify);
      case _ =>
    }
  }

  /** Load order: starting from the empty table, a successful settings loop
      followed by the hosts-file loop leaves each host with its settings
      entries first and its hosts-file entries after, each in source order. */
  lemma LoadOrder(items: seq<(string, string)>, lines: seq<string>, host: string, classify: string -> IpKind)
    requires SettingsLoad(map[], items, classify).failure.None?
    ensures Lookup(FileTable(SettingsLoad(map[], items, classify).table, lines, classify), host)
            == SettingsEntriesFor(items, host, classify) + FileEntriesFor(lines, host, classify)
  {
    SettingsLoadLookup(map[], items, host, classify);
    FileTableLookup(SettingsLoad(map[], items, classify).table, lines, host, classify);
  }
}

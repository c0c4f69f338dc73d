# fgfw-lite settings derivation, in Dafny

FW-Lite is a local HTTP proxy. When it starts, `Config.__init__` in
`fgfw-lite/config.py` reads the user configuration `userconf.ini` and derives
the proxy's runtime settings from it. This project models that derivation:

- the listen address, from a bare port number or `host:port`;
- the set of region codes;
- the parent proxies registered with the parent registry, plus the clean-up of
  `parents` entries that hold the obsolete marker `6Rc59g0jFlTppvel`;
- the "No parent proxy available!" warning;
- the host-override table `HOSTS`, loaded from the `hosts` section and then
  from the hosts file;
- the local and remote DNS servers.

## Layout

- `wrappers.dfy`: `Option` and `Result`.
- `pystr.dfy`: the Python string operations the derivation relies on.
  - `str.strip`, `str.upper`, `str.isdigit`;
  - `str.split(sep)`, `str.split()`, `str.rsplit(sep, 1)`;
  - `in` on strings, `str.startswith`;
  - `int()` on text.
- `listen.dfy`: the `listen` setting.
- `region.dfy`: the `region` setting.
- `parents.dfy`:
  - the list of registrations the parent loop produces;
  - the entries it removes;
  - the warning predicate.
- `hosts.dfy`:
  - `addhost`;
  - the table the two host-loading loops produce, as functions over the input in order.
- `dns.dfy`: the choice of DNS servers.
- `config.dfy`: the objects `Config.__init__` updates in place.
  - Class `UserConf` is the parsed configuration. Its `parents` section is rewritten and its saves are counted.
  - Class `Config` has the fields being derived.
  - Its methods run the source's loops. Each method is proved against the functions above.

## Behaviour of the source that the model keeps

- A listen value that is neither all digits nor holds a colon raises `IndexError`; the model returns `MissingPort`. A port text that is not an integer literal raises `ValueError`; the model returns `BadPort`.
- `int()` is Python 2's: the port text may have surrounding whitespace and a sign, and whitespace may follow the sign (`h:+ 80` listens on port 80).
- `addhost` catches the address library's `ValueError`, then calls `self.logging.warning`. Config has no `logging` attribute, so an invalid address raises `AttributeError` there. The two host loops behave differently because of this:
  - In the `hosts` section loop (lines 140-141) nothing catches it, so the first invalid address ends `Config.__init__`. This is `HostFailed` in the model.
  - In the hosts-file loop (lines 143-151) the `except Exception` around `addhost` catches it, so the line is logged and skipped. The same holds for a line that does not split into exactly two tokens.
- The `parents` loop iterates over a snapshot of the section taken before any removal.
  - Every marked entry is removed from the section and the file is saved once per removal.
  - When keys repeat, `remove_option` removes every entry with that key. `UserConf.parents` then becomes `RemoveKeys(old, MarkedKeys(old))`, and lemma `RemoveMarkedIsKept` shows that this is the unmarked entries when the keys are unique.
- With `rproxy` set, the remote DNS server is the local one and the `remotedns` setting is never read.

## Model

| member | source | states |
|---|---|---|
| PyStr.Strip | fgfw-lite/config.py:145 | `str.strip()`: `rstrip` of `lstrip`, each dropping the run of ASCII whitespace at its end |
| PyStr.StripLeftSpec | fgfw-lite/config.py:145 | `str.strip` from the left drops exactly the leading whitespace: the result is a suffix, everything dropped is whitespace, and it starts at a non-space character |
| PyStr.StripRightSpec | fgfw-lite/config.py:145 | the same from the right: a prefix, only trailing whitespace dropped |
| PyStr.StripSpec | fgfw-lite/config.py:145 | `strip()` is empty exactly for all-whitespace text; otherwise it neither starts nor ends with whitespace |
| PyStr.StripPadded | fgfw-lite/config.py:145 | stripping whitespace padding off a text with no outer whitespace gives the text back |
| PyStr.StripUnpadded | fgfw-lite/config.py:145 | text with no outer whitespace is its own `strip()` |
| PyStr.UpperChar | fgfw-lite/config.py:106 | a lower-case ASCII letter becomes the capital at the same alphabet position; any other character is unchanged; the result is never lower case and keeps its whitespace status |
| PyStr.Upper | fgfw-lite/config.py:106 | `upper()` upper-cases character by character: same length, each character its capital, no lower-case letter left, "all whitespace" kept, identity on text without lower case |
| PyStr.UpperIdempotent | fgfw-lite/config.py:106 | upper-casing twice is upper-casing once |
| PyStr.Split | fgfw-lite/config.py:106 | splitting at the vertical bar gives at least one piece, no piece holds the separator, and joining the pieces with it restores the text |
| PyStr.SplitNoSep | fgfw-lite/config.py:106 | text without the separator splits into itself alone |
| PyStr.SplitConcat | fgfw-lite/config.py:106 | splitting `a + sep + b` is splitting `a` followed by splitting `b` |
| PyStr.LastIndex | fgfw-lite/config.py:53 | None exactly when the character is absent, else the position of its last occurrence |
| PyStr.RSplitOnce | fgfw-lite/config.py:53 | `rsplit(':', 1)` has a second part exactly when a colon occurs; the parts then rebuild the text around the last colon |
| PyStr.RSplitOnceOf | fgfw-lite/config.py:53 | `a + ':' + b` with no colon in `b` splits into `a` and `b` |
| PyStr.SplitWs | fgfw-lite/config.py:148 | `str.split()`: the maximal runs of non-whitespace characters, in text order |
| PyStr.TokenLength | fgfw-lite/config.py:148 | the first token is no longer than the text and non-empty when the text starts with a non-space |
| PyStr.TokenLengthSpec | fgfw-lite/config.py:148 | the first token holds no whitespace and is followed by whitespace or the end |
| PyStr.SplitWsTokens | fgfw-lite/config.py:148 | `split()` gives only non-empty tokens without whitespace |
| PyStr.SplitWsEmpty | fgfw-lite/config.py:148 | `split()` finds no token exactly when the text is all whitespace |
| PyStr.SplitWsSkip | fgfw-lite/config.py:148 | leading whitespace does not change `split()` |
| PyStr.TokenLengthOf | fgfw-lite/config.py:148 | a token followed by whitespace or the end is exactly the first token |
| PyStr.SplitWsCons | fgfw-lite/config.py:148 | whitespace, a token, then the end or whitespace: that token comes first and the rest splits on its own, so no token is dropped and order is kept |
| PyStr.SplitWsPair | fgfw-lite/config.py:148 | a stripped text with exactly two tokens is the first token, some whitespace and the second token |
| PyStr.SplitWsTwo | fgfw-lite/config.py:148 | `a<whitespace>b` splits into exactly `[a, b]` |
| PyStr.IsDigits | fgfw-lite/config.py:50 | `str.isdigit()`: non-empty and only ASCII digits |
| PyStr.Contains | fgfw-lite/config.py:119 | `sub in s`: `sub` occurs at some position of `s` |
| PyStr.StartsWith | fgfw-lite/config.py:146 | `s.startswith(p)`: `p` is a prefix of `s` |
| PyStr.UpperConcat | fgfw-lite/config.py:106 | upper-casing a text joined by a vertical bar upper-cases each side and keeps the bar |
| PyStr.DecimalString | fgfw-lite/config.py:51 | the decimal numeral of `n` is all digits and denotes `n` |
| PyStr.IsIntLiteral | fgfw-lite/config.py:51-53 | what Python 2's `int()` accepts once the outer whitespace is gone: digits, or a sign, optional whitespace and digits |
| PyStr.Literal | fgfw-lite/config.py:51-53 | a literal is read exactly when it is an integer literal; a digit string is read as its value |
| PyStr.LiteralSigned | fgfw-lite/config.py:53 | a sign, optional whitespace and digits give the digits' value with that sign |
| PyStr.ParseInt | fgfw-lite/config.py:51-53 | `int()` accepts exactly the texts whose stripped form is an integer literal and raises on every other; a digit string is read as its value; blank text is refused |
| PyStr.ParseIntSigned | fgfw-lite/config.py:53 | `int('+ 80') == 80` and `int('- 80') == -80`: whitespace may follow the sign |
| PyStr.ParseIntPadded | fgfw-lite/config.py:51-53 | whitespace before and after a literal is ignored: `int(w1 + t + w2)` reads `t` as `Literal` does, so `int('  80') == 80` |
| PyStr.ParseIntDecimal | fgfw-lite/config.py:51-53 | `int()` inverts decimal printing, negative numbers included |
| Listen.ListenSetting | fgfw-lite/config.py:49-53 | the listen address from the setting, `8118` when it is absent |
| Listen.ParseListen | fgfw-lite/config.py:49-53 | a digit string binds 127.0.0.1 on that port; otherwise a missing colon is `MissingPort` and nothing else is; with a colon the value is accepted exactly when `int()` accepts the text after the last colon, which is then the port, and otherwise `BadPort` carries exactly that text |
| Listen.ListenDefault | fgfw-lite/config.py:49 | without the setting the proxy listens on 127.0.0.1:8118 |
| Listen.ListenBarePort | fgfw-lite/config.py:50-51 | any decimal port number alone binds the loopback address on that port |
| Listen.ListenHostPort | fgfw-lite/config.py:52-53 | `host:port` reads back as that host and port for every host, colons in it included |
| Listen.ListenPortPadded | fgfw-lite/config.py:53 | a blank between the colon and the port is accepted, as `int()` strips its argument |
| Listen.ListenBadPort | fgfw-lite/config.py:53 | `h:abc` raises ValueError: `BadPort("abc")` |
| Listen.ListenLastColon | fgfw-lite/config.py:53 | `a:b:8118` is host `a:b`, port 8118 |
| Listen.ListenNoColon | fgfw-lite/config.py:53 | `localhost` and the empty value raise the missing-port error |
| Region.RegionSet | fgfw-lite/config.py:106 | the upper-cased pieces between vertical bars, pieces that are only whitespace left out |
| Region.RegionCodesUpper | fgfw-lite/config.py:106 | every region code is upper case and not blank |
| Region.RegionEmpty | fgfw-lite/config.py:106 | the default empty setting gives no region |
| Region.RegionPiece | fgfw-lite/config.py:106 | a single piece gives nothing when blank, else its upper-cased self |
| Region.RegionConcat | fgfw-lite/config.py:106 | the codes of two settings joined by a vertical bar are the codes of each together |
| Region.RegionOfUpper | fgfw-lite/config.py:106 | a setting names the same regions as its upper-cased text |
| Region.RegionCaseInsensitive | fgfw-lite/config.py:106 | settings that agree after upper-casing give the same regions |
| Parents.InitialRegistrations | fgfw-lite/config.py:110-114 | with `parentproxy` set: `direct` as that proxy at priority 0 and `local` as `direct 100`; without it: `direct 0`; `direct` always comes first |
| Parents.HasMarker | fgfw-lite/config.py:119 | the value holds the marker `6Rc59g0jFlTppvel` |
| Parents.Kept | fgfw-lite/config.py:118-123 | the section entries the loop registers: those without the marker, in order |
| Parents.MarkedKeys | fgfw-lite/config.py:118-120 | the keys the loop removes: those of the marked entries |
| Parents.RemoveKeys | fgfw-lite/config.py:120 | the section without every entry whose key is in the given set, the rest in order |
| Parents.Plan | fgfw-lite/config.py:110-123 | every registration the derivation makes: the initial ones, then the kept entries |
| Parents.KeptMember | fgfw-lite/config.py:118-123 | an entry is registered by the loop exactly when it is in the section and its value lacks the marker |
| Parents.KeptAll | fgfw-lite/config.py:118-123 | without marked values every entry is registered, in order |
| Parents.PlanShape | fgfw-lite/config.py:110-123 | all registrations are the initial ones followed by exactly the unmarked section entries |
| Parents.MarkedKeysStep | fgfw-lite/config.py:119-122 | a marked entry adds its key to the removed keys and registers nothing |
| Parents.PrefixStepMarked | fgfw-lite/config.py:119-122 | removing one more marked key from the section is removing the grown key set |
| Parents.PrefixStepKept | fgfw-lite/config.py:123 | an unmarked entry removes nothing and is registered next |
| Parents.RemoveKeysNone | fgfw-lite/config.py:120 | removing no key leaves the section as it is |
| Parents.RemoveKeysStep | fgfw-lite/config.py:120 | removing keys one call at a time is removing their union |
| Parents.RemoveKeysConcat | fgfw-lite/config.py:120 | removal works entry by entry, so it distributes over concatenation |
| Parents.RemoveMarkedIsKept | fgfw-lite/config.py:118-122 | with unique keys the section after the loop holds exactly the unmarked entries, in order |
| Parents.MarkedKeysOccur | fgfw-lite/config.py:119-120 | a key no entry carries is never a marked key |
| Parents.RemoveKeysIgnores | fgfw-lite/config.py:120 | removing a key no entry has changes nothing |
| Parents.CountBelow | fgfw-lite/config.py:125 | no entry below the bound exactly when all priorities reach it; never more than the list length |
| Parents.NoParentAvailable | fgfw-lite/config.py:125-126 | warn exactly when not in reverse-proxy mode and no https parent has priority below 100 |
| Hosts.AddHost | fgfw-lite/config.py:130-138 | an invalid address raises (None) and only it; otherwise the host's list gets the entry with priority 2 (IPv4) or 10 (IPv6) appended and every other host's list is unchanged |
| Hosts.AddHostWellFormed | fgfw-lite/config.py:130-138 | `addhost` keeps every list non-empty with priorities matching the address family |
| Hosts.SettingsLoad | fgfw-lite/config.py:140-141 | the table after the settings loop and the address that stopped it, if any: items added in order until the first invalid address |
| Hosts.SettingsLoadSticky | fgfw-lite/config.py:140-141 | after the first failure the remaining items change nothing |
| Hosts.SettingsLoadFails | fgfw-lite/config.py:138-141 | the settings loop fails exactly when some address is invalid |
| Hosts.SettingsLoadFirstInvalid | fgfw-lite/config.py:138-141 | a failed settings loop reports the first invalid address |
| Hosts.SettingsLoadLookup | fgfw-lite/config.py:140-141 | after a successful settings loop each host's list is its old list followed by its section entries in order |
| Hosts.SettingsLoadWellFormed | fgfw-lite/config.py:140-141 | the settings loop keeps the table well-formed |
| Hosts.ParseHostsLine | fgfw-lite/config.py:145-148 | a hosts-file line once stripped: ignored when blank or a `#` comment, a pair when it has exactly two tokens (address first), otherwise malformed |
| Hosts.ParseHostsLineSpec | fgfw-lite/config.py:145-148 | a line is passed over exactly when it strips to blank or starts with `#`; any other line is malformed exactly when it does not hold two tokens; a pair is the stripped line's two tokens in order with whitespace between them |
| Hosts.HostsLinePair | fgfw-lite/config.py:145-149 | `ip host` with any whitespace in between and around is read as that pair |
| Hosts.LineStep | fgfw-lite/config.py:146-151 | a valid pair is added; a malformed or invalid line, or an ignored one, leaves the table |
| Hosts.FileTable | fgfw-lite/config.py:143-151 | the table after the hosts-file loop: each line's effect applied in order |
| Hosts.FileWarnings | fgfw-lite/config.py:143-151 | the stripped lines the loop logs as unusable, in order |
| Hosts.FileStep | fgfw-lite/config.py:144-151 | one more line extends the table and the warnings by that line's effect |
| Hosts.LineStepLookup | fgfw-lite/config.py:146-151 | one line adds its entry to its host's list only |
| Hosts.FileTableLookup | fgfw-lite/config.py:143-151 | after the hosts file each host's list is its old list followed by the file's entries for it in line order |
| Hosts.FileTableSkipped | fgfw-lite/config.py:146-151 | a file of only ignored, malformed or invalid lines leaves the table unchanged |
| Hosts.FileTableWellFormed | fgfw-lite/config.py:143-151 | the hosts-file loop keeps the table well-formed |
| Hosts.LoadOrder | fgfw-lite/config.py:140-151 | from the empty table, each host ends up with its section entries first and its hosts-file entries after, each in source order |
| Dns.SelectDns | fgfw-lite/config.py:152-153 | local DNS is the setting or `8.8.8.8:53` in reverse-proxy mode, else `223.5.5.5:53`; remote DNS is the local one in reverse-proxy mode, else the setting or `208.67.222.222:5353` |
| Dns.RproxyIgnoresRemote | fgfw-lite/config.py:153 | in reverse-proxy mode the `remotedns` setting has no effect |
| Dns.DefaultsSplit | fgfw-lite/config.py:152-153 | by default local and remote DNS are different servers |
| Config.UserConf.constructor | fgfw-lite/config.py:39-40 | the parsed configuration holds the options and the `parents` section, not yet saved |
| Config.UserConf.RemoveOption | fgfw-lite/config.py:120 | `remove_option` removes every entry with that key and nothing else |
| Config.Config.constructor | fgfw-lite/config.py:44-45 | the registry, host table and warnings start empty |
| Config.Config.AddParentProxy | fgfw-lite/config.py:170-171 | one registration is appended |
| Config.Config.ConfSave | fgfw-lite/config.py:164-168 | one more save of the configuration |
| Config.Config.RegisterInitial | fgfw-lite/config.py:110-114 | the initial registrations are appended |
| Config.Config.RegisterParents | fgfw-lite/config.py:110-123 | the registry grows by the whole plan (initial, then unmarked entries); the section loses the marked keys; one save per marked entry |
| Config.Config.AddHost | fgfw-lite/config.py:130-138 | the table becomes `Hosts.AddHost` of the old one, or is unchanged when the address is invalid, and the result says which |
| Config.Config.LoadSettingsHosts | fgfw-lite/config.py:140-141 | the table and the failure are those of `SettingsLoad` over the items |
| Config.Config.LoadHostsFile | fgfw-lite/config.py:143-151 | the table and the warnings are those of `FileTable` and `FileWarnings` over the lines |
| Config.Config.LoadHosts | fgfw-lite/config.py:140-151 | the settings loop, then the hosts file only when the settings loaded and the file exists |
| Config.Config.DeriveRegistry | fgfw-lite/config.py:106-126 | the region set, the registry grown by the whole plan, the section without the marked keys, one save per marked entry, and the warning over the registrations made |
| Config.Config.Derive | fgfw-lite/config.py:106-153 | region, registrations, section clean-up, warning, host table and DNS, each as its function states; after a settings-host failure the warnings and DNS keep their old values |
| Config.Config.Init | fgfw-lite/config.py:47-153 | the whole derivation: a listen error stops before anything else is assigned, every other field keeping its value; otherwise every field is its function of the options, and a settings-host failure stops before the hosts file and DNS, which keep their values |

## Left out

- Reading and writing `userconf.ini` and `version.ini` (`reload`, `confsave`): the parsed file is the `UserConf` object, and a save is a counter.
- `SConfigParser`, `dget`, `dgetint` and `dgetbool` are not part of this model. An option is `Option<string>` with the default applied by `GetOr`, and `rproxy` arrives already read as a bool.
- The `ipaddress` library: the parameter `classify` says whether a text is an IPv4 address, an IPv6 address or neither.
- The parent registry `ParentProxyList`, `ParentProxy`, and `set_via` (line 116). The registry is the ordered list of `(name, proxy)` pairs passed to `addstr`. The https priorities it reports for them are the parameter `httpsView`.
- The existence of `./fgfw-lite/hosts` and its reading: the file is an optional list of lines. Line terminators are not modelled separately; `strip()` removes them anyway.
- Discovering the local IP address (lines 55-67), the PAC script (lines 68-94), the log file (lines 96-104), `timeout`, `maxretry`, `profile`, `xheaders`, `-GUI` and `stdout`: network, file system, log and settings no derived rule reads.
- Logging: the "No parent proxy available!" warning is the boolean field `noParentWarning`. The hosts-file warnings are the stripped lines, without the exception text.
- `parse_hostport`, `redirector`, `get_proxy` and `resolver.get_resolver` (lines 152-158) are not part of this model. The DNS choice is kept as the setting texts.
- The module-level `conf = Config()` singleton.
- PyStr: only ASCII whitespace, ASCII digits and ASCII case are handled. Unicode whitespace, Unicode digits and non-ASCII case mapping are not modelled; `int()` is modelled as Python 2 reads a byte string.
- Config.Config.Init: the object the source leaves half-built when `__init__` raises is unreachable in Python (the exception propagates out of `Config()`); the model states that partial state anyway, but nothing is built on it.

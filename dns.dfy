/** The DNS endpoints chosen at start-up (fgfw-lite/config.py lines
    152-153), as the `host:port` texts handed to `parse_hostport`. */
module Dns {
  import opened Wrappers

  const RproxyLocalDefault: string := "8.8.8.8:53"
  const LocalDefault: string := "223.5.5.5:53"
  const RemoteDefault: string := "208.67.222.222:5353"

  datatype DnsChoice = DnsChoice(localdns: string, remotedns: string)

  /** `localdns` falls back to a public resolver in reverse-proxy mode and
      to a domestic one otherwise; in reverse-proxy mode `remotedns` is the
      same endpoint and its own setting is not read. */
  function SelectDns(rproxy: bool, localSetting: Option<string>, remoteSetting: Option<string>): (r: DnsChoice)
    ensures rproxy ==> r.remotedns == r.localdns
    ensures localSetting.Some? ==> r.localdns == localSetting.value
    ensures localSetting.None? && rproxy ==> r.localdns == RproxyLocalDefault
    ensures localSetting.None? && !rproxy ==> r.localdns == LocalDefault
    ensures !rproxy && remoteSetting.Some? ==> r.remotedns == remoteSetting.value
    ensures !rproxy && remoteSetting.None? ==> r.remotedns == RemoteDefault
  {
    var local := localSetting.GetOr(if rproxy then RproxyLocalDefault else LocalDefault);
    DnsChoice(local, if rproxy then local else remoteSetting.GetOr(RemoteDefault))
  }

  /** In reverse-proxy mode the remote setting has no effect. */
  lemma RproxyIgnoresRemote(localSetting: Option<string>, r1: Option<string>, r2: Option<string>)
    ensures SelectDns(true, localSetting, r1) == SelectDns(true, localSetting, r2)
  {
  }

  /** Outside reverse-proxy mode the two defaults are different resolvers,
      so an unconfigured deployment splits its lookups. */
  lemma DefaultsSplit()
    ensures SelectDns(false, None, None).localdns != SelectDns(false, None, None).remotedns
  {
    assert LocalDefault[1] != RemoteDefault[1];
  }
}

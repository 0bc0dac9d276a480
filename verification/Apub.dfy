/**
 Settings, URLs and the admission check of lemmy_apub/src/lib.rs.

 A URL is taken apart as the url crate does it: only a host that is a name has a domain.
 */
module Apub {
  import opened Wrappers

  datatype Host = Domain(name: string, readsAsIp: bool) | Address(text: string) | NoHost

  datatype Url = Url(scheme: string, host: Host, port: Option<nat>, path: string) {
    function DomainName(): Option<string> {
      if host.Domain? then Some(host.name) else None
    }

    function HostStr(): Option<string> {
      match host
      case Domain(name, _) => Some(name)
      case Address(text) => Some(text)
      case NoHost => None
    }
  }

  datatype Settings = Settings(hostname: string, tlsEnabled: bool, federationEnabled: bool,
                               allowedInstances: seq<string>, blockedInstances: seq<string>)
  {
    function ProtocolString(): string {
      if tlsEnabled then "https" else "http"
    }

    /** The host name without its port. */
    function LocalInstance(): string {
      BeforeColon(hostname)
    }
  }

  function BeforeColon(s: string): (r: string)
    ensures r <= s && ':' !in r
    ensures |r| < |s| ==> s[|r|] == ':'
    ensures r == s <==> ':' !in s
  {
    if s == [] || s[0] == ':' then [] else [s[0]] + BeforeColon(s[1..])
  }

  datatype IdCheck =
    | Accepted
    | NoDomain
    | FederationDisabled
    | InvalidHost
    | InvalidScheme
    | NotInAllowlist
    | InBlocklist
    | Panicked

  function CheckIsApubIdValid(s: Settings, id: Url): IdCheck {
    if id.DomainName().None? then NoDomain
    else
      var domain := id.DomainName().value;
      if !s.federationEnabled then
        if domain == s.LocalInstance() then Accepted else FederationDisabled
      else if domain == "localhost" || id.host.readsAsIp then InvalidHost
      else if id.scheme != s.ProtocolString() then InvalidScheme
      else if s.allowedInstances == [] && s.blockedInstances == [] then Accepted
      else if s.allowedInstances != [] then
        if domain in s.allowedInstances + [s.LocalInstance()] then Accepted else NotInAllowlist
      else if s.blockedInstances != [] then
        if domain in s.blockedInstances then InBlocklist else Accepted
      else Panicked
  }

  predicate IsValid(s: Settings, id: Url) {
    CheckIsApubIdValid(s, id) == Accepted
  }

  /** The panic is out of reach for every configuration, also one with both lists: the allowlist wins. */
  lemma CheckNeverPanics(s: Settings, id: Url)
    ensures CheckIsApubIdValid(s, id) != Panicked
  {
  }

  /** Which instances can be talked to, as the documentation of the check puts it. */
  lemma ValidIff(s: Settings, id: Url)
    ensures IsValid(s, id) <==>
            id.host.Domain?
            && if !s.federationEnabled then id.host.name == BeforeColon(s.hostname)
               else
                 && id.host.name != "localhost" && !id.host.readsAsIp
                 && id.scheme == (if s.tlsEnabled then "https" else "http")
                 && (s.allowedInstances != [] ==>
                       id.host.name in s.allowedInstances || id.host.name == BeforeColon(s.hostname))
                 && (s.allowedInstances == [] ==> id.host.name !in s.blockedInstances)
  {
  }
}

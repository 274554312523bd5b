/** The Secure Email Relay regions and the host name each one is served from. */
module Regions {
  datatype Region = US | CA | EU | AU

  /** The domain every regional host belongs to. */
  const ServiceDomain := ".ser.proofpoint.com"

  /** The regional part of the host name. */
  function Label(r: Region): string
  {
    match r
    case US => "mail-us"
    case CA => "mail-ca"
    case EU => "mail-eu"
    case AU => "mail-aus"
  }

  /** Region.getString(): "mail-us.ser.proofpoint.com" and so on. */
  function Host(r: Region): string
  {
    Label(r) + ServiceDomain
  }

  /** No two regions share a host, so a client's endpoints determine its region. */
  lemma HostDeterminesRegion(a: Region, b: Region)
    requires Host(a) == Host(b)
    ensures a == b
  {
    var ha, hb := Host(a), Host(b);
    assert Label(a) == ha[..|ha| - |ServiceDomain|];
    assert Label(b) == hb[..|hb| - |ServiceDomain|];
  }

  /** Every region is a sub-domain of ser.proofpoint.com. */
  lemma HostIsServiceSubdomain(r: Region)
    ensures |Host(r)| > 19 && Host(r)[|Host(r)| - 19..] == ".ser.proofpoint.com"
  {
    assert Host(r)[|Label(r)|..] == ServiceDomain;
  }
}

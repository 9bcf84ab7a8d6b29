/** How the gNMI server decides that the caller of Subscribe is another member of the cluster. */
module PeerAddresses {
  import opened GoStrings

  /** What stands before the first colon. */
  function Host(address: string): string {
    Split(address, ':')[0]
  }

  method MemberAddressInMemberList(addr: string, list: seq<string>) returns (found: bool)
    ensures found <==> Host(addr) != "" && exists m <- list :: Host(m) == Host(addr)
  {
    var ipParts := Split(addr, ':');
    if ipParts[0] == "" {
      return false;
    }
    for i := 0 to |list|
      invariant forall m <- list[..i] :: Host(m) != Host(addr)
    {
      var memberParts := Split(list[i], ':');
      if memberParts[0] == "" {
        continue;
      }
      if ipParts[0] == memberParts[0] {
        assert list[i] in list;
        return true;
      }
    }
    assert list[..|list|] == list;
    return false;
  }

  /** Of a host and a port the host is compared, up to its first colon. */
  lemma HostOf(host: string, port: string)
    ensures Host(host + ":" + port) == Host(host)
    ensures ':' !in host ==> Host(host + ":" + port) == host
  {
    SplitAt(host, ':', port);
    if ':' !in host {
      SplitWithout(host, ':');
    }
  }

  lemma {:induction false} HostBeforeColon(a: string, b: string)
    requires ':' !in a
    ensures Host(a + ":" + b) == a
  {
    SplitAt(a, ':', b);
    SplitWithout(a, ':');
  }

  /** Two callers are told apart exactly if their hosts differ before the first colon, so names and IPv4 addresses
      are, and IPv6 addresses that begin alike are not. */
  lemma SameCallerIff(host: string, port: string, member: string, memberPort: string)
    requires host != "" && host[0] != ':'
    ensures Host(host + ":" + port) != ""
    ensures Host(member + ":" + memberPort) == Host(host + ":" + port) <==> Host(member) == Host(host)
    ensures ':' !in host && ':' !in member ==>
      (Host(member + ":" + memberPort) == Host(host + ":" + port) <==> member == host)
  {
    HostOf(host, port);
    HostOf(member, memberPort);
  }

  lemma NeighboursAreConfused()
    ensures Host("[fe80::1]:50000") == Host("[fe80::2]:9339")
  {
    HostBeforeColon("[fe80", ":1]:50000");
    HostBeforeColon("[fe80", ":2]:9339");
    assert "[fe80" + ":" + ":1]:50000" == "[fe80::1]:50000";
    assert "[fe80" + ":" + ":2]:9339" == "[fe80::2]:9339";
  }
}

/** The index from addresses to domains, beside the address set every domain keeps itself. */
module IpDomainIndex {
  import opened Wrappers

  datatype Address = V4(bits: nat) | V6(bits: nat)

  class Domain {
    const name: string
    var ips: set<Address>

    constructor (name: string)
      ensures this.name == name && ips == {}
    {
      this.name := name;
      ips := {};
    }
  }

  class DomainManager {
    var byIP: map<Address, Domain>
    var byName: map<string, Domain>
    const anonymous: Domain

    /** Whatever an address resolves to has that address in its own set. */
    ghost predicate Valid()
      reads this, byIP.Values
    {
      forall ip | ip in byIP :: ip in byIP[ip].ips
    }

    constructor ()
      ensures Valid() && byIP == map[] && fresh(anonymous) && byName == map[anonymous.name := anonymous]
    {
      var a := new Domain("anonymous domains");
      anonymous := a;
      byIP, byName := map[], map[a.name := a];
    }

    method Find(ip: Address) returns (d: Option<Domain>)
      requires Valid()
      ensures d == if ip in byIP then Some(byIP[ip]) else None
      ensures d.Some? ==> ip in d.value.ips
    {
      d := if ip in byIP then Some(byIP[ip]) else None;
    }

    method Create(name: string) returns (d: Domain)
      requires Valid()
      modifies this`byName
      ensures Valid() && name in byName && byName[name] == d
      ensures if name in old(byName) then byName == old(byName)
              else byName == old(byName)[name := d] && fresh(d) && d.ips == {}
    {
      if name in byName { return byName[name]; }
      d := new Domain(name);
      byName := byName[name := d];
    }

    /** Add an address to a domain and to the index; an address already resolved keeps its domain. */
    method AddIPBoth(d: Domain, ip: Address)
      requires Valid()
      modifies this`byIP, d`ips
      ensures Valid() && d.ips == old(d.ips) + {ip}
      ensures byIP == if ip in old(byIP) then old(byIP) else old(byIP)[ip := d]
      ensures ip in byIP && (byIP[ip] == d <==> ip !in old(byIP) || old(byIP[ip]) == d)
    {
      d.ips := d.ips + {ip};
      if ip !in byIP { byIP := byIP[ip := d]; }
    }

    /** Forget the addresses of a domain: nothing resolves to it any more, and an address another
        domain was found by is lost exactly when both shared it. */
    method RemoveIPs(d: Domain)
      requires Valid()
      modifies this`byIP, d`ips
      ensures Valid() && d.ips == {}
      ensures forall ip | ip in byIP :: byIP[ip] != d
      ensures forall ip | ip in old(byIP) :: ip in byIP <==> ip !in old(d.ips)
      ensures byIP == map ip | ip in old(byIP) && ip !in old(d.ips) :: old(byIP)[ip]
    {
      var rest := d.ips;
      while rest != {}
        invariant rest <= d.ips && d.ips == old(d.ips) && Valid()
        invariant byIP == map ip | ip in old(byIP) && ip !in d.ips - rest :: old(byIP)[ip]
      {
        var ip :| ip in rest;
        byIP := byIP - {ip};
        rest := rest - {ip};
      }
      assert d.ips - rest == old(d.ips);
      d.ips := {};
    }

    /** A restored domain: its saved addresses, each put in the index. */
    method RestoreDomain(name: string, saved: set<Address>) returns (d: Domain)
      requires Valid()
      modifies this`byName, this`byIP, byName.Values`ips
      ensures Valid() && name in byName && byName[name] == d
      ensures d.ips == (if name in old(byName) then old(byName[name].ips) else {}) + saved
      ensures forall x | x in old(byName.Values) && x != d :: x.ips == old(x.ips)
      ensures byName == if name in old(byName) then old(byName) else old(byName)[name := d]
      ensures forall ip | ip in d.ips :: ip in byIP
      ensures forall ip | ip in old(byIP) :: ip in byIP && byIP[ip] == old(byIP[ip])
    {
      d := Create(name);
      assert name in old(byName) ==> d == old(byName)[name] && d.ips == old(byName[name].ips);
      d.ips := d.ips + saved;
      var rest := d.ips;
      ghost var names, all := byName, d.ips;
      while rest != {}
        invariant rest <= d.ips && Valid() && byName == names && d.ips == all
        invariant forall x | x in old(byName.Values) && x != d :: x.ips == old(x.ips)
        invariant forall ip | ip in d.ips - rest :: ip in byIP
        invariant forall ip | ip in old(byIP) :: ip in byIP && byIP[ip] == old(byIP[ip])
      {
        var ip :| ip in rest;
        if ip !in byIP { byIP := byIP[ip := d]; }
        rest := rest - {ip};
      }
    }

    /** Full reset: the domains themselves may live on with their sets, but nothing resolves. */
    method Reset()
      modifies this`byIP, this`byName
      ensures Valid() && byIP == map[] && byName == map[anonymous.name := anonymous]
    {
      byIP := map[];
      byName := map[anonymous.name := anonymous];
    }

    /** Runtime reset: the named domains stay and lose their addresses. */
    method ResetRuntimeAssociations()
      modifies this`byIP, byName.Values`ips
      ensures Valid() && byIP == map[] && forall n | n in byName :: byName[n].ips == {}
    {
      byIP := map[];
      var rest := byName.Keys;
      while rest != {}
        invariant rest <= byName.Keys && byIP == map[]
        invariant forall n | n in byName.Keys - rest :: byName[n].ips == {}
      {
        var n :| n in rest;
        byName[n].ips := {};
        rest := rest - {n};
      }
    }
  }

  /** Two domains that share an address: forgetting the addresses of the second takes the first one's
      answer with it, although the first still holds the address. */
  method SharedAddressIsLost(ip: Address) returns (first: Domain, before: Option<Domain>, after: Option<Domain>)
    ensures before == Some(first) && after == None && ip in first.ips
  {
    var manager := new DomainManager();
    first := manager.Create("a.example");
    var second := manager.Create("b.example");
    manager.AddIPBoth(first, ip);
    manager.AddIPBoth(second, ip);
    before := manager.Find(ip);
    manager.RemoveIPs(second);
    after := manager.Find(ip);
  }
}

/** The client registry and how one connection event changes it
    (src/server/connections.rs): Connected appends the client, Disconnected
    drops every entry with the client's address. The registry is the
    sequence of client handles in connection order. */
module Connections {
  import opened Clients
  import opened Hooks

  /** The hook kind an event runs. */
  function KindOf(status: ConnectionStatus): Hook
  {
    match status
    case Connected => OnPlayerConnect
    case Disconnected => OnPlayerDisconnect
  }

  /** The addresses present in a registry. */
  function Addrs(reg: seq<Client>): set<string>
  {
    set c | c in reg :: c.addr
  }

  /** How many entries of the registry have address `addr`. */
  function Count(reg: seq<Client>, addr: string): nat
  {
    if reg == [] then 0
    else Count(reg[..|reg| - 1], addr) + (if reg[|reg| - 1].addr == addr then 1 else 0)
  }

  /** No two entries share an address. */
  predicate UniqueAddrs(reg: seq<Client>)
  {
    forall i, j :: 0 <= i < j < |reg| ==> reg[i].addr != reg[j].addr
  }

  /** `retain(|c| c.addr != addr)`: the entries with another address, in
      their original order. */
  function Retain(reg: seq<Client>, addr: string): (r: seq<Client>)
    ensures |r| <= |reg|
  {
    if reg == [] then []
    else (if reg[0].addr != addr then [reg[0]] else []) + Retain(reg[1..], addr)
  }

  /** The retained entries are exactly the entries with another address. */
  lemma {:induction false} RetainMembers(reg: seq<Client>, addr: string)
    ensures forall i :: 0 <= i < |Retain(reg, addr)| ==>
              Retain(reg, addr)[i] in reg && Retain(reg, addr)[i].addr != addr
    ensures forall i :: 0 <= i < |reg| && reg[i].addr != addr ==> reg[i] in Retain(reg, addr)
  {
    if reg != [] {
      RetainMembers(reg[1..], addr);
      var h := if reg[0].addr != addr then [reg[0]] else [];
      var r := Retain(reg, addr);
      assert r == h + Retain(reg[1..], addr);
      forall i | 0 <= i < |r| ensures r[i] in reg && r[i].addr != addr {
        if i >= |h| {
          assert r[i] == Retain(reg[1..], addr)[i - |h|];
        }
      }
      forall i | 0 <= i < |reg| && reg[i].addr != addr ensures reg[i] in r {
        if i > 0 {
          assert reg[i] == reg[1..][i - 1];
        }
      }
    }
  }

  /** One event applied to the registry. */
  function Apply(reg: seq<Client>, u: ConnectionUpdate): seq<Client>
  {
    match u.status
    case Connected => reg + [u.client]
    case Disconnected => Retain(reg, u.client.addr)
  }

  /** The registry after the events `updates`, applied one at a time in
      arrival order. */
  function Registry(reg: seq<Client>, updates: seq<ConnectionUpdate>): seq<Client>
  {
    if updates == [] then reg
    else Apply(Registry(reg, updates[..|updates| - 1]), updates[|updates| - 1])
  }

  /** The addresses still connected after `updates`, starting from `live`:
      a connect adds its address, a disconnect removes it. */
  function Live(live: set<string>, updates: seq<ConnectionUpdate>): set<string>
  {
    if updates == [] then live
    else
      var u := updates[|updates| - 1];
      var before := Live(live, updates[..|updates| - 1]);
      if u.status.Connected? then before + {u.client.addr} else before - {u.client.addr}
  }

  /** Each connecting peer's address is not already live when its Connected
      event arrives (peer addresses of open connections are distinct). */
  predicate FreshConnects(reg: seq<Client>, updates: seq<ConnectionUpdate>)
  {
    forall i :: 0 <= i < |updates| && updates[i].status.Connected? ==>
      updates[i].client.addr !in Addrs(Registry(reg, updates[..i]))
  }

  // ------------------------------------------------------------------ lemmas

  /** Dropping an address keeps the other entries in order: retaining over
      a concatenation is the concatenation of the two retains. */
  lemma {:induction false} RetainConcat(a: seq<Client>, b: seq<Client>, addr: string)
    ensures Retain(a + b, addr) == Retain(a, addr) + Retain(b, addr)
  {
    if a == [] {
      assert a + b == b;
    } else {
      var h := if a[0].addr != addr then [a[0]] else [];
      assert (a + b)[0] == a[0];
      assert (a + b)[1..] == a[1..] + b;
      assert Retain(a + b, addr) == h + Retain(a[1..] + b, addr);
      RetainConcat(a[1..], b, addr);
      assert Retain(a, addr) == h + Retain(a[1..], addr);
    }
  }

  /** Dropping an address that is not present changes nothing. */
  lemma {:induction false} RetainAbsent(reg: seq<Client>, addr: string)
    requires addr !in Addrs(reg)
    ensures Retain(reg, addr) == reg
  {
    if reg != [] {
      assert reg[0] in reg;
      assert Addrs(reg[1..]) <= Addrs(reg);
      RetainAbsent(reg[1..], addr);
    }
  }

  /** After a disconnect no entry with the address is left, and every
      other address is still there. */
  lemma RetainAddrs(reg: seq<Client>, addr: string)
    ensures Addrs(Retain(reg, addr)) == Addrs(reg) - {addr}
  {
    var r := Retain(reg, addr);
    RetainMembers(reg, addr);
    forall a | a in Addrs(reg) - {addr} ensures a in Addrs(r) {
      var c :| c in reg && c.addr == a;
      assert c in r;
    }
    forall a | a in Addrs(r) ensures a in Addrs(reg) - {addr} {
      var c :| c in r && c.addr == a;
      assert c in reg;
    }
  }

  /** Retaining keeps addresses distinct. */
  lemma {:induction false} RetainUnique(reg: seq<Client>, addr: string)
    requires UniqueAddrs(reg)
    ensures UniqueAddrs(Retain(reg, addr))
  {
    if reg != [] {
      var rest := Retain(reg[1..], addr);
      RetainUnique(reg[1..], addr);
      RetainMembers(reg[1..], addr);
      if reg[0].addr != addr {
        forall j | 0 <= j < |rest| ensures rest[j].addr != reg[0].addr {
          assert rest[j] in rest;
          assert rest[j] in reg[1..];
          var k :| 0 <= k < |reg[1..]| && reg[1..][k] == rest[j];
          assert reg[k + 1] == rest[j];
        }
      }
    }
  }

  lemma {:induction false} CountZero(reg: seq<Client>, addr: string)
    requires addr !in Addrs(reg)
    ensures Count(reg, addr) == 0
  {
    if reg != [] {
      assert reg[|reg| - 1] in reg;
      assert Addrs(reg[..|reg| - 1]) <= Addrs(reg);
      CountZero(reg[..|reg| - 1], addr);
    }
  }

  /** A connect appends without deduplicating: the address gains exactly one
      entry, so an address absent before is present exactly once after. */
  lemma ConnectAddsOne(reg: seq<Client>, c: Client)
    ensures Apply(reg, ConnectionUpdate(c, Connected)) == reg + [c]
    ensures Count(reg + [c], c.addr) == Count(reg, c.addr) + 1
    ensures c.addr !in Addrs(reg) ==> Count(reg + [c], c.addr) == 1
  {
    assert (reg + [c])[..|reg|] == reg;
    if c.addr !in Addrs(reg) {
      CountZero(reg, c.addr);
    }
  }

  /** A disconnect leaves no entry with the address and keeps every other
      entry, in order. */
  lemma DisconnectRemovesAll(reg: seq<Client>, c: Client)
    ensures var after := Apply(reg, ConnectionUpdate(c, Disconnected));
      Count(after, c.addr) == 0
      && Addrs(after) == Addrs(reg) - {c.addr}
      && (forall d :: d in reg && d.addr != c.addr ==> d in after)
  {
    var after := Retain(reg, c.addr);
    RetainMembers(reg, c.addr);
    RetainAddrs(reg, c.addr);
    CountZero(after, c.addr);
  }

  /** Whatever order the events arrive in, the registry's addresses are
      exactly the ones still connected: a connect adds its address and a
      disconnect removes it. */
  lemma {:induction false} RegistryAddrs(reg: seq<Client>, updates: seq<ConnectionUpdate>)
    ensures Addrs(Registry(reg, updates)) == Live(Addrs(reg), updates)
  {
    if updates != [] {
      var n := |updates| - 1;
      var u := updates[n];
      RegistryAddrs(reg, updates[..n]);
      var before := Registry(reg, updates[..n]);
      match u.status
      case Connected =>
        assert Addrs(before + [u.client]) == Addrs(before) + {u.client.addr};
      case Disconnected =>
        RetainAddrs(before, u.client.addr);
    }
  }

  /** Registry integrity: when connecting peers are not already live, the
      registry never holds two entries with one address. `push` does not
      deduplicate, so without that condition a reconnecting address would
      appear twice. */
  lemma {:induction false} RegistryIntegrity(reg: seq<Client>, updates: seq<ConnectionUpdate>)
    requires UniqueAddrs(reg)
    requires FreshConnects(reg, updates)
    ensures UniqueAddrs(Registry(reg, updates))
  {
    if updates != [] {
      var n := |updates| - 1;
      var init := updates[..n];
      var u := updates[n];
      forall i | 0 <= i < |init| && init[i].status.Connected?
        ensures init[i].client.addr !in Addrs(Registry(reg, init[..i]))
      {
        assert init[..i] == updates[..i];
      }
      RegistryIntegrity(reg, init);
      var before := Registry(reg, init);
      assert Registry(reg, updates) == Apply(before, u);
      match u.status
      case Connected =>
        assert updates[..n] == init;
        assert u.client.addr !in Addrs(before);
        var after := before + [u.client];
        forall i, j | 0 <= i < j < |after| ensures after[i].addr != after[j].addr {
          if j == |before| {
            assert after[i] in before;
          }
        }
      case Disconnected =>
        RetainUnique(before, u.client.addr);
    }
  }
}

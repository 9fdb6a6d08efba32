/** Which configured peer an initiation belongs to (server.go). */
module Selection {
  import opened Bytes
  import opened Tables
  import opened ServerConfig

  ghost function Owned(servers: seq<ServerConfigServer>): (os: set<ServerConfigPeer>)
    ensures forall i, p :: 0 <= i < |servers| && p in servers[i].peers ==> p in os
  {
    set i, p | 0 <= i < |servers| && p in servers[i].peers :: p
  }

  /** The configurations held by these objects. */
  ghost function Values(servers: seq<ServerConfigServer>): (cs: seq<Config>)
    reads servers, Owned(servers)
    ensures |cs| == |servers| && forall i :: 0 <= i < |cs| ==> cs[i] == servers[i].Value()
  {
    if servers == [] then []
    else Values(servers[..|servers| - 1]) + [servers[|servers| - 1].Value()]
  }

  // ---------------------------------------------------------------- selection

  /** Trying one private key on an initiation: the client's public key, or `None` if it does not decrypt. */
  type Decrypt = PrivateKey -> Option<PublicKey>

  predicate Keyed(cs: seq<Config>) {
    forall i :: 0 <= i < |cs| ==> cs[i].privateKey.Some?
  }

  /** Server `i` is the first whose key decrypts. */
  predicate FirstDecrypting(cs: seq<Config>, decrypt: Decrypt, i: nat)
    requires Keyed(cs)
  {
    && i < |cs| && decrypt(cs[i].privateKey.value).Some?
    && forall k :: 0 <= k < i ==> decrypt(cs[k].privateKey.value).None?
  }

  /** No entry after `n` has this key (`None` stands for the fallback). */
  predicate NoneFrom(ps: seq<Entry>, key: Option<PublicKey>, n: nat) {
    forall l :: n <= l < |ps| ==> ps[l].clientKey != key
  }

  predicate LastWith(ps: seq<Entry>, key: Option<PublicKey>, j: nat) {
    j < |ps| && ps[j].clientKey == key && NoneFrom(ps, key, j + 1)
  }

  /** The entry used for a client: the last one with its key, else the fallback. */
  predicate Selected(ps: seq<Entry>, key: PublicKey, j: nat) {
    LastWith(ps, Some(key), j) || (NoneFrom(ps, Some(key), 0) && LastWith(ps, None, j))
  }

  /** Entry `j` of server `i` is the one used. */
  predicate Chosen(cs: seq<Config>, decrypt: Decrypt, i: nat, j: nat)
    requires Keyed(cs)
  {
    FirstDecrypting(cs, decrypt, i) && Selected(cs[i].peers, decrypt(cs[i].privateKey.value).value, j)
  }

  /** Server `i` decrypts, and has neither an entry for the client nor a fallback. */
  predicate Unmatched(cs: seq<Config>, decrypt: Decrypt, i: nat)
    requires Keyed(cs)
  {
    FirstDecrypting(cs, decrypt, i)
    && NoneFrom(cs[i].peers, decrypt(cs[i].privateKey.value), 0) && NoneFrom(cs[i].peers, None, 0)
  }

  /** `r` is the outcome of selecting a peer: a copy of the chosen entry under the client's own key, or an error. */
  ghost predicate Extracts(cs: seq<Config>, decrypt: Decrypt, r: Result<Entry, Error>)
    requires Keyed(cs)
  {
    match r
    case Err(NoServers) => cs == []
    case Err(NothingDecrypts) =>
      cs != [] && forall i :: 0 <= i < |cs| ==> decrypt(cs[i].privateKey.value).None?
    case Err(NoMatch) => exists i: nat :: Unmatched(cs, decrypt, i)
    case Err(_) => false
    case Ok(p) =>
      exists i: nat, j: nat :: Chosen(cs, decrypt, i, j)
             && p == cs[i].peers[j].(clientKey := decrypt(cs[i].privateKey.value))
  }

  class Server {
    const servers: seq<ServerConfigServer>

    /** Every server has been initialised. */
    ghost predicate Valid()
      reads servers
    {
      forall i :: 0 <= i < |servers| ==> servers[i].privateKey.Some?
    }

    /** Lines 235-247. */
    method MatchServer(decrypt: Decrypt) returns (r: Option<(nat, PublicKey)>)
      requires Valid()
      ensures var cs := Values(servers);
              match r
              case None => forall i :: 0 <= i < |servers| ==> decrypt(servers[i].privateKey.value).None?
              case Some((i, key)) => FirstDecrypting(cs, decrypt, i) && decrypt(cs[i].privateKey.value) == Some(key)
    {
      for i := 0 to |servers|
        invariant forall k :: 0 <= k < i ==> decrypt(servers[k].privateKey.value).None?
      {
        var key := decrypt(servers[i].privateKey.value);
        if key.Some? {
          return Some((i, key.value));
        }
      }
      r := None;
    }

    /** Lines 249-267: scan all entries, remembering the last match and the last fallback. */
    static method MatchPeer(server: ServerConfigServer, key: PublicKey) returns (r: Option<ServerConfigPeer>)
      ensures var ps := server.Entries();
              match r
              case None => NoneFrom(ps, Some(key), 0) && NoneFrom(ps, None, 0)
              case Some(peer) => exists j: nat :: j < |ps| && Selected(ps, key, j) && peer == server.peers[j]
    {
      ghost var ps := server.Entries();
      var matched: Option<ServerConfigPeer>, fallback: Option<ServerConfigPeer> := None, None;
      ghost var m: nat, f: nat := 0, 0;
      for i := 0 to |server.peers|
        invariant if matched.None? then NoneFrom(ps[..i], Some(key), 0)
                  else LastWith(ps[..i], Some(key), m) && matched.value == server.peers[m]
        invariant if fallback.None? then NoneFrom(ps[..i], None, 0)
                  else LastWith(ps[..i], None, f) && fallback.value == server.peers[f]
      {
        var peer := server.peers[i];
        assert ps[..i + 1] == ps[..i] + [peer.Value()];
        if peer.IsFallback() {
          fallback := Some(peer);
          f := i;
        } else if peer.clientPublicKey == Some(key) {
          matched := Some(peer);
          m := i;
        }
      }
      assert ps[..|ps|] == ps;
      if matched.None? {
        matched := fallback;
        m := f;
      }
      assert matched.Some? ==> Selected(ps, key, m);
      r := matched;
    }

    /** Lines 199-272. */
    method ExtractPeer(decrypt: Decrypt) returns (r: Result<ServerConfigPeer, Error>)
      requires Valid()
      ensures r.Ok? ==> fresh(r.value)
      ensures Extracts(old(Values(servers)), decrypt, match r case Ok(p) => Ok(p.Value()) case Err(e) => Err(e))
    {
      hide Selected, NoneFrom;
      ghost var cs := Values(servers);
      if |servers| == 0 {
        return Err(NoServers);
      }
      var s := MatchServer(decrypt);
      if s.None? {
        return Err(NothingDecrypts);
      }
      var (i, key) := s.value;
      var p := MatchPeer(servers[i], key);
      assert cs[i].peers == servers[i].Entries();
      if p.None? {
        assert Unmatched(cs, decrypt, i);
        return Err(NoMatch);
      }
      ghost var j: nat :| j < |cs[i].peers| && Selected(cs[i].peers, key, j) && p.value == servers[i].peers[j];
      assert Chosen(cs, decrypt, i, j);
      var copied := new ServerConfigPeer.Copy(p.value);
      copied.clientPublicKey := Some(key);
      r := Ok(copied);
    }

    /** The objects come from decoding a configuration: no two servers share a peer. */
    static ghost predicate Separate(servers: seq<ServerConfigServer>) {
      forall i, j :: 0 <= i < |servers| && 0 <= j < |servers| && i != j ==>
        servers[i] != servers[j] && forall p :: p in servers[i].peers ==> p !in servers[j].peers
    }

    static method InitializeAt(env: Env, servers: seq<ServerConfigServer>, i: nat) returns (err: Option<Error>)
      requires Separate(servers) && i < |servers|
      modifies servers[i], servers[i].peers
      ensures err.None? <==> Acceptable(env, old(servers[i].Value()))
      ensures err.None? ==> servers[i].Value() == ReadyConfig(env, old(servers[i].Value()))
      ensures forall k :: 0 <= k < |servers| && k != i ==> servers[k].Value() == old(servers[k].Value())
    {
      hide Acceptable, ReadyConfig, Faulty;
      err := servers[i].Initialize(env);
      forall k | 0 <= k < |servers| && k != i
        ensures servers[k].Value() == old(servers[k].Value())
      {
        assert servers[k] != servers[i] && forall p :: p in servers[k].peers ==> p !in servers[i].peers;
        forall l | 0 <= l < |servers[k].peers|
          ensures servers[k].peers[l].Value() == old(servers[k].peers[l].Value())
        {
          assert servers[k].peers[l] in servers[k].peers;
        }
        assert servers[k].Entries() == old(servers[k].Entries());
      }
    }

    /** Lines 159-174: initialise every server, stopping at the first fault. */
    static method InitializeServers(env: Env, servers: seq<ServerConfigServer>) returns (err: Option<Error>)
      requires Separate(servers)
      modifies servers, Owned(servers)
      ensures err.None? <==> AllAcceptable(env, old(Values(servers)))
      ensures err.None? ==> Values(servers) == AllReady(env, old(Values(servers)))
    {
      hide ReadyConfig, Separate;
      ghost var cs := Values(servers);
      if |servers| == 0 {
        return Some(NoServers);
      }
      for i := 0 to |servers|
        invariant forall k :: 0 <= k < i ==> Acceptable(env, cs[k]) && KeyOf(env, cs[k]).Some?
        invariant forall k :: 0 <= k < i ==> servers[k].Value() == ReadyConfig(env, cs[k])
        invariant forall k :: i <= k < |servers| ==> servers[k].Value() == cs[k]
      {
        err := InitializeAt(env, servers, i);
        if err.Some? {
          return;
        }
      }
      err := None;
    }
  }

  // ---------------------------------------------------------------- the result of selection

  predicate AllAcceptable(env: Env, cs: seq<Config>) {
    cs != [] && forall i :: 0 <= i < |cs| ==> Acceptable(env, cs[i])
  }

  function AllReady(env: Env, cs: seq<Config>): (rs: seq<Config>)
    requires forall i :: 0 <= i < |cs| ==> KeyOf(env, cs[i]).Some?
    ensures Keyed(rs)
  {
    seq(|cs|, i requires 0 <= i < |cs| => ReadyConfig(env, cs[i]))
  }

  lemma SelectedUnique(ps: seq<Entry>, key: PublicKey, i: nat, j: nat)
    requires Selected(ps, key, i) && Selected(ps, key, j)
    ensures i == j
  {
  }

  lemma {:induction false} FindLast(ps: seq<Entry>, key: Option<PublicKey>) returns (j: nat)
    ensures NoneFrom(ps, key, 0) || LastWith(ps, key, j)
  {
    j := 0;
    if ps != [] {
      var n := |ps| - 1;
      if ps[n].clientKey == key {
        return n;
      }
      j := FindLast(ps[..n], key);
      assert ps == ps[..n] + [ps[n]];
    }
  }

  lemma {:induction false} FindDecrypting(cs: seq<Config>, decrypt: Decrypt, n: nat) returns (i: nat)
    requires Keyed(cs) && n <= |cs|
    ensures FirstDecrypting(cs, decrypt, i) || forall k :: 0 <= k < n ==> decrypt(cs[k].privateKey.value).None?
  {
    i := 0;
    if n != 0 {
      i := FindDecrypting(cs, decrypt, n - 1);
      if !FirstDecrypting(cs, decrypt, i) {
        i := n - 1;
      }
    }
  }

  /** Selection always has an outcome ... */
  lemma ExtractsSomething(cs: seq<Config>, decrypt: Decrypt) returns (r: Result<Entry, Error>)
    requires Keyed(cs)
    ensures Extracts(cs, decrypt, r)
  {
    var i := FindDecrypting(cs, decrypt, |cs|);
    if cs == [] {
      return Err(NoServers);
    }
    if !FirstDecrypting(cs, decrypt, i) {
      return Err(NothingDecrypts);
    }
    var key := decrypt(cs[i].privateKey.value);
    var j := FindLast(cs[i].peers, key);
    if NoneFrom(cs[i].peers, key, 0) {
      j := FindLast(cs[i].peers, None);
      if NoneFrom(cs[i].peers, None, 0) {
        assert Unmatched(cs, decrypt, i);
        return Err(NoMatch);
      }
    }
    assert Chosen(cs, decrypt, i, j);
    r := Ok(cs[i].peers[j].(clientKey := key));
  }

  /** ... and only one. */
  lemma ExtractsUnique(cs: seq<Config>, decrypt: Decrypt, r: Result<Entry, Error>, r': Result<Entry, Error>)
    requires Keyed(cs) && Extracts(cs, decrypt, r) && Extracts(cs, decrypt, r')
    ensures r == r'
  {
    if r.Ok? && r'.Ok? {
      var i: nat, j: nat :| Chosen(cs, decrypt, i, j)
        && r.value == cs[i].peers[j].(clientKey := decrypt(cs[i].privateKey.value));
      var i': nat, j': nat :| Chosen(cs, decrypt, i', j')
        && r'.value == cs[i'].peers[j'].(clientKey := decrypt(cs[i'].privateKey.value));
      assert i == i';
      SelectedUnique(cs[i].peers, decrypt(cs[i].privateKey.value).value, j, j');
    }
  }

  /** What the table is told about the chosen peer. */
  function ToRule(p: Entry): Rule
    requires p.clientKey.Some? && p.address.Some?
  {
    Rule(p.clientKey.value, p.serverKey, p.address.value, p.clientLevel, p.serverLevel)
  }

  /** A fallback chosen from an acceptable configuration is the only one. */
  lemma TheFallback(env: Env, c: Config, key: PublicKey, j: nat)
    requires Acceptable(env, c) && Selected(c.peers, key, j)
    ensures c.peers[j].clientKey == Some(key) || forall l :: 0 <= l < |c.peers| ==> (Fallback(c.peers[l]) <==> l == j)
  {
  }

  /** Initialising keeps which entry is selected. */
  lemma ReadySelects(env: Env, c: Config, key: PublicKey, j: nat)
    requires Acceptable(env, c)
    ensures Selected(ReadyConfig(env, c).peers, key, j) <==> Selected(c.peers, key, j)
  {
    var rs := ReadyConfig(env, c).peers;
    assert forall l :: 0 <= l < |c.peers| ==> rs[l].clientKey == c.peers[l].clientKey;
  }

  /** From configuration to rule: the peer extracted by an initialised server comes from the entry that the
      configuration as written selects, carries the decrypted key, the public half of the server's key, the resolved
      address, and its own levels where given, else its server's. */
  lemma SelectionFromConfiguration(env: Env, cs: seq<Config>, decrypt: Decrypt, p: Entry)
    requires AllAcceptable(env, cs) && Extracts(AllReady(env, cs), decrypt, Ok(p))
    ensures exists i: nat, j: nat :: i < |cs| && Selects(env, cs, decrypt, i, j, p)
  {
    var rs := AllReady(env, cs);
    var i: nat, j: nat :| Chosen(rs, decrypt, i, j)
        && p == rs[i].peers[j].(clientKey := decrypt(rs[i].privateKey.value));
    var key := decrypt(rs[i].privateKey.value).value;
    ReadySelects(env, cs[i], key, j);
    TheFallback(env, cs[i], key, j);
    ReadyExactly(env, cs[i], KeyOf(env, cs[i]).value, cs[i].peers[j]);
    assert forall k :: 0 <= k < i ==> rs[k].privateKey == KeyOf(env, cs[k]);
    assert Selects(env, cs, decrypt, i, j, p);
  }

  /** Said of the configuration as written: server `i` is the first whose key decrypts; its entry `j` is the last with
      the client's key, or there is none and it is the one without a key; and `p` is what the table is told about it. */
  predicate Selects(env: Env, cs: seq<Config>, decrypt: Decrypt, i: nat, j: nat, p: Entry)
    requires AllAcceptable(env, cs) && i < |cs|
  {
    var c, key := cs[i], KeyOf(env, cs[i]).value;
    && (forall k :: 0 <= k < i ==> decrypt(KeyOf(env, cs[k]).value).None?)
    && decrypt(key).Some? && j < |c.peers| && p.clientKey.Some? && p.address.Some?
    && var entry, rule := c.peers[j], ToRule(p);
    && (|| (entry.clientKey == decrypt(key) && forall l :: j < l < |c.peers| ==> c.peers[l].clientKey != decrypt(key))
        || ((forall l :: 0 <= l < |c.peers| ==> c.peers[l].clientKey != decrypt(key))
            && (forall l :: 0 <= l < |c.peers| ==> (c.peers[l].clientKey == None <==> l == j))))
    && rule.clientKey == decrypt(key).value && rule.serverKey == env.publicKey(key)
    && env.resolve(entry.forwardTo, c.address) == Some(rule.forwardTo)
    && (entry.clientLevel != 0 ==> rule.clientLevel == entry.clientLevel)
    && (entry.clientLevel == 0 ==> rule.clientLevel == c.clientLevel)
    && (entry.serverLevel != 0 ==> rule.serverLevel == entry.serverLevel)
    && (entry.serverLevel == 0 ==> rule.serverLevel == c.serverLevel)
  }
}

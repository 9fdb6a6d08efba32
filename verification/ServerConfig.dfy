/** The server's configuration and its initialisation (server.go). Key derivation, key files and address resolution
    are functions the caller supplies. */
module ServerConfig {
  import opened Bytes
  import opened Tables

  type PrivateKey = s: seq<byte> | |s| == 32 witness seq(32, _ => 0)

  /** The foreign code: deriving a public key, reading a key file, and resolving `forward_to` against the address of
      the server it belongs to. An empty, malformed or unresolvable `forward_to` is `None`. */
  datatype Env = Env(
    publicKey: PrivateKey -> PublicKey,
    readKey: string -> Option<PrivateKey>,
    resolve: (string, string) -> Option<Addr>)

  datatype Error =
    | NoServers | NoPeers | NoPrivateKey | BadKeyFile | TwoPrivateKeys | MultipleFallbacks | BadForwardTo(peer: nat)
    | NothingDecrypts | NoMatch

  /** A configured peer as a value; one without a key is a fallback. */
  datatype Entry = Entry(forwardTo: string, address: Option<Addr>, clientLevel: int, serverLevel: int,
                         clientKey: Option<PublicKey>, serverKey: PublicKey)

  /** A configured server as a value. */
  datatype Config = Config(privateKey: Option<PrivateKey>, keyFile: string, address: string, peers: seq<Entry>,
                           clientLevel: int, serverLevel: int)

  predicate Fallback(p: Entry) {
    p.clientKey.None?
  }

  /** The private key in force: given directly or by file, not both. */
  function KeyOf(env: Env, c: Config): Option<PrivateKey> {
    match c.privateKey
    case Some(_) => if c.keyFile == "" then c.privateKey else None
    case None => if c.keyFile == "" then None else env.readKey(c.keyFile)
  }

  predicate UniqueFallback(ps: seq<Entry>) {
    forall i, j :: 0 <= i < j < |ps| ==> !(Fallback(ps[i]) && Fallback(ps[j]))
  }

  predicate HasFallback(ps: seq<Entry>) {
    exists i :: 0 <= i < |ps| && Fallback(ps[i])
  }

  predicate Resolvable(env: Env, c: Config) {
    forall i :: 0 <= i < |c.peers| ==> env.resolve(c.peers[i].forwardTo, c.address).Some?
  }

  /** What a configuration must satisfy. */
  predicate Acceptable(env: Env, c: Config) {
    c.peers != [] && KeyOf(env, c).Some? && UniqueFallback(c.peers) && Resolvable(env, c)
  }

  predicate SoundUpTo(env: Env, c: Config, n: nat)
    requires n <= |c.peers|
  {
    UniqueFallback(c.peers[..n]) && forall j :: 0 <= j < n ==> env.resolve(c.peers[j].forwardTo, c.address).Some?
  }

  /** `err` is what is wrong with the configuration: the first fault met in the order of the checks. */
  predicate Faulty(env: Env, c: Config, err: Error) {
    match err
    case NoPeers => c.peers == []
    case NoPrivateKey => c.peers != [] && c.privateKey.None? && c.keyFile == ""
    case BadKeyFile => c.peers != [] && c.privateKey.None? && c.keyFile != "" && env.readKey(c.keyFile).None?
    case TwoPrivateKeys => c.peers != [] && c.privateKey.Some? && c.keyFile != ""
    case _ => KeyOf(env, c).Some? && FaultyPeers(env, c, err)
  }

  predicate FaultyPeers(env: Env, c: Config, err: Error) {
    match err
    case MultipleFallbacks =>
      exists i :: 0 <= i < |c.peers| && SoundUpTo(env, c, i) && !UniqueFallback(c.peers[..i + 1])
    case BadForwardTo(i) =>
      i < |c.peers| && SoundUpTo(env, c, i) && UniqueFallback(c.peers[..i + 1])
      && env.resolve(c.peers[i].forwardTo, c.address).None?
    case _ => false
  }

  lemma UniquePrefix(ps: seq<Entry>, i: nat, k: nat)
    requires i <= k <= |ps| && UniqueFallback(ps[..k])
    ensures UniqueFallback(ps[..i])
  {
    assert forall j :: 0 <= j < i ==> ps[..i][j] == ps[..k][j];
  }

  lemma OneFaultyPeer(env: Env, c: Config, err: Error, i: nat)
    requires FaultyPeers(env, c, err) && FaultyPeers(env, c, BadForwardTo(i))
    ensures err == BadForwardTo(i)
  {
    assert forall k :: i < k <= |c.peers| ==> !SoundUpTo(env, c, k);
    forall k | 0 <= k <= i && SoundUpTo(env, c, k)
      ensures UniqueFallback(c.peers[..k + 1])
    {
      UniquePrefix(c.peers, k + 1, i + 1);
    }
  }

  /** The fault reported for a configuration is determined by it. */
  lemma FaultUnique(env: Env, c: Config, err: Error, err': Error)
    requires Faulty(env, c, err) && Faulty(env, c, err')
    ensures err == err'
  {
    if err.BadForwardTo? && c.peers != [] {
      OneFaultyPeer(env, c, err', err.peer);
    } else if err'.BadForwardTo? && c.peers != [] {
      OneFaultyPeer(env, c, err, err'.peer);
    }
  }

  function Inherited(own: int, server: int): int {
    if own == LEVEL_DEFAULT then server else own
  }

  /** A peer once its server has been initialised with private key `key`. */
  function Ready(env: Env, c: Config, key: PrivateKey, p: Entry): Entry {
    p.(address := env.resolve(p.forwardTo, c.address),
       clientLevel := Inherited(p.clientLevel, c.clientLevel),
       serverLevel := Inherited(p.serverLevel, c.serverLevel),
       serverKey := env.publicKey(key))
  }

  /** The whole server once initialised. */
  function ReadyConfig(env: Env, c: Config): Config
    requires KeyOf(env, c).Some?
  {
    var key := KeyOf(env, c).value;
    c.(privateKey := Some(key),
       peers := seq(|c.peers|, i requires 0 <= i < |c.peers| => Ready(env, c, key, c.peers[i])))
  }

  lemma FallbackNext(ps: seq<Entry>, i: nat)
    requires i < |ps| && UniqueFallback(ps[..i])
    ensures UniqueFallback(ps[..i + 1]) <==> !(HasFallback(ps[..i]) && Fallback(ps[i]))
    ensures HasFallback(ps[..i + 1]) <==> HasFallback(ps[..i]) || Fallback(ps[i])
  {
    var qs, rs := ps[..i], ps[..i + 1];
    assert rs == qs + [ps[i]];
    if HasFallback(qs) {
      var j :| 0 <= j < |qs| && Fallback(qs[j]);
      assert Fallback(rs[j]);
    }
    assert rs[i] == ps[i];
  }

  lemma SoundPrefix(env: Env, c: Config, n: nat)
    requires n <= |c.peers| && UniqueFallback(c.peers) && Resolvable(env, c)
    ensures SoundUpTo(env, c, n)
  {
  }

  /** A level given for a peer overrides its server's, which holds where none is given. */
  lemma ReadyExactly(env: Env, c: Config, key: PrivateKey, p: Entry)
    ensures var q := Ready(env, c, key, p);
            && q.address == env.resolve(p.forwardTo, c.address) && q.serverKey == env.publicKey(key)
            && q.forwardTo == p.forwardTo && q.clientKey == p.clientKey
            && (p.clientLevel != 0 ==> q.clientLevel == p.clientLevel)
            && (p.clientLevel == 0 ==> q.clientLevel == c.clientLevel)
            && (p.serverLevel != 0 ==> q.serverLevel == p.serverLevel)
            && (p.serverLevel == 0 ==> q.serverLevel == c.serverLevel)
  {
  }

  /** The private key is given directly or by a readable file, and never by both. */
  lemma KeyExactly(env: Env, c: Config, key: PrivateKey)
    ensures KeyOf(env, c) == Some(key) <==>
            || (c.privateKey == Some(key) && c.keyFile == "")
            || (c.privateKey == None && c.keyFile != "" && env.readKey(c.keyFile) == Some(key))
  {
  }

  lemma ReadyKeepsKey(env: Env, c: Config, key: PrivateKey, p: Entry)
    ensures Ready(env, c, key, p).clientKey == p.clientKey
  {
  }

  class ServerConfigPeer {
    var forwardTo: string
    var forwardToAddress: Option<Addr>
    var clientSourceValidateLevel: int
    var serverSourceValidateLevel: int
    var clientPublicKey: Option<PublicKey>
    var serverPublicKey: PublicKey

    function Value(): Entry
      reads this
    {
      Entry(forwardTo, forwardToAddress, clientSourceValidateLevel, serverSourceValidateLevel, clientPublicKey,
            serverPublicKey)
    }

    constructor Copy(p: ServerConfigPeer)
      ensures Value() == p.Value()
    {
      forwardTo := p.forwardTo;
      forwardToAddress := p.forwardToAddress;
      clientSourceValidateLevel := p.clientSourceValidateLevel;
      serverSourceValidateLevel := p.serverSourceValidateLevel;
      clientPublicKey := p.clientPublicKey;
      serverPublicKey := p.serverPublicKey;
    }

    /** Lines 33-35. */
    predicate IsFallback()
      reads this
    {
      clientPublicKey.None?
    }
  }

  class ServerConfigServer {
    var privateKey: Option<PrivateKey>
    const privateKeyFile: string
    const address: string
    const peers: seq<ServerConfigPeer>
    const clientSourceValidateLevel: int
    const serverSourceValidateLevel: int

    function Entries(): seq<Entry>
      reads peers
    {
      seq(|peers|, i requires 0 <= i < |peers| reads peers => peers[i].Value())
    }

    function Value(): Config
      reads this, peers
    {
      Config(privateKey, privateKeyFile, address, Entries(), clientSourceValidateLevel, serverSourceValidateLevel)
    }

    /** Lines 83-99. */
    method ResolveKey(env: Env) returns (err: Option<Error>)
      modifies this`privateKey
      ensures err.None? <==> KeyOf(env, old(Value())).Some?
      ensures err.None? ==> privateKey == KeyOf(env, old(Value()))
      ensures err.Some? ==> |peers| == 0 || Faulty(env, old(Value()), err.value)
    {
      if privateKey.None? {
        if privateKeyFile == "" {
          return Some(NoPrivateKey);
        }
        privateKey := env.readKey(privateKeyFile);
        if privateKey.None? {
          return Some(BadKeyFile);
        }
      } else if privateKeyFile != "" {
        return Some(TwoPrivateKeys);
      }
      err := None;
    }

    /** The first `n` peers are ready; any later one is ready, too, only if it is listed twice. */
    ghost predicate Progress(env: Env, c: Config, key: PrivateKey, n: nat)
      reads peers
    {
      && |peers| == |c.peers|
      && forall j :: 0 <= j < |peers| ==>
           peers[j].Value() == Ready(env, c, key, c.peers[j]) || (n <= j && peers[j].Value() == c.peers[j])
    }

    /** Lines 111-140, for one peer. */
    method InitializePeer(env: Env, ghost c: Config, i: nat) returns (ok: bool)
      requires privateKey.Some? && i < |peers| && Progress(env, c, privateKey.value, i)
      requires c.address == address && c.clientLevel == clientSourceValidateLevel
               && c.serverLevel == serverSourceValidateLevel
      modifies peers
      ensures ok <==> env.resolve(c.peers[i].forwardTo, c.address).Some?
      ensures ok ==> Progress(env, c, privateKey.value, i + 1)
    {
      var p := peers[i];
      p.forwardToAddress := env.resolve(p.forwardTo, address);
      if p.forwardToAddress.None? {
        return false;
      }
      if p.clientSourceValidateLevel == LEVEL_DEFAULT {
        p.clientSourceValidateLevel := clientSourceValidateLevel;
      }
      if p.serverSourceValidateLevel == LEVEL_DEFAULT {
        p.serverSourceValidateLevel := serverSourceValidateLevel;
      }
      p.serverPublicKey := env.publicKey(privateKey.value);
      ok := true;
    }

    /** Lines 103-140: one turn of the loop. */
    method Turn(env: Env, ghost c: Config, i: nat, foundFallback: bool) returns (err: Option<Error>, found: bool)
      requires privateKey.Some? && i < |peers| && Progress(env, c, privateKey.value, i)
      requires c.address == address && c.clientLevel == clientSourceValidateLevel
               && c.serverLevel == serverSourceValidateLevel
      requires SoundUpTo(env, c, i) && foundFallback == HasFallback(c.peers[..i])
      modifies peers
      ensures err.None? ==> Progress(env, c, privateKey.value, i + 1)
      ensures err.None? ==> SoundUpTo(env, c, i + 1) && found == HasFallback(c.peers[..i + 1])
      ensures err.Some? ==> !SoundUpTo(env, c, i + 1) && FaultyPeers(env, c, err.value)
    {
      hide Ready, UniqueFallback, HasFallback;
      ReadyKeepsKey(env, c, privateKey.value, c.peers[i]);
      FallbackNext(c.peers, i);
      found := foundFallback;
      if peers[i].IsFallback() {
        if foundFallback {
          return Some(MultipleFallbacks), found;
        }
        found := true;
      }
      var ok := InitializePeer(env, c, i);
      err := if ok then None else Some(BadForwardTo(i));
    }

    /** Lines 101-142. */
    method InitializePeers(env: Env, ghost c: Config) returns (err: Option<Error>)
      requires privateKey.Some? && c.peers == Entries()
      requires c.address == address && c.clientLevel == clientSourceValidateLevel
               && c.serverLevel == serverSourceValidateLevel
      modifies peers
      ensures err.None? <==> UniqueFallback(c.peers) && Resolvable(env, c)
      ensures err.None? ==> Progress(env, c, privateKey.value, |peers|)
      ensures err.Some? ==> FaultyPeers(env, c, err.value)
    {
      hide Ready, FaultyPeers;
      var foundFallback := false;
      for i := 0 to |peers|
        invariant Progress(env, c, privateKey.value, i)
        invariant SoundUpTo(env, c, i) && foundFallback == HasFallback(c.peers[..i])
      {
        err, foundFallback := Turn(env, c, i, foundFallback);
        if err.Some? {
          if UniqueFallback(c.peers) && Resolvable(env, c) {
            SoundPrefix(env, c, i + 1);
          }
          return;
        }
      }
      assert c.peers[..|peers|] == c.peers;
      err := None;
    }

    /** Lines 77-143. */
    method Initialize(env: Env) returns (err: Option<Error>)
      modifies this`privateKey, peers
      ensures err.None? <==> Acceptable(env, old(Value()))
      ensures err.Some? ==> Faulty(env, old(Value()), err.value)
      ensures err.None? ==> Value() == ReadyConfig(env, old(Value()))
    {
      hide Ready, UniqueFallback, Resolvable;
      if |peers| == 0 {
        return Some(NoPeers);
      }
      ghost var c := Value();
      err := ResolveKey(env);
      if err.None? {
        err := InitializePeers(env, c);
        assert err.None? ==> Entries() == ReadyConfig(env, c).peers;
      }
    }
  }
}
